/**
 * The debrid proxy (backend/services/debrid/proxy.go): choosing the provider
 * for a request, validating the request, and building the authenticated
 * pass-through request. The HTTP round trip is an input.
 */
module DebridProxy {
  import opened Wrappers
  import opened Strs
  import opened DebridPlayback

  /** `ProxyRequest`. */
  datatype ProxyRequest = ProxyRequest(provider: string, resourceURL: string, httpMethod: string, rangeHeader: string)

  datatype ProxyError =
    | NotConfigured
    | MissingResourceUrl
    | LoadSettingsFailed
    | NoEnabledProviders
    | ProviderNotConfigured(name: string)
    | UnsupportedMethod(httpMethod: string)
    | BuildRequestFailed
    | RequestFailed

  /** An enabled provider answers to a normalised name by its trimmed,
      lowercased `Name` or `Provider`; every enabled provider answers to the
      blank name. */
  predicate AnswersTo(p: DebridProviderSettings, normalized: string)
  {
    p.enabled && (normalized == "" || Lower(Trim(p.name)) == normalized || Lower(Trim(p.provider)) == normalized)
  }

  /** The scan of `findProvider` over the providers for a normalised name. */
  function FindNormalized(providers: seq<DebridProviderSettings>, normalized: string): (r: Option<nat>)
    ensures r.Some? ==> r.value < |providers| && AnswersTo(providers[r.value], normalized)
    ensures r.Some? ==> forall k :: 0 <= k < r.value ==> !AnswersTo(providers[k], normalized)
    ensures r.None? ==> forall k :: 0 <= k < |providers| ==> !AnswersTo(providers[k], normalized)
  {
    if providers == [] then None
    else if AnswersTo(providers[0], normalized) then Some(0)
    else
      var t := FindNormalized(providers[1..], normalized);
      if t.None? then None else Some(t.value + 1)
  }

  /** `findProvider`: the first enabled provider answering to the trimmed,
      lowercased name, with a distinct error for the blank name. */
  function FindProvider(providers: seq<DebridProviderSettings>, name: string): Result<DebridProviderSettings, ProxyError>
  {
    var normalized := Trim(Lower(name));
    match FindNormalized(providers, normalized)
    case Some(i) => Ok(providers[i])
    case None => if normalized == "" then Err(NoEnabledProviders) else Err(ProviderNotConfigured(name))
  }

  /** Disabled providers are never chosen; a blank name picks the first
      enabled provider, any other name an enabled provider with that name or
      provider type, and failure means that no enabled provider qualifies. */
  lemma FindProviderMeaning(providers: seq<DebridProviderSettings>, name: string)
    ensures var r := FindProvider(providers, name);
      var normalized := Trim(Lower(name));
      && (r.Ok? ==> (r.value in providers && r.value.enabled))
      && (r.Ok? && normalized == "" ==> exists i :: (0 <= i < |providers| && providers[i] == r.value
                                          && forall k :: 0 <= k < i ==> !providers[k].enabled))
      && (r.Ok? && normalized != "" ==> (Lower(Trim(r.value.name)) == normalized || Lower(Trim(r.value.provider)) == normalized))
      && (r == Err(NoEnabledProviders) <==> (normalized == "" && forall k :: 0 <= k < |providers| ==> !providers[k].enabled))
      && (r.Err? && normalized != "" ==> r == Err(ProviderNotConfigured(name)))
  {
    var normalized := Trim(Lower(name));
    var r := FindProvider(providers, name);
    if r.Ok? && normalized == "" {
      var i := FindNormalized(providers, normalized).value;
      assert providers[i] == r.value;
    }
  }

  /** The method of the proxied request: trimmed and upper-cased, GET when blank. */
  function NormalizeMethod(httpMethod: string): (m: string)
    ensures m != ""
    ensures IsBlank(httpMethod) ==> m == "GET"
  {
    var m := Upper(Trim(httpMethod));
    if m == "" then "GET" else m
  }

  /** The request sent to the provider. */
  datatype Outgoing = Outgoing(httpMethod: string, url: string, headers: map<string, string>)

  /** The provider's response: headers may be nil (`None`). */
  datatype Upstream = Upstream(headers: Option<map<string, string>>, status: int, contentLength: int)

  /** What `Proxy` returns. */
  datatype ProxyResponse = ProxyResponse(headers: map<string, string>, status: int, contentLength: int)

  /** The headers of the proxied request: the Range header when one was
      given, and a bearer token when the provider's trimmed key is set. */
  function ProxyHeaders(rangeHeader: string, apiKey: string): map<string, string>
  {
    var withRange := if rangeHeader != "" then map["Range" := rangeHeader] else map[];
    if Trim(apiKey) != "" then withRange["Authorization" := "Bearer " + Trim(apiKey)] else withRange
  }

  /** Range is forwarded only when present, and Authorization set only for a
      non-blank key, as "Bearer " and the trimmed key; nothing else is set. */
  lemma ProxyHeadersMeaning(rangeHeader: string, apiKey: string)
    ensures var h := ProxyHeaders(rangeHeader, apiKey);
      && ("Range" in h <==> rangeHeader != "")
      && ("Range" in h ==> h["Range"] == rangeHeader)
      && ("Authorization" in h <==> !IsBlank(apiKey))
      && ("Authorization" in h ==> h["Authorization"] == "Bearer " + Trim(apiKey))
      && h.Keys <= {"Range", "Authorization"}
  {
  }

  /** `Proxy`. `configured` is a non-nil service with a config, `settings`
      the configuration load, `validUrl` whether a request can be built for
      the URL, and `send` the HTTP round trip (`None`: it failed). */
  function Proxy(configured: bool, req: ProxyRequest, settings: Result<seq<DebridProviderSettings>, ()>,
                 validUrl: string -> bool, send: Outgoing -> Option<Upstream>): Result<ProxyResponse, ProxyError>
  {
    if !configured then Err(NotConfigured)
    else if IsBlank(req.resourceURL) then Err(MissingResourceUrl)
    else if settings.Err? then Err(ProxyError.LoadSettingsFailed)
    else
      match FindProvider(settings.value, req.provider)
      case Err(e) => Err(e)
      case Ok(provider) =>
        var verb := NormalizeMethod(req.httpMethod);
        if verb != "GET" && verb != "HEAD" then Err(UnsupportedMethod(verb))
        else if !validUrl(Trim(req.resourceURL)) then Err(BuildRequestFailed)
        else
          var out := Outgoing(verb, Trim(req.resourceURL), ProxyHeaders(req.rangeHeader, provider.apiKey));
          match send(out)
          case None => Err(RequestFailed)
          case Some(up) => Ok(ProxyResponse(up.headers.GetOr(map[]), up.status, up.contentLength))
  }

  /** The checks run in order: configuration and the resource URL are
      checked before the settings are read, so neither failure depends on
      them; only GET and HEAD, after normalisation, get through; and a
      response always carries a header map, the upstream one or an empty one. */
  lemma ProxyMeaning(configured: bool, req: ProxyRequest, settings: Result<seq<DebridProviderSettings>, ()>,
                     validUrl: string -> bool, send: Outgoing -> Option<Upstream>)
    ensures var r := Proxy(configured, req, settings, validUrl, send);
      && (!configured ==> r == Err(NotConfigured))
      && (configured && IsBlank(req.resourceURL) ==> r == Err(MissingResourceUrl))
      && (r.Ok? ==> NormalizeMethod(req.httpMethod) in {"GET", "HEAD"})
      && (r.Err? && r.error.UnsupportedMethod? ==> (r.error.httpMethod == NormalizeMethod(req.httpMethod)
                                                   && r.error.httpMethod != "GET" && r.error.httpMethod != "HEAD"))
      && (r.Ok? ==> exists up :: (send(Outgoing(NormalizeMethod(req.httpMethod), Trim(req.resourceURL),
                                                 ProxyHeaders(req.rangeHeader, FindProvider(settings.value, req.provider).value.apiKey))) == Some(up)
                                  && r.value.headers == (if up.headers.Some? then up.headers.value else map[])))
  {
    var r := Proxy(configured, req, settings, validUrl, send);
    if r.Ok? {
      var provider := FindProvider(settings.value, req.provider).value;
      var out := Outgoing(NormalizeMethod(req.httpMethod), Trim(req.resourceURL), ProxyHeaders(req.rangeHeader, provider.apiKey));
      var up := send(out).value;
      assert r.value.headers == (if up.headers.Some? then up.headers.value else map[]);
    }
  }

  /** A lowercase "head" request with surrounding spaces is normalised and
      accepted as HEAD (backend/services/debrid/proxy.go:57). */
  lemma HeadInAnyCase()
    ensures NormalizeMethod(" head ") == "HEAD"
  {
    LeadingSpacesMeaning(" head ");
    assert Trim(" head ") == "head" by {
      assert TrimLeft(" head ") == "head ";
      TrailingSpacesMeaning("head ");
    }
  }
}
