/**
 * The pure parts of the Trakt API client (backend/services/trakt/client.go):
 * request headers, the device-token poll's status mapping, the pagination
 * that collects a whole watchlist or history, the ID map and the media type
 * mapping, and the client's credentials. The server's answers are inputs.
 */
module Trakt {
  import opened Wrappers
  import opened Strs

  const ApiVersion := "2"
  const PageLimit := 100

  /** `Client`, with the fields its methods read and write. */
  class Client {
    var clientID: string
    var clientSecret: string

    /** `NewClient`. */
    constructor(clientID: string, clientSecret: string)
      ensures this.clientID == clientID && this.clientSecret == clientSecret
    {
      this.clientID := clientID;
      this.clientSecret := clientSecret;
    }

    /** `HasCredentials`: both values are set. */
    predicate HasCredentials()
      reads this
    {
      clientID != "" && clientSecret != ""
    }

    /** `UpdateCredentials`: both values are replaced. */
    method UpdateCredentials(clientID: string, clientSecret: string)
      modifies this
      ensures this.clientID == clientID && this.clientSecret == clientSecret
      ensures HasCredentials() <==> clientID != "" && clientSecret != ""
    {
      this.clientID := clientID;
      this.clientSecret := clientSecret;
    }

    /** `setTraktHeaders`: the headers a request carries. */
    function Headers(accessToken: string): (h: map<string, string>)
      reads this
      ensures "Content-Type" in h && "trakt-api-version" in h && "trakt-api-key" in h
      ensures h["Content-Type"] == "application/json" && h["trakt-api-version"] == ApiVersion
      ensures h["trakt-api-key"] == clientID
      ensures "Authorization" in h <==> accessToken != ""
      ensures "Authorization" in h ==> h["Authorization"] == "Bearer " + accessToken
      ensures h.Keys <= {"Content-Type", "trakt-api-version", "trakt-api-key", "Authorization"}
    {
      var base := map["Content-Type" := "application/json", "trakt-api-version" := ApiVersion,
                      "trakt-api-key" := clientID];
      if accessToken != "" then base["Authorization" := "Bearer " + accessToken] else base
    }
  }

  /** The client secret is never sent, and no token means no
      authorisation header. */
  lemma HeadersIgnoreSecret(c: Client, token: string)
    ensures "client_secret" !in c.Headers(token) && "Authorization" !in c.Headers("")
  {
  }

  // ---------------------------------------------------------------------------
  // PollForToken.
  // ---------------------------------------------------------------------------

  datatype TokenResponse = TokenResponse(accessToken: string, tokenType: string, expiresIn: int,
                                         refreshToken: string, scope: string, createdAt: int)

  datatype PollError =
    | DecodeFailed
    | DeviceCodeExpired
    | DeviceCodeAlreadyUsed
    | SlowDown
    | PollFailed(status: int)

  /** The poll's outcome for the HTTP status and, for 200, the decoded body
      (`None`: it did not decode). `Ok(None)`: still pending. */
  function PollOutcome(status: int, decoded: Option<TokenResponse>): (r: Result<Option<TokenResponse>, PollError>)
    ensures r == Ok(None) <==> status == 400
    ensures r.Ok? && r.value.Some? <==> status == 200 && decoded.Some?
    ensures status == 200 && decoded.Some? ==> r == Ok(decoded)
    ensures status == 410 ==> r == Err(DeviceCodeExpired)
    ensures status == 409 ==> r == Err(DeviceCodeAlreadyUsed)
    ensures status == 429 ==> r == Err(SlowDown)
    ensures status !in {200, 400, 409, 410, 429} ==> r == Err(PollFailed(status))
  {
    if status == 200 then
      match decoded
      case None => Err(DecodeFailed)
      case Some(token) => Ok(Some(token))
    else if status == 400 then Ok(None)
    else if status == 410 then Err(DeviceCodeExpired)
    else if status == 409 then Err(DeviceCodeAlreadyUsed)
    else if status == 429 then Err(SlowDown)
    else Err(PollFailed(status))
  }

  // ---------------------------------------------------------------------------
  // Pagination.
  // ---------------------------------------------------------------------------

  /** One page of a listing and the item count the server reports for the
      whole listing (0 when the header is absent or not a number; the
      clamped 64-bit limit when it is out of range). */
  datatype Page<T> = Page(items: seq<T>, total: int)

  /** The server's answer for page `n` (counting from 1): the recorded
      answers, then empty pages. */
  function Fetch<T>(pages: seq<Result<Page<T>, ()>>, n: nat): Result<Page<T>, ()>
  {
    if 1 <= n <= |pages| then pages[n - 1] else Ok(Page([], 0))
  }

  /** What the loop of `GetAllWatchlist` and `GetAllWatchHistory` returns
      when it asks for page `n` holding `acc`. */
  function Collect<T>(pages: seq<Result<Page<T>, ()>>, n: nat, acc: seq<T>): Result<seq<T>, ()>
    requires n >= 1
    decreases |pages| + 1 - n
  {
    match Fetch(pages, n)
    case Err(e) => Err(e)
    case Ok(p) =>
      var all := acc + p.items;
      if |all| >= p.total || |p.items| == 0 then Ok(all) else Collect(pages, n + 1, all)
  }

  /** The pagination loop of `GetAllWatchlist` and `GetAllWatchHistory`. */
  method GetAll<T>(pages: seq<Result<Page<T>, ()>>) returns (r: Result<seq<T>, ()>)
    ensures r == Collect(pages, 1, [])
  {
    var allItems: seq<T> := [];
    var page := 1;
    while true
      invariant page >= 1
      invariant Collect(pages, page, allItems) == Collect(pages, 1, [])
      decreases |pages| + 1 - page
    {
      var answer := Fetch(pages, page);
      if answer.Err? {
        return Err(answer.error);
      }
      allItems := allItems + answer.value.items;
      if |allItems| >= answer.value.total || |answer.value.items| == 0 {
        break;
      }
      page := page + 1;
    }
    r := Ok(allItems);
  }

  /** The items of a run of answered pages, in order. */
  function Items<T>(pages: seq<Result<Page<T>, ()>>): seq<T>
  {
    if pages == [] then []
    else Items(pages[..|pages| - 1]) + (if pages[|pages| - 1].Ok? then pages[|pages| - 1].value.items else [])
  }

  predicate AllAnswered<T>(pages: seq<Result<Page<T>, ()>>)
  {
    forall i :: 0 <= i < |pages| ==> pages[i].Ok?
  }

  lemma ItemsSnoc<T>(pages: seq<Result<Page<T>, ()>>, p: Page<T>)
    ensures Items(pages + [Ok(p)]) == Items(pages) + p.items
  {
    assert (pages + [Ok(p)])[..|pages|] == pages;
  }

  /** The page at which a collection asking for page `n` holding `acc`
      stops. */
  function StopPage<T>(pages: seq<Result<Page<T>, ()>>, n: nat, acc: seq<T>): (m: nat)
    requires n >= 1
    ensures m >= n
    decreases |pages| + 1 - n
  {
    match Fetch(pages, n)
    case Err(_) => n
    case Ok(p) =>
      var all := acc + p.items;
      if |all| >= p.total || |p.items| == 0 then n else StopPage(pages, n + 1, all)
  }

  /** A successful collection is what it was holding followed by the items
      of the pages it read, in order, every one of them answered, and the
      last of them either empty or bringing the count to the total. */
  lemma {:induction false} CollectMeaning<T>(pages: seq<Result<Page<T>, ()>>, n: nat, acc: seq<T>)
    requires n >= 1
    requires Collect(pages, n, acc).Ok?
    ensures AnsweredFrom(pages, n, StopPage(pages, n, acc))
    ensures Collect(pages, n, acc).value == acc + Items(Answers(pages, n, StopPage(pages, n, acc)))
    ensures Fetch(pages, StopPage(pages, n, acc)).Ok?
    ensures (var last := Fetch(pages, StopPage(pages, n, acc)).value;
             |last.items| == 0 || |Collect(pages, n, acc).value| >= last.total)
    decreases |pages| + 1 - n
  {
    CollectFetches(pages, n, acc);
    var p := Fetch(pages, n).value;
    var all := acc + p.items;
    if |all| >= p.total || |p.items| == 0 {
      CollectStops(pages, n, acc);
      SingleAnswer(pages, n);
    } else {
      CollectContinues(pages, n, acc);
      CollectMeaning(pages, n + 1, all);
      var m := StopPage(pages, n + 1, all);
      AnsweredCons(pages, n, m);
      var rest := Answers(pages, n + 1, m);
      ItemsCons(Ok(p), rest);
      assert all + Items(rest) == acc + Items([Ok(p)] + rest);
    }
  }

  lemma CollectFetches<T>(pages: seq<Result<Page<T>, ()>>, n: nat, acc: seq<T>)
    requires n >= 1 && Collect(pages, n, acc).Ok?
    ensures Fetch(pages, n).Ok?
  {
  }

  lemma CollectStops<T>(pages: seq<Result<Page<T>, ()>>, n: nat, acc: seq<T>)
    requires n >= 1 && Fetch(pages, n).Ok?
    requires |acc + Fetch(pages, n).value.items| >= Fetch(pages, n).value.total || |Fetch(pages, n).value.items| == 0
    ensures Collect(pages, n, acc) == Ok(acc + Fetch(pages, n).value.items)
    ensures StopPage(pages, n, acc) == n
  {
  }

  lemma CollectContinues<T>(pages: seq<Result<Page<T>, ()>>, n: nat, acc: seq<T>)
    requires n >= 1 && Fetch(pages, n).Ok?
    requires |acc + Fetch(pages, n).value.items| < Fetch(pages, n).value.total && |Fetch(pages, n).value.items| > 0
    ensures Collect(pages, n, acc) == Collect(pages, n + 1, acc + Fetch(pages, n).value.items)
    ensures StopPage(pages, n, acc) == StopPage(pages, n + 1, acc + Fetch(pages, n).value.items)
  {
  }

  /** An answered page followed by answered pages is a run of answered
      pages, whose items are the first one's followed by the others'. */
  lemma AnsweredCons<T>(pages: seq<Result<Page<T>, ()>>, n: nat, m: nat)
    requires 1 <= n <= m && Fetch(pages, n).Ok? && AnsweredFrom(pages, n + 1, m)
    ensures AnsweredFrom(pages, n, m)
    ensures Answers(pages, n, m) == [Fetch(pages, n)] + Answers(pages, n + 1, m)
  {
  }

  lemma SingleAnswer<T>(pages: seq<Result<Page<T>, ()>>, n: nat)
    requires n >= 1 && Fetch(pages, n).Ok?
    ensures AnsweredFrom(pages, n, n)
    ensures Items(Answers(pages, n, n)) == Fetch(pages, n).value.items
  {
    assert Answers(pages, n, n) == [Fetch(pages, n)];
    ItemsSnoc([], Fetch(pages, n).value);
  }

  /** The answers for pages `n` through `m`. */
  function Answers<T>(pages: seq<Result<Page<T>, ()>>, n: nat, m: nat): (r: seq<Result<Page<T>, ()>>)
    requires 1 <= n <= m + 1
    ensures |r| == m + 1 - n
    decreases m + 1 - n
  {
    if n == m + 1 then [] else [Fetch(pages, n)] + Answers(pages, n + 1, m)
  }

  /** Pages `n` through `m` were all answered. */
  predicate AnsweredFrom<T>(pages: seq<Result<Page<T>, ()>>, n: nat, m: nat)
    requires 1 <= n <= m + 1
  {
    AllAnswered(Answers(pages, n, m))
  }

  lemma {:induction false} ItemsCons<T>(a: Result<Page<T>, ()>, rest: seq<Result<Page<T>, ()>>)
    ensures Items([a] + rest) == (if a.Ok? then a.value.items else []) + Items(rest)
    decreases |rest|
  {
    if rest == [] {
      assert [a] + rest == [a];
      assert [a][..0] == [];
    } else {
      var init := rest[..|rest| - 1];
      assert ([a] + rest)[..|[a] + rest| - 1] == [a] + init;
      ItemsCons(a, init);
    }
  }

  /** The first page that fails makes the whole collection fail. */
  lemma FirstPageFails<T>(pages: seq<Result<Page<T>, ()>>, acc: seq<T>)
    requires pages != [] && pages[0].Err?
    ensures Collect(pages, 1, acc).Err?
  {
  }

  /** One page holding the whole listing is the result. */
  lemma SinglePage<T>(pages: seq<Result<Page<T>, ()>>)
    requires pages != [] && pages[0].Ok? && |pages[0].value.items| >= pages[0].value.total
    ensures Collect(pages, 1, []) == Ok(pages[0].value.items)
  {
    assert Fetch(pages, 1) == pages[0];
    assert [] + pages[0].value.items == pages[0].value.items;
  }

  // ---------------------------------------------------------------------------
  // IDs and media types.
  // ---------------------------------------------------------------------------

  /** `IDs`. */
  datatype IDs = IDs(trakt: Int64, slug: string, imdb: string, tmdb: Int64, tvdb: Int64)

  /** `IDsToMap`: the IMDB ID when set, and the numeric IDs that are not
      zero, in decimal. */
  function IDsToMap(ids: IDs): (m: map<string, string>)
    ensures "imdb" in m <==> ids.imdb != ""
    ensures "tmdb" in m <==> ids.tmdb != 0
    ensures "tvdb" in m <==> ids.tvdb != 0
    ensures "trakt" in m <==> ids.trakt != 0
    ensures m.Keys <= {"imdb", "tmdb", "tvdb", "trakt"}
    ensures "imdb" in m ==> m["imdb"] == ids.imdb
    ensures "tmdb" in m ==> m["tmdb"] == IntToString(ids.tmdb)
    ensures "tvdb" in m ==> m["tvdb"] == IntToString(ids.tvdb)
    ensures "trakt" in m ==> m["trakt"] == IntToString(ids.trakt)
  {
    var m1: map<string, string> := if ids.imdb != "" then map["imdb" := ids.imdb] else map[];
    var m2 := if ids.tmdb != 0 then m1["tmdb" := IntToString(ids.tmdb)] else m1;
    var m3 := if ids.tvdb != 0 then m2["tvdb" := IntToString(ids.tvdb)] else m2;
    if ids.trakt != 0 then m3["trakt" := IntToString(ids.trakt)] else m3
  }

  /** The numeric IDs read back from the map. */
  lemma IDsToMapRoundTrip(ids: IDs)
    ensures "tmdb" in IDsToMap(ids) ==> ParseInt(IDsToMap(ids)["tmdb"]) == Some(ids.tmdb)
    ensures "tvdb" in IDsToMap(ids) ==> ParseInt(IDsToMap(ids)["tvdb"]) == Some(ids.tvdb)
    ensures "trakt" in IDsToMap(ids) ==> ParseInt(IDsToMap(ids)["trakt"]) == Some(ids.trakt)
  {
    ParseIntOfIntToString(ids.tmdb);
    ParseIntOfIntToString(ids.tvdb);
    ParseIntOfIntToString(ids.trakt);
  }

  /** `NormalizeMediaType`: "show" is "series"; anything else is kept. */
  function NormalizeMediaType(traktType: string): (r: string)
    ensures traktType == "show" ==> r == "series"
    ensures traktType != "show" ==> r == traktType
  {
    if traktType == "movie" then "movie"
    else if traktType == "show" then "series"
    else if traktType == "episode" then "episode"
    else traktType
  }

  /** Normalising twice is normalising once, and only "show" and "series"
      become "series". */
  lemma NormalizeMediaTypeMeaning(t: string)
    ensures NormalizeMediaType(NormalizeMediaType(t)) == NormalizeMediaType(t)
    ensures NormalizeMediaType(t) == "series" <==> t == "show" || t == "series"
  {
  }
}
