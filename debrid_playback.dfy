/**
 * Debrid playback resolution (backend/services/debrid/playback.go): finding
 * the info hash and the provider, shaping the resolution of a torrent the
 * provider already holds, the "/debrid/..." path handed to the streaming
 * provider, archive detection on download URLs, and the filter that keeps
 * cached results. Every answer of the provider's HTTP API is an input.
 */
module DebridPlayback {
  import opened Wrappers
  import opened Strs
  import opened Models
  import LinkMapping
  import DebridStreaming

  /** `config.DebridProviderSettings`. */
  datatype DebridProviderSettings = DebridProviderSettings(name: string, provider: string, apiKey: string, enabled: bool)

  /** The ways `Resolve` fails. */
  datatype ResolveError =
    | MissingInfoHash
    | LoadSettingsFailed
    | NoProviderEnabled
    | ProviderNotEnabled(provider: string)
    | ProviderNotRegistered(provider: string)
    | AddMagnetFailed
    | TorrentInfoFailed
    | NoMediaFiles
    | SelectFilesFailed
    | TorrentInfoAfterSelectionFailed
    | NotCached(status: string)
    | NoDownloadLinks
    | UnsupportedArchive(ext: string)
    | HeadRequestFailed
    | HeadErrorStatus(code: int)

  // ---------------------------------------------------------------------------
  // The info hash and the provider.
  // ---------------------------------------------------------------------------

  /** The candidate's info hash: its trimmed "infoHash" attribute, else what
      `extract` (standing for `extractInfoHashFromMagnet`) finds in a link
      starting with "magnet:" in any case; missing when both are empty. */
  function InfoHash(candidate: NZBResult, extract: string -> string): (r: Result<string, ResolveError>)
    ensures r.Ok? ==> r.value != ""
    ensures !IsBlank(Attr(candidate.attributes, "infoHash")) ==> r == Ok(Trim(Attr(candidate.attributes, "infoHash")))
    ensures r.Err? <==> (IsBlank(Attr(candidate.attributes, "infoHash"))
                         && (!HasPrefix(Lower(candidate.link), "magnet:") || extract(candidate.link) == ""))
    ensures r.Err? ==> r.error == MissingInfoHash
  {
    var h := Trim(Attr(candidate.attributes, "infoHash"));
    if h != "" then Ok(h)
    else
      var m := if HasPrefix(Lower(candidate.link), "magnet:") then extract(candidate.link) else "";
      if m == "" then Err(MissingInfoHash) else Ok(m)
  }

  /** Provider `p` may serve a request naming `requested` (blank: any). */
  predicate Serves(p: DebridProviderSettings, requested: string)
  {
    p.enabled && (requested == "" || EqualFold(p.provider, requested))
  }

  /** The first enabled provider that serves the (trimmed) requested name. */
  function FirstServing(providers: seq<DebridProviderSettings>, requested: string): (r: Option<nat>)
    ensures r.Some? ==> r.value < |providers| && Serves(providers[r.value], requested)
    ensures r.Some? ==> forall k :: 0 <= k < r.value ==> !Serves(providers[k], requested)
    ensures r.None? ==> forall k :: 0 <= k < |providers| ==> !Serves(providers[k], requested)
  {
    if providers == [] then None
    else if Serves(providers[0], requested) then Some(0)
    else
      var t := FirstServing(providers[1..], requested);
      if t.None? then None else Some(t.value + 1)
  }

  /** The provider choice of `Resolve`, with its two error messages. */
  function ProviderChoice(providers: seq<DebridProviderSettings>, requested: string): Result<DebridProviderSettings, ResolveError>
  {
    match FirstServing(providers, requested)
    case Some(i) => Ok(providers[i])
    case None => if requested == "" then Err(NoProviderEnabled) else Err(ProviderNotEnabled(requested))
  }

  /** The selection loop of `Resolve` over the configured providers. */
  method SelectProvider(providers: seq<DebridProviderSettings>, requested: string)
    returns (r: Result<DebridProviderSettings, ResolveError>)
    ensures r == ProviderChoice(providers, requested)
  {
    var i := 0;
    while i < |providers|
      invariant 0 <= i <= |providers|
      invariant forall k :: 0 <= k < i ==> !Serves(providers[k], requested)
    {
      var p := providers[i];
      if !p.enabled {
        i := i + 1;
        continue;
      }
      if requested == "" || EqualFold(p.provider, requested) {
        return Ok(p);
      }
      i := i + 1;
    }
    if requested == "" {
      return Err(NoProviderEnabled);
    }
    return Err(ProviderNotEnabled(requested));
  }

  /** The chosen provider is enabled and answers to the requested name; with
      no name asked for, failure means no provider is enabled at all, and
      with one, that no enabled provider has that name. */
  lemma ProviderChoiceMeaning(providers: seq<DebridProviderSettings>, requested: string)
    ensures var r := ProviderChoice(providers, requested);
      && (r.Ok? ==> (r.value in providers && r.value.enabled
                     && (requested != "" ==> EqualFold(r.value.provider, requested))))
      && (r == Err(NoProviderEnabled) <==> (requested == "" && forall k :: 0 <= k < |providers| ==> !providers[k].enabled))
      && (r.Err? && requested != "" ==> (r == Err(ProviderNotEnabled(requested))
            && forall k :: 0 <= k < |providers| && providers[k].enabled ==> !EqualFold(providers[k].provider, requested)))
  {
  }

  /** What `Resolve` determines before it talks to the provider: the info hash
      and the provider settings, or the first failure. `settings` is the
      configuration load; `registered` says whether `GetProvider` knows a
      (lowercased) provider name. */
  function ResolveSetup(candidate: NZBResult, extract: string -> string,
                        settings: Result<seq<DebridProviderSettings>, ()>, registered: string -> bool)
    : (r: Result<(string, DebridProviderSettings), ResolveError>)
    ensures r.Ok? ==> InfoHash(candidate, extract) == Ok(r.value.0)
    ensures r.Ok? ==> settings.Ok? && ProviderChoice(settings.value, Trim(Attr(candidate.attributes, "provider"))) == Ok(r.value.1)
    ensures r.Ok? ==> registered(Lower(r.value.1.provider))
    ensures InfoHash(candidate, extract).Err? ==> r == Err(MissingInfoHash)
  {
    match InfoHash(candidate, extract)
    case Err(e) => Err(e)
    case Ok(hash) =>
      match settings
      case Err(_) => Err(LoadSettingsFailed)
      case Ok(providers) =>
        match ProviderChoice(providers, Trim(Attr(candidate.attributes, "provider")))
        case Err(e) => Err(e)
        case Ok(p) =>
          if registered(Lower(p.provider)) then Ok((hash, p)) else Err(ProviderNotRegistered(p.provider))
  }

  // ---------------------------------------------------------------------------
  // The WebDAV-style path of a resolution, and its round trip through the
  // streaming provider's parser.
  // ---------------------------------------------------------------------------

  /** `webdavPath`: "/debrid/{provider}/{torrent}", then "/file/{id}" when a
      preferred file id is set, then "/{filename}" when a file name is known. */
  function WebdavPath(provider: string, torrentID: string, preferredID: string, filename: string): string
  {
    var base := DebridStreaming.DebridPrefix + provider + "/" + torrentID;
    var withFile := if preferredID != "" then base + "/file/" + preferredID else base;
    if filename != "" then withFile + "/" + filename else withFile
  }

  /** A path part the parser gives back unchanged: no '/', '?', '#' and no
      white space. */
  predicate PathPiece(s: string)
  {
    forall k :: 0 <= k < |s| ==> s[k] != '/' && s[k] != '?' && s[k] != '#' && !IsSpace(s[k])
  }

  /** Cutting at a character that `head` does not hold keeps all of `head`. */
  lemma CutKeepsHead(s: string, head: string, c: char)
    requires head <= s && NoChar(head, c)
    ensures head <= DebridStreaming.CutAt(s, c)
  {
    var i := IndexChar(s, c);
  }

  /** Splitting a '/'-free part followed by nothing or by "/...". */
  lemma SplitFirst(a: string, rest: string)
    requires NoChar(a, '/') && (rest == [] || rest[0] == '/')
    ensures rest == [] ==> Split(a + rest, '/') == [a]
    ensures rest != [] ==> Split(a + rest, '/') == [a] + Split(rest[1..], '/')
  {
    if rest == [] {
      assert a + rest == a;
      SplitNoSep(a, '/');
    } else {
      assert a + rest == a + ['/'] + rest[1..];
      SplitCons(a, rest[1..], '/');
    }
  }

  /** What may follow the ids in a parsed path: nothing, or "/" and a part
      of the file name. */
  predicate NameRest(rest: string)
  {
    rest == [] || (rest[0] == '/' && NoChar(rest[1..], '/'))
  }

  /** Concatenation regroups. */
  lemma AppendAssoc(a: string, b: string, c: string)
    ensures a + b + c == a + (b + c)
  {
  }

  /** The "/file/" infix as its separators and the "file" segment. */
  lemma FileInfix(after: string)
    ensures "/file/" + after == ['/'] + ("file" + ['/'] + after)
  {
  }

  /** The segments of "t/file/id" followed by a name rest. */
  lemma SegmentsWithId(t: string, id: string, rest: string)
    requires NoChar(t, '/') && NoChar(id, '/') && NameRest(rest)
    ensures var segs := Split(t + ("/file/" + id + rest), '/');
      |segs| >= 3 && segs[0] == t && segs[1] == "file" && segs[2] == id
  {
    AppendAssoc("/file/", id, rest);
    FileInfix(id + rest);
    AppendAssoc(t, ['/'], "file" + ['/'] + (id + rest));
    SplitCons(t, "file" + ['/'] + (id + rest), '/');
    SplitCons("file", id + rest, '/');
    SplitFirst(id, rest);
  }

  /** The segments of "t" followed by a name rest: at most one more. */
  lemma SegmentsWithoutId(t: string, rest: string)
    requires NoChar(t, '/') && NameRest(rest)
    ensures var segs := Split(t + rest, '/');
      1 <= |segs| <= 2 && segs[0] == t
  {
    SplitFirst(t, rest);
    if rest != [] {
      SplitNoSep(rest[1..], '/');
    }
  }

  /** The segments of "p/t[/file/id]" followed by a name rest. */
  lemma SegmentsOfCore(p: string, t: string, id: string, rest: string)
    requires NoChar(p, '/') && NoChar(t, '/') && NoChar(id, '/') && NameRest(rest)
    ensures var core := p + "/" + t + (if id != "" then "/file/" + id else "");
      var segs := Split(core + rest, '/');
      && |segs| >= 2 && segs[0] == p && segs[1] == t
      && (if |segs| >= 4 && segs[2] == "file" then segs[3] else "") == id
  {
    var idPart := if id != "" then "/file/" + id else "";
    var core := p + "/" + t + idPart;
    AppendAssoc(p + "/" + t, idPart, rest);
    AppendAssoc(p + "/", t, idPart + rest);
    var after := t + (idPart + rest);
    assert core + rest == p + ['/'] + after;
    SplitCons(p, after, '/');
    if id != "" {
      SegmentsWithId(t, id, rest);
    } else {
      assert idPart + rest == rest;
      SegmentsWithoutId(t, rest);
    }
  }

  /** A built path has no white space at either end. */
  lemma WebdavPathTrimmed(provider: string, torrentID: string, preferredID: string, filename: string)
    requires PathPiece(torrentID) && PathPiece(preferredID)
    requires filename == [] || !IsSpace(filename[|filename| - 1])
    ensures var path := WebdavPath(provider, torrentID, preferredID, filename);
      Trim(path) == path
  {
    var path := WebdavPath(provider, torrentID, preferredID, filename);
    assert path[0] == '/';
    assert !IsSpace(path[|path| - 1]) by {
      if filename != "" {
        assert path[|path| - 1] == filename[|filename| - 1];
      } else if preferredID != "" {
        assert path[|path| - 1] == preferredID[|preferredID| - 1];
      } else if torrentID != "" {
        assert path[|path| - 1] == torrentID[|torrentID| - 1];
      } else {
        assert path[|path| - 1] == '/';
      }
    }
    TrimOfTrimmed(path);
  }

  /** The part the parser looks at, of a path "head" + "tail" whose head holds
      no '?' or '#' and whose tail is empty or "/name": all of the head, and
      a name rest. */
  lemma PathPartOfShape(path: string, head: string, tail: string, filename: string)
    requires path == head + tail && Trim(path) == path
    requires NoChar(head, '?') && NoChar(head, '#') && NoChar(filename, '/')
    requires tail == [] || tail == "/" + filename
    ensures var q := DebridStreaming.PathPart(path);
      head <= q && NameRest(q[|head|..])
  {
    CutKeepsHead(path, head, '?');
    var q1 := DebridStreaming.CutAt(path, '?');
    CutKeepsHead(q1, head, '#');
    var q := DebridStreaming.PathPart(path);
    var rest := q[|head|..];
    assert q <= path;
    assert forall k :: 0 <= k < |rest| ==> rest[k] == tail[k];
    if rest != [] {
      assert forall k :: 0 <= k < |rest| - 1 ==> rest[1..][k] == filename[k];
    }
  }

  /** A concatenation of parts without `c` has no `c`. */
  lemma NoCharAppend(a: string, b: string, c: char)
    requires NoChar(a, c) && NoChar(b, c)
    ensures NoChar(a + b, c)
  {
    assert forall k :: 0 <= k < |a + b| ==> (a + b)[k] == if k < |a| then a[k] else b[k - |a|];
  }

  /** The ids part "p/t[/file/id]" of a built path. */
  function IdsPart(provider: string, torrentID: string, preferredID: string): string
  {
    provider + "/" + torrentID + (if preferredID != "" then "/file/" + preferredID else "")
  }

  /** The ids part of plain names holds no '?' or '#'. */
  lemma IdsPartClean(provider: string, torrentID: string, preferredID: string, c: char)
    requires PathPiece(provider) && PathPiece(torrentID) && PathPiece(preferredID)
    requires c == '?' || c == '#'
    ensures NoChar(IdsPart(provider, torrentID, preferredID), c)
  {
    NoCharAppend(provider, "/", c);
    NoCharAppend(provider + "/", torrentID, c);
    if preferredID != "" {
      NoCharAppend("/file/", preferredID, c);
      NoCharAppend(provider + "/" + torrentID, "/file/" + preferredID, c);
    } else {
      assert IdsPart(provider, torrentID, preferredID) == provider + "/" + torrentID;
    }
  }

  /** A built path is the prefix, the ids part and the "/filename" tail. */
  lemma WebdavPathShape(provider: string, torrentID: string, preferredID: string, filename: string)
    ensures WebdavPath(provider, torrentID, preferredID, filename)
            == DebridStreaming.DebridPrefix + IdsPart(provider, torrentID, preferredID)
               + (if filename != "" then "/" + filename else "")
  {
    var prefix := DebridStreaming.DebridPrefix;
    var idPart := if preferredID != "" then "/file/" + preferredID else "";
    var base := prefix + provider + "/" + torrentID;
    if preferredID != "" {
      AppendAssoc(base, "/file/", preferredID);
    } else {
      assert base + idPart == base;
    }
    var head := base + idPart;
    if filename != "" {
      AppendAssoc(head, "/", filename);
    } else {
      assert head + "" == head;
    }
    AppendAssoc(prefix + provider + "/", torrentID, idPart);
    AppendAssoc(prefix + provider, "/", torrentID + idPart);
    AppendAssoc(prefix, provider, "/" + (torrentID + idPart));
    AppendAssoc(provider + "/", torrentID, idPart);
    AppendAssoc(provider, "/", torrentID + idPart);
  }

  /** The part of a built path the parser looks at: the prefix, the ids part
      and a name rest. */
  lemma WebdavPathPart(provider: string, torrentID: string, preferredID: string, filename: string)
    returns (rest: string)
    requires PathPiece(provider) && PathPiece(torrentID) && PathPiece(preferredID)
    requires NoChar(filename, '/') && (filename == [] || !IsSpace(filename[|filename| - 1]))
    ensures DebridStreaming.PathPart(WebdavPath(provider, torrentID, preferredID, filename))
            == DebridStreaming.DebridPrefix + (IdsPart(provider, torrentID, preferredID) + rest)
    ensures NameRest(rest)
  {
    var prefix := DebridStreaming.DebridPrefix;
    var core := IdsPart(provider, torrentID, preferredID);
    var head := prefix + core;
    var tail := if filename != "" then "/" + filename else "";
    var path := WebdavPath(provider, torrentID, preferredID, filename);
    WebdavPathShape(provider, torrentID, preferredID, filename);
    IdsPartClean(provider, torrentID, preferredID, '?');
    IdsPartClean(provider, torrentID, preferredID, '#');
    NoCharAppend(prefix, core, '?');
    NoCharAppend(prefix, core, '#');
    WebdavPathTrimmed(provider, torrentID, preferredID, filename);
    PathPartOfShape(path, head, tail, filename);
    var q := DebridStreaming.PathPart(path);
    rest := q[|head|..];
    assert q == head + rest;
    AppendAssoc(prefix, core, rest);
  }

  /** Round trip: the path of a resolution parses back to its provider,
      torrent id and preferred file id, when those are plain path parts and
      the file name holds no '/' and does not end in white space. */
  lemma WebdavPathRoundTrip(provider: string, torrentID: string, preferredID: string, filename: string)
    requires PathPiece(provider) && PathPiece(torrentID) && PathPiece(preferredID)
    requires NoChar(filename, '/') && (filename == [] || !IsSpace(filename[|filename| - 1]))
    ensures DebridStreaming.ParseDebridPath(WebdavPath(provider, torrentID, preferredID, filename))
            == Some(DebridStreaming.DebridPath(provider, torrentID, preferredID))
  {
    var prefix := DebridStreaming.DebridPrefix;
    var core := IdsPart(provider, torrentID, preferredID);
    var rest := WebdavPathPart(provider, torrentID, preferredID, filename);
    var q := prefix + (core + rest);
    assert HasPrefix(q, prefix);
    assert TrimPrefix(q, prefix) == core + rest;
    assert NoChar(provider, '/') && NoChar(torrentID, '/') && NoChar(preferredID, '/');
    SegmentsOfCore(provider, torrentID, preferredID, rest);
  }

  // ---------------------------------------------------------------------------
  // Download URLs.
  // ---------------------------------------------------------------------------

  /** The link is a real URL, which is archive-checked and HEAD-verified; any
      other link is an internal reference resolved at stream time. */
  predicate IsActualUrl(link: string)
  {
    HasPrefix(link, "http://") || HasPrefix(link, "https://")
  }

  /** The archive extensions `detectArchiveExtension` refuses. */
  const ArchiveExtensions: seq<string> := [".rar", ".zip", ".7z", ".tar", ".tar.gz", ".tgz"]

  /** `detectArchiveExtension` as written: "" for a blank URL or one that
      does not parse; otherwise the lowercased `path.Ext` of the URL's path
      when that is a listed archive extension. `urlPath` stands for
      `url.Parse` followed by `.Path`. */
  function DetectArchiveExtensionAsWritten(downloadURL: string, urlPath: string -> Option<string>): (r: string)
    ensures r == "" || r in ArchiveExtensions
    ensures r != "" ==> urlPath(downloadURL).Some? && r == Lower(Ext(urlPath(downloadURL).value))
  {
    if IsBlank(downloadURL) then ""
    else
      match urlPath(downloadURL)
      case None => ""
      case Some(p) =>
        var ext := Lower(Ext(p));
        if ext in ArchiveExtensions then ext else ""
  }

  /** The last extension of a path never holds a second '.', so the
      ".tar.gz" case of `detectArchiveExtension` is never taken: a URL to
      "movie.tar.gz" is let through (its extension is ".gz"). */
  lemma TarGzNeverDetected(downloadURL: string, urlPath: string -> Option<string>)
    ensures DetectArchiveExtensionAsWritten(downloadURL, urlPath) != ".tar.gz"
  {
    if DetectArchiveExtensionAsWritten(downloadURL, urlPath) != "" {
      LowerNoInnerDot(Ext(urlPath(downloadURL).value));
    }
  }

  /** A string with no '.' after its first character does not lowercase to ".tar.gz". */
  lemma LowerNoInnerDot(e: string)
    requires forall k :: 1 <= k < |e| ==> e[k] != '.'
    ensures Lower(e) != ".tar.gz"
  {
    LowerAt(e);
    if |e| == 7 {
      assert Lower(e)[4] != '.';
    }
  }

  /** Every URL whose path ends with ".tar.gz", in any case, is let through. */
  lemma TarGzLetThrough(downloadURL: string, urlPath: string -> Option<string>)
    requires urlPath(downloadURL).Some? && HasSuffix(Lower(urlPath(downloadURL).value), ".tar.gz")
    ensures DetectArchiveExtensionAsWritten(downloadURL, urlPath) == ""
  {
    var p := urlPath(downloadURL).value;
    var n := |p|;
    LowerAt(p);
    assert LowerChar(p[n - 3]) == '.' && LowerChar(p[n - 2]) == 'g' && LowerChar(p[n - 1]) == 'z' by {
      assert Lower(p)[n - 7..] == ".tar.gz";
    }
    assert Ext(p[..n - 2]) == "." by {
      assert p[..n - 2][n - 3] == p[n - 3];
    }
    assert p[..n - 1][..n - 2] == p[..n - 2];
    assert Ext(p[..n - 1]) == "." + [p[n - 2]];
    var e := Ext(p);
    assert e == "." + [p[n - 2]] + [p[n - 1]];
    LowerAt(e);
    assert Lower(e) == ".gz";
  }

  /** The first of `exts` that `p` ends with, or "". */
  function FirstSuffix(p: string, exts: seq<string>): string
  {
    if exts == [] then ""
    else if HasSuffix(p, exts[0]) then exts[0]
    else FirstSuffix(p, exts[1..])
  }

  /** `FirstSuffix` finds a suffix exactly when one of the (non-empty)
      extensions is one. */
  lemma {:induction false} FirstSuffixMeaning(p: string, exts: seq<string>)
    requires forall i :: 0 <= i < |exts| ==> exts[i] != ""
    ensures var r := FirstSuffix(p, exts);
      && (r != "" <==> exists i :: 0 <= i < |exts| && HasSuffix(p, exts[i]))
      && (r != "" ==> r in exts && HasSuffix(p, r))
  {
    if exts != [] && !HasSuffix(p, exts[0]) {
      FirstSuffixMeaning(p, exts[1..]);
      var r := FirstSuffix(p, exts);
      if r != "" {
        var i :| 0 <= i < |exts[1..]| && HasSuffix(p, exts[1..][i]);
        assert HasSuffix(p, exts[i + 1]);
      }
      if exists i :: 0 <= i < |exts| && HasSuffix(p, exts[i]) {
        var i :| 0 <= i < |exts| && HasSuffix(p, exts[i]);
        assert i > 0 && exts[1..][i - 1] == exts[i];
      }
    }
  }

  /** The archive check as intended: the archive extension, ".tar.gz"
      included, that the lowercased URL path ends with. */
  function DetectArchiveExtension(downloadURL: string, urlPath: string -> Option<string>): string
  {
    if IsBlank(downloadURL) then ""
    else
      match urlPath(downloadURL)
      case None => ""
      case Some(p) => FirstSuffix(Lower(p), ArchiveExtensions)
  }

  /** The intended archive check refuses exactly the URLs whose path ends, in
      any case, with an archive extension, and names that extension. */
  lemma DetectArchiveExtensionMeaning(downloadURL: string, urlPath: string -> Option<string>)
    ensures var r := DetectArchiveExtension(downloadURL, urlPath);
      && (r != "" <==> (!IsBlank(downloadURL) && urlPath(downloadURL).Some?
                        && exists i :: 0 <= i < |ArchiveExtensions| && HasSuffix(Lower(urlPath(downloadURL).value), ArchiveExtensions[i])))
      && (r != "" ==> r in ArchiveExtensions && HasSuffix(Lower(urlPath(downloadURL).value), r))
  {
    if !IsBlank(downloadURL) && urlPath(downloadURL).Some? {
      FirstSuffixMeaning(Lower(urlPath(downloadURL).value), ArchiveExtensions);
    }
  }

  /** A URL whose path ends with ".tar.gz", in any case, is refused as a
      ".tar.gz" archive by the intended check. */
  lemma TarGzPathDetected(downloadURL: string, urlPath: string -> Option<string>)
    requires !IsBlank(downloadURL) && urlPath(downloadURL).Some?
    requires HasSuffix(Lower(urlPath(downloadURL).value), ".tar.gz")
    ensures DetectArchiveExtension(downloadURL, urlPath) == ".tar.gz"
  {
    var lp := Lower(urlPath(downloadURL).value);
    var n := |lp|;
    assert lp[n - 4] == ".tar.gz"[3] && lp[n - 2] == ".tar.gz"[5];
    assert !HasSuffix(lp, ".rar") by { assert ".rar"[0] != lp[n - 4]; }
    assert !HasSuffix(lp, ".zip") by { assert ".zip"[0] != lp[n - 4]; }
    assert !HasSuffix(lp, ".7z") by { assert ".7z"[1] != lp[n - 2]; }
    assert !HasSuffix(lp, ".tar") by { assert ".tar"[0] != lp[n - 4]; }
    FirstSuffixSkip(lp, ArchiveExtensions, 4);
    assert ArchiveExtensions[4..] == [".tar.gz", ".tgz"];
  }

  /** Extensions that are not suffixes can be skipped. */
  lemma {:induction false} FirstSuffixSkip(p: string, exts: seq<string>, k: nat)
    requires k <= |exts| && forall i :: 0 <= i < k ==> !HasSuffix(p, exts[i])
    ensures FirstSuffix(p, exts) == FirstSuffix(p, exts[k..])
  {
    if k > 0 {
      FirstSuffixSkip(p, exts[1..], k - 1);
      assert exts[1..][k - 1..] == exts[k..];
    }
  }

  // ---------------------------------------------------------------------------
  // Resolution of a torrent through the provider.
  // ---------------------------------------------------------------------------

  /** What `selectMediaFiles` picked: the ids to select, and the preferred one. */
  datatype Selection = Selection(orderedIDs: seq<string>, preferredID: string)

  /** A `GetTorrentInfo` answer: the status and the files and links. */
  datatype TorrentState = TorrentState(status: string, info: LinkMapping.TorrentInfo)

  /** The provider's answers during one `resolveWithProvider`, in call order;
      `None` is a failed call (for `selection`, a nil or empty selection; for
      `head`, a HEAD request that could not be built or sent). */
  datatype ProviderAnswers = ProviderAnswers(
    name: string,
    added: Option<string>,
    firstInfo: Option<TorrentState>,
    selection: Option<Selection>,
    selectOk: bool,
    secondInfo: Option<TorrentState>,
    head: Option<int>)

  /** A result, and whether the torrent is deleted from the account again. */
  datatype Outcome = Outcome(result: Result<PlaybackResolution, ResolveError>, deletesTorrent: bool)

  /** `resolveWithProvider`. */
  function ResolveWithProvider(candidate: NZBResult, a: ProviderAnswers, urlPath: string -> Option<string>): Outcome
  {
    if a.added.None? then Outcome(Err(AddMagnetFailed), false)
    else if a.firstInfo.None? then Outcome(Err(TorrentInfoFailed), false)
    else if a.selection.None? || a.selection.value.orderedIDs == [] then Outcome(Err(NoMediaFiles), true)
    else if !a.selectOk then Outcome(Err(SelectFilesFailed), true)
    else if a.secondInfo.None? then Outcome(Err(TorrentInfoAfterSelectionFailed), true)
    else
      var state := a.secondInfo.value;
      if Lower(state.status) != "downloaded" then Outcome(Err(NotCached(state.status)), true)
      else if state.info.links == [] then Outcome(Err(NoDownloadLinks), true)
      else
        var preferred := a.selection.value.preferredID;
        var link := LinkMapping.Resolve(Some(state.info), preferred);
        var webdav := WebdavPath(a.name, a.added.value, preferred, link.filename);
        var archive := DetectArchiveExtensionAsWritten(link.link, urlPath);
        if IsActualUrl(link.link) && archive != "" then Outcome(Err(UnsupportedArchive(archive)), true)
        else if IsActualUrl(link.link) && a.head.None? then Outcome(Err(HeadRequestFailed), true)
        else if IsActualUrl(link.link) && a.head.value >= 400 then Outcome(Err(HeadErrorStatus(a.head.value)), true)
        else Outcome(Ok(PlaybackResolution(0, webdav, "cached", candidate.sizeBytes, link.link)), false)
  }

  /** A successful resolution has no queue, health "cached", the candidate's
      size, the restricted link of the preferred file as its source and the
      path built from provider, torrent, preferred id and file name; the
      torrent is then downloaded, has links, and is kept. */
  lemma ResolutionShape(candidate: NZBResult, a: ProviderAnswers, urlPath: string -> Option<string>)
    ensures var o := ResolveWithProvider(candidate, a, urlPath);
      o.result.Ok? ==>
        && !o.deletesTorrent
        && a.added.Some? && a.selection.Some? && a.secondInfo.Some?
        && Lower(a.secondInfo.value.status) == "downloaded" && a.secondInfo.value.info.links != []
        && var link := LinkMapping.Resolve(Some(a.secondInfo.value.info), a.selection.value.preferredID);
           && link.link in a.secondInfo.value.info.links
           && o.result.value == PlaybackResolution(0, WebdavPath(a.name, a.added.value, a.selection.value.preferredID, link.filename),
                                                   "cached", candidate.sizeBytes, link.link)
  {
    var o := ResolveWithProvider(candidate, a, urlPath);
    if o.result.Ok? {
      LinkMapping.ResolveMeaning(Some(a.secondInfo.value.info), a.selection.value.preferredID);
    }
  }

  /** Only real URLs are archive-checked and HEAD-verified: an internal
      reference that reaches that point always resolves. */
  lemma InternalReferencesPass(candidate: NZBResult, a: ProviderAnswers, urlPath: string -> Option<string>)
    ensures var r := ResolveWithProvider(candidate, a, urlPath).result;
      r.Err? && (r.error.UnsupportedArchive? || r.error.HeadRequestFailed? || r.error.HeadErrorStatus?) ==>
        IsActualUrl(LinkMapping.Resolve(Some(a.secondInfo.value.info), a.selection.value.preferredID).link)
  {
  }

  /** The torrent is deleted again on every failure after its info was first
      read, and only then; a failure of that first read leaves it behind. */
  lemma DeletesExactlyAfterInfo(candidate: NZBResult, a: ProviderAnswers, urlPath: string -> Option<string>)
    ensures var o := ResolveWithProvider(candidate, a, urlPath);
      o.deletesTorrent <==> o.result.Err? && o.result.error != AddMagnetFailed && o.result.error != TorrentInfoFailed
  {
  }

  /** As written, a cached torrent whose preferred link is a ".tar.gz" URL
      that answers HEAD below 400 is resolved, and the torrent is kept. */
  lemma TarGzLinkResolves(candidate: NZBResult, a: ProviderAnswers, urlPath: string -> Option<string>)
    requires a.added.Some? && a.firstInfo.Some? && a.selection.Some? && a.selection.value.orderedIDs != []
    requires a.selectOk && a.secondInfo.Some?
    requires Lower(a.secondInfo.value.status) == "downloaded" && a.secondInfo.value.info.links != []
    requires var link := LinkMapping.Resolve(Some(a.secondInfo.value.info), a.selection.value.preferredID).link;
      urlPath(link).Some? && HasSuffix(Lower(urlPath(link).value), ".tar.gz")
    requires a.head.Some? && a.head.value < 400
    ensures ResolveWithProvider(candidate, a, urlPath).result.Ok?
    ensures !ResolveWithProvider(candidate, a, urlPath).deletesTorrent
  {
    var link := LinkMapping.Resolve(Some(a.secondInfo.value.info), a.selection.value.preferredID).link;
    TarGzLetThrough(link, urlPath);
  }

  /** The path of a successful resolution parses back to the provider name,
      the torrent id and the preferred file id, for plain names and ids. */
  lemma ResolutionPathParses(candidate: NZBResult, a: ProviderAnswers, urlPath: string -> Option<string>)
    requires PathPiece(a.name) && (a.added.Some? ==> PathPiece(a.added.value))
    requires a.selection.Some? ==> PathPiece(a.selection.value.preferredID)
    requires a.secondInfo.Some? ==> forall f :: f in a.secondInfo.value.info.files ==>
               NoChar(f.path, '/') && (f.path == [] || !IsSpace(f.path[|f.path| - 1]))
    ensures var o := ResolveWithProvider(candidate, a, urlPath);
      o.result.Ok? ==> DebridStreaming.ParseDebridPath(o.result.value.webdavPath)
                       == Some(DebridStreaming.DebridPath(a.name, a.added.value, a.selection.value.preferredID))
  {
    var o := ResolveWithProvider(candidate, a, urlPath);
    if o.result.Ok? {
      ResolutionShape(candidate, a, urlPath);
      var info := a.secondInfo.value.info;
      var preferred := a.selection.value.preferredID;
      var link := LinkMapping.Resolve(Some(info), preferred);
      if link.filename != "" {
        FileNameIsAPath(info, preferred);
      }
      WebdavPathRoundTrip(a.name, a.added.value, preferred, link.filename);
    }
  }

  /** The file name `resolveRestrictedLink` reports is the path of one of the files. */
  lemma FileNameIsAPath(info: LinkMapping.TorrentInfo, fileID: string)
    requires LinkMapping.Resolve(Some(info), fileID).filename != ""
    ensures exists f :: f in info.files && f.path == LinkMapping.Resolve(Some(info), fileID).filename
  {
    var r := LinkMapping.Resolve(Some(info), fileID);
    LinkMapping.ResolveMeaning(Some(info), fileID);
    if r.matched {
      var j :| 0 <= j < |info.files| && r.filename == info.files[j].path;
      assert info.files[j] in info.files;
    } else {
      var k := LinkMapping.FirstSelected(info.files).value;
      assert info.files[k] in info.files;
    }
  }

  // ---------------------------------------------------------------------------
  // FilterCachedResults.
  // ---------------------------------------------------------------------------

  /** `DebridHealthCheck`, the fields the filter reads. */
  datatype HealthCheck = HealthCheck(healthy: bool, cached: bool, status: string, errorMessage: string)

  /** A quick check (`None`: it failed or returned nil) that keeps the result. */
  predicate Keeps(h: Option<HealthCheck>)
  {
    h.Some? && h.value.healthy && h.value.cached
  }

  /** The results kept when `budget` health checks remain: non-debrid results
      are passed over unchecked, each debrid result uses one check, and the
      scan stops at the first debrid result when no check is left. */
  function Filtered(results: seq<NZBResult>, check: NZBResult -> Option<HealthCheck>, budget: nat): seq<NZBResult>
    decreases |results|
  {
    if results == [] then []
    else if results[0].serviceType != Debrid then Filtered(results[1..], check, budget)
    else if budget == 0 then []
    else (if Keeps(check(results[0])) then [results[0]] else []) + Filtered(results[1..], check, budget - 1)
  }

  /** The limit on health checks. */
  const MaxHealthChecks: nat := 3

  /** `FilterCachedResults`; `check` stands for `CheckHealthQuick`. */
  method FilterCachedResults(results: seq<NZBResult>, check: NZBResult -> Option<HealthCheck>)
    returns (cached: seq<NZBResult>)
    ensures cached == Filtered(results, check, MaxHealthChecks)
  {
    cached := [];
    var checked: nat := 0;
    var i := 0;
    while i < |results|
      invariant 0 <= i <= |results| && checked <= MaxHealthChecks
      invariant cached + Filtered(results[i..], check, MaxHealthChecks - checked) == Filtered(results, check, MaxHealthChecks)
    {
      var result := results[i];
      FilteredAt(results, check, i, MaxHealthChecks - checked);
      if result.serviceType != Debrid {
        i := i + 1;
        continue;
      }
      if checked >= MaxHealthChecks {
        break;
      }
      checked := checked + 1;
      var health := check(result);
      if health.Some? && health.value.healthy && health.value.cached {
        AppendAssocResults(cached, [result], Filtered(results[i + 1..], check, MaxHealthChecks - checked));
        cached := cached + [result];
      }
      i := i + 1;
    }
  }

  /** One step of the filter at position `i`. */
  lemma FilteredAt(results: seq<NZBResult>, check: NZBResult -> Option<HealthCheck>, i: nat, budget: nat)
    requires i < |results|
    ensures Filtered(results[i..], check, budget)
            == if results[i].serviceType != Debrid then Filtered(results[i + 1..], check, budget)
               else if budget == 0 then []
               else (if Keeps(check(results[i])) then [results[i]] else []) + Filtered(results[i + 1..], check, budget - 1)
  {
    assert results[i..][1..] == results[i + 1..];
  }

  lemma AppendAssocResults(a: seq<NZBResult>, b: seq<NZBResult>, c: seq<NZBResult>)
    ensures a + b + c == a + (b + c)
  {
  }

  /** `a` is `b` with some elements left out, in the same order. */
  predicate Subsequence<T(==)>(a: seq<T>, b: seq<T>)
    decreases |b|
  {
    a == [] || (b != [] && ((a[0] == b[0] && Subsequence(a[1..], b[1..])) || Subsequence(a, b[1..])))
  }

  /** The kept results are a subsequence of the input, all debrid and all
      passing their check, and there are at most `budget` of them. */
  lemma {:induction false} FilteredMeaning(results: seq<NZBResult>, check: NZBResult -> Option<HealthCheck>, budget: nat)
    ensures var f := Filtered(results, check, budget);
      && Subsequence(f, results)
      && |f| <= budget
      && forall x :: x in f ==> x in results && x.serviceType == Debrid && Keeps(check(x))
    decreases |results|
  {
    if results == [] {
    } else if results[0].serviceType != Debrid {
      FilteredMeaning(results[1..], check, budget);
      var f := Filtered(results[1..], check, budget);
      assert forall x :: x in results[1..] ==> x in results;
      if f != [] {
        assert Subsequence(f, results) by {
          assert Subsequence(f, results[1..]);
        }
      }
    } else if budget > 0 {
      FilteredMeaning(results[1..], check, budget - 1);
      var t := Filtered(results[1..], check, budget - 1);
      assert forall x :: x in results[1..] ==> x in results;
      if Keeps(check(results[0])) {
        var f := [results[0]] + t;
        assert f[1..] == t;
        assert Subsequence(f, results);
      } else {
        assert Filtered(results, check, budget) == t;
        if t != [] {
          assert Subsequence(t, results[1..]);
        }
      }
    }
  }

  /** The number of debrid results in `results`. */
  function DebridCount(results: seq<NZBResult>): nat
  {
    if results == [] then 0
    else (if results[0].serviceType == Debrid then 1 else 0) + DebridCount(results[1..])
  }

  /** Every debrid result among the first `budget` that passes its check is
      kept: the filter loses nothing it was allowed to check. */
  lemma {:induction false} FilteredKeepsEarlyPasses(results: seq<NZBResult>, check: NZBResult -> Option<HealthCheck>,
                                                    budget: nat, i: nat)
    requires i < |results| && results[i].serviceType == Debrid && DebridCount(results[..i]) < budget
    requires Keeps(check(results[i]))
    ensures results[i] in Filtered(results, check, budget)
    decreases i
  {
    if i > 0 {
      assert results[..i][1..] == results[1..][..i - 1];
      var b := if results[0].serviceType == Debrid then budget - 1 else budget;
      FilteredKeepsEarlyPasses(results[1..], check, b, i - 1);
    }
  }
}
