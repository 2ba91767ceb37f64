/**
 * The debrid streaming provider's path parsing, its cache of unrestricted
 * download URLs, the path gate of its `Stream`, and the composite provider
 * that tries several streaming providers in turn
 * (backend/services/debrid/streaming.go).
 */
module DebridStreaming {
  import opened Wrappers
  import opened Strs

  const DebridPrefix: string := "/debrid/"

  /** The three parts of a `/debrid/{provider}/{torrent}[/file/{id}]...` path. */
  datatype DebridPath = DebridPath(provider: string, torrentID: string, fileID: string)

  /** `s` up to the first `c`, or all of `s`. */
  function CutAt(s: string, c: char): (r: string)
    ensures r <= s && NoChar(r, c)
  {
    var i := IndexChar(s, c);
    if i == -1 then s else s[..i]
  }

  /** The trimmed path with the query and then the fragment cut off. */
  function PathPart(path: string): string
  {
    CutAt(CutAt(Trim(path), '?'), '#')
  }

  /** The '/'-separated segments after the "/debrid/" prefix. */
  function Segments(trimmed: string): (segs: seq<string>)
    ensures |segs| >= 1
  {
    Split(TrimPrefix(trimmed, DebridPrefix), '/')
  }

  /** `parseDebridPath`: the provider and torrent id are the first two segments
      after "/debrid/", and the file id is the fourth when the third is "file".
      A path without the prefix or with fewer than two segments is invalid. */
  function ParseDebridPath(path: string): (r: Option<DebridPath>)
    ensures r.Some? <==> HasPrefix(PathPart(path), DebridPrefix) && |Segments(PathPart(path))| >= 2
    ensures r.Some? ==> var segs := Segments(PathPart(path));
      && r.value.provider == segs[0] && r.value.torrentID == segs[1]
      && r.value.fileID == (if |segs| >= 4 && segs[2] == "file" then segs[3] else "")
  {
    var trimmed := PathPart(path);
    if !HasPrefix(trimmed, DebridPrefix) then None
    else
      var segs := Segments(trimmed);
      if |segs| < 2 then None
      else Some(DebridPath(segs[0], segs[1], if |segs| >= 4 && segs[2] == "file" then segs[3] else ""))
  }

  /** No part of a parsed path holds a '/'. */
  lemma ParsedPartsHaveNoSlash(path: string)
    requires ParseDebridPath(path).Some?
    ensures var p := ParseDebridPath(path).value;
      NoChar(p.provider, '/') && NoChar(p.torrentID, '/') && NoChar(p.fileID, '/')
  {
    var segs := Segments(PathPart(path));
    assert forall k :: 0 <= k < |segs[0]| ==> segs[0][k] != '/';
    assert forall k :: 0 <= k < |segs[1]| ==> segs[1][k] != '/';
    if |segs| >= 4 && segs[2] == "file" {
      assert forall k :: 0 <= k < |segs[3]| ==> segs[3][k] != '/';
    }
  }

  /** `cacheKeyFor`: the torrent id alone for a blank file id, else "torrent:file". */
  function CacheKeyFor(torrentID: string, fileID: string): string
  {
    if IsBlank(fileID) then torrentID else torrentID + ":" + fileID
  }

  /** For torrent ids without ':', distinct requests never share a cache key:
      the key gives back the torrent id, whether the file id is blank, and the
      file id when it is not. */
  lemma CacheKeyInjective(t1: string, f1: string, t2: string, f2: string)
    requires NoChar(t1, ':') && NoChar(t2, ':')
    requires CacheKeyFor(t1, f1) == CacheKeyFor(t2, f2)
    ensures t1 == t2 && (IsBlank(f1) <==> IsBlank(f2)) && (!IsBlank(f1) ==> f1 == f2)
  {
    var k := CacheKeyFor(t1, f1);
    ColonKeyNotPlain(t1, t2, f2);
    ColonKeyNotPlain(t2, t1, f1);
    if !IsBlank(f1) && !IsBlank(f2) {
      KeyPrefix(t1, f1);
      KeyPrefix(t2, f2);
      assert t1 == t2;
      assert k[|t1| + 1..] == f1;
      assert k[|t2| + 1..] == f2;
    }
  }

  /** A string without ':' is no "t:f" key. */
  lemma ColonKeyNotPlain(u: string, t: string, f: string)
    requires NoChar(u, ':')
    ensures u != t + ":" + f
  {
    assert (t + ":" + f)[|t|] == ':';
  }

  /** In "t:f" with t free of ':', the first ':' is the one after t. */
  lemma KeyPrefix(t: string, f: string)
    requires NoChar(t, ':')
    ensures IndexChar(t + ":" + f, ':') == |t| && (t + ":" + f)[..|t|] == t
  {
    var k := t + ":" + f;
    assert k[|t|] == ':';
    assert forall i :: 0 <= i < |t| ==> k[i] == t[i];
  }

  // ---------------------------------------------------------------------------
  // The unrestricted-URL cache. Times are nanoseconds, as Go's durations.
  // ---------------------------------------------------------------------------

  /** Ten minutes. */
  const DefaultCacheTTL: int := 10 * 60 * 1000000000

  datatype CachedUrl = CachedUrl(url: string, filename: string, expiresAt: int)

  /** `time.Now().After(expiresAt)`. */
  predicate Expired(e: CachedUrl, now: int)
  {
    now > e.expiresAt
  }

  /** The URL and file name cached under `key` at time `now`, if any. */
  function Hit(cache: map<string, CachedUrl>, key: string, now: int): Option<(string, string)>
  {
    if key in cache && !Expired(cache[key], now) then Some((cache[key].url, cache[key].filename)) else None
  }

  /** The cache without the entries expired at `now`. */
  function Pruned(cache: map<string, CachedUrl>, now: int): map<string, CachedUrl>
  {
    map k | k in cache && !Expired(cache[k], now) :: cache[k]
  }

  /** Storing an entry with a non-negative lifetime and pruning makes that
      entry a hit at the same instant; every other key answers as before, and
      no expired entry is left. */
  lemma StoreThenHit(cache: map<string, CachedUrl>, key: string, url: string, filename: string,
                     now: int, ttl: int)
    requires ttl >= 0
    ensures var c := Pruned(cache[key := CachedUrl(url, filename, now + ttl)], now);
      && Hit(c, key, now) == Some((url, filename))
      && (forall k :: k != key ==> Hit(c, k, now) == Hit(cache, k, now))
      && (forall k :: k in c ==> !Expired(c[k], now))
  {
  }

  /** The part of `StreamingProvider` that holds the URL cache. */
  class StreamingProvider {
    var urlCache: map<string, CachedUrl>
    const cacheTTL: int

    /** `NewStreamingProvider`: an empty cache with a ten-minute lifetime. */
    constructor ()
      ensures urlCache == map[] && cacheTTL == DefaultCacheTTL
    {
      urlCache := map[];
      cacheTTL := DefaultCacheTTL;
    }

    /** `getCachedURL`: a hit only for a present entry not yet expired. */
    function GetCachedUrl(key: string, now: int): (r: Option<(string, string)>)
      reads this
      ensures r.Some? <==> key in urlCache && now <= urlCache[key].expiresAt
      ensures r.Some? ==> r.value == (urlCache[key].url, urlCache[key].filename)
    {
      Hit(urlCache, key, now)
    }

    /** `setCachedURL`: store the entry to expire a lifetime from now, then
        delete every expired entry. */
    method SetCachedUrl(key: string, url: string, filename: string, now: int)
      modifies this`urlCache
      ensures urlCache == Pruned(old(urlCache)[key := CachedUrl(url, filename, now + cacheTTL)], now)
    {
      urlCache := urlCache[key := CachedUrl(url, filename, now + cacheTTL)];
      ghost var full := urlCache;
      var pending := urlCache.Keys;
      while pending != {}
        invariant pending <= full.Keys
        invariant urlCache == map k | k in full && (k in pending || !Expired(full[k], now)) :: full[k]
        decreases pending
      {
        var id :| id in pending;
        if Expired(urlCache[id], now) {
          urlCache := urlCache - {id};
        }
        pending := pending - {id};
      }
    }
  }

  // ---------------------------------------------------------------------------
  // Stream's path gate.
  // ---------------------------------------------------------------------------

  datatype GateError = NotFound | InvalidPath

  /** The request path without one leading "/" and then one "webdav/". */
  function CleanPath(path: string): string
  {
    TrimPrefix(TrimPrefix(path, "/"), "webdav/")
  }

  /** The path gate of `StreamingProvider.Stream`: a path that does not start
      with "debrid/" once cleaned is not this provider's (`ErrNotFound`); one
      that does is parsed with its "/" put back. */
  function StreamGate(path: string): (r: Result<DebridPath, GateError>)
    ensures r == Err(NotFound) <==> !HasPrefix(CleanPath(path), "debrid/")
    ensures r.Ok? ==> ParseDebridPath("/" + CleanPath(path)) == Some(r.value)
    ensures r == Err(InvalidPath) ==> ParseDebridPath("/" + CleanPath(path)).None?
  {
    var clean := CleanPath(path);
    if !HasPrefix(clean, "debrid/") then Err(NotFound)
    else
      match ParseDebridPath("/" + clean)
      case None => Err(InvalidPath)
      case Some(p) => Ok(p)
  }

  // ---------------------------------------------------------------------------
  // The composite provider. Each member's answer to the one request is given
  // as a value; `None` is a nil member.
  // ---------------------------------------------------------------------------

  /** A member's answer to `Stream`: a response, `ErrNotFound`, or another error. */
  datatype StreamAnswer<R> = Streamed(resp: R) | StreamNotFound | StreamFailed(message: string)

  /** A member's answer to `GetDirectURL`, when it offers one: a URL and
      whether an error (`ErrNotFound` or any other) came with it. */
  datatype DirectAnswer = DirectAnswer(url: string, failed: bool)

  /** A member: its `Stream` answer and, when it is a `DirectURLProvider`, its
      `GetDirectURL` answer. */
  datatype Member<R> = Member(stream: StreamAnswer<R>, direct: Option<DirectAnswer>)

  /** `Stream` passes over this member: nil, or not found. */
  predicate PassesStream<R>(m: Option<Member<R>>)
  {
    m.None? || m.value.stream.StreamNotFound?
  }

  /** `CompositeProvider.Stream`: the first member that is neither nil nor
      not-found decides, with its response or its error; when there is none
      the result is `ErrNotFound`. */
  method CompositeStream<R>(providers: seq<Option<Member<R>>>) returns (r: StreamAnswer<R>)
    ensures r.StreamNotFound? <==> forall k :: 0 <= k < |providers| ==> PassesStream(providers[k])
    ensures !r.StreamNotFound? ==> exists i :: (
      && 0 <= i < |providers|
      && (forall k :: 0 <= k < i ==> PassesStream(providers[k]))
      && providers[i].Some? && providers[i].value.stream == r)
  {
    var i := 0;
    while i < |providers|
      invariant 0 <= i <= |providers|
      invariant forall k :: 0 <= k < i ==> PassesStream(providers[k])
    {
      if providers[i].None? {
        i := i + 1;
        continue;
      }
      var answer := providers[i].value.stream;
      if answer.Streamed? {
        return answer;
      }
      if answer.StreamNotFound? {
        i := i + 1;
        continue;
      }
      return answer;
    }
    return StreamNotFound;
  }

  /** This member gives a direct URL: it offers one, without error, non-empty. */
  predicate GivesUrl<R>(m: Option<Member<R>>)
  {
    m.Some? && m.value.direct.Some? && !m.value.direct.value.failed && m.value.direct.value.url != ""
  }

  /** `CompositeProvider.GetDirectURL`: the URL of the first member that gives
      one, passing over nil members, members without direct URLs and every
      error; `ErrNotFound` (here `None`) when no member gives one. */
  method CompositeGetDirectUrl<R>(providers: seq<Option<Member<R>>>) returns (r: Option<string>)
    ensures r.None? <==> forall k :: 0 <= k < |providers| ==> !GivesUrl(providers[k])
    ensures r.Some? ==> exists i :: (
      && 0 <= i < |providers|
      && (forall k :: 0 <= k < i ==> !GivesUrl(providers[k]))
      && GivesUrl(providers[i]) && r.value == providers[i].value.direct.value.url)
  {
    var i := 0;
    while i < |providers|
      invariant 0 <= i <= |providers|
      invariant forall k :: 0 <= k < i ==> !GivesUrl(providers[k])
    {
      var p := providers[i];
      if p.None? || p.value.direct.None? {
        i := i + 1;
        continue;
      }
      var d := p.value.direct.value;
      if !d.failed && d.url != "" {
        return Some(d.url);
      }
      i := i + 1;
    }
    return None;
  }
}
