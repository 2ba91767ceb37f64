/**
 * The MDBList ratings client (backend/services/metadata/mdblist_client.go):
 * its settings, its cache of ratings per title, the guards and cache rule
 * of `GetRatings`, and the shaping of one fetched rating. The HTTP answers
 * and the clock are inputs.
 */
module MdbList {
  import opened Wrappers
  import opened Strs

  const Second := 1000000000
  /** `cacheTTL`: one hour, in nanoseconds. */
  const CacheTTL := 3600 * Second

  /** `models.Rating`; values are exact reals. */
  datatype Rating = Rating(source: string, value: real, max: real)

  /** `mdblistCacheEntry`, with `fetchedAt` in nanoseconds. */
  datatype CacheEntry = CacheEntry(ratings: seq<Rating>, fetchedAt: int)

  /** The scale of a rating source in `ratingSourceInfo`; unknown sources are
      out of 10. */
  function SourceMax(ratingType: string): (m: real)
    ensures m in {5.0, 10.0, 100.0}
    ensures ratingType == "letterboxd" ==> m == 5.0
    ensures ratingType in {"tomatoes", "audience", "metacritic"} ==> m == 100.0
    ensures ratingType !in {"letterboxd", "tomatoes", "audience", "metacritic"} ==> m == 10.0
  {
    if ratingType == "imdb" then 10.0
    else if ratingType == "tmdb" then 10.0
    else if ratingType == "trakt" then 10.0
    else if ratingType == "letterboxd" then 5.0
    else if ratingType == "tomatoes" then 100.0
    else if ratingType == "audience" then 100.0
    else if ratingType == "metacritic" then 100.0
    else 10.0
  }

  /** `fetchRating`, given the ratings the decoded response holds, or `Err`
      when the request, the status or the decoding failed. */
  function FetchRating(ratingType: string, response: Result<seq<real>, ()>): (r: Result<Option<Rating>, ()>)
    ensures r.Err? <==> response.Err?
    ensures r == Ok(None) <==> response.Ok? && (response.value == [] || response.value[0] == 0.0)
    ensures r.Ok? && r.value.Some? ==>
      r.value.value == Rating(ratingType, response.value[0], SourceMax(ratingType)) && r.value.value.value != 0.0
  {
    match response
    case Err(e) => Err(e)
    case Ok(values) =>
      if |values| == 0 || values[0] == 0.0 then Ok(None)
      else Ok(Some(Rating(ratingType, values[0], SourceMax(ratingType))))
  }

  /** The IMDB ID with the "tt" prefix it may lack. */
  function NormalizeImdbID(imdbID: string): (r: string)
    ensures HasPrefix(r, "tt")
    ensures HasPrefix(imdbID, "tt") ==> r == imdbID
    ensures !HasPrefix(imdbID, "tt") ==> r == "tt" + imdbID
  {
    if HasPrefix(imdbID, "tt") then imdbID else "tt" + imdbID
  }

  /** Normalising is idempotent. */
  lemma NormalizeImdbIDIdempotent(imdbID: string)
    ensures NormalizeImdbID(NormalizeImdbID(imdbID)) == NormalizeImdbID(imdbID)
  {
  }

  /** The cache key `mediaType:imdbID`. */
  function CacheKey(mediaType: string, imdbID: string): (k: string)
    ensures |k| == |mediaType| + 1 + |imdbID|
  {
    mediaType + ":" + imdbID
  }

  /** Media types without a ':' never share a cache entry, unless they are
      the same type and the same ID. */
  lemma CacheKeyInjective(m1: string, i1: string, m2: string, i2: string)
    requires NoChar(m1, ':') && NoChar(m2, ':')
    requires CacheKey(m1, i1) == CacheKey(m2, i2)
    ensures m1 == m2 && i1 == i2
  {
    SplitCons(m1, i1, ':');
    SplitCons(m2, i2, ':');
    assert m1 == Split(CacheKey(m1, i1), ':')[0] == m2;
    assert i1 == CacheKey(m1, i1)[|m1| + 1..] == i2;
  }

  /** A cache entry is used while it is younger than the TTL. */
  predicate IsFresh(entry: CacheEntry, now: int)
  {
    now - entry.fetchedAt < CacheTTL
  }

  /** `mdblistClient`, with the enabled rating types as the set of names the
      map holds as true. */
  class Client {
    var apiKey: string
    var enabledRatings: set<string>
    var enabled: bool
    var cache: map<string, CacheEntry>

    /** `newMDBListClient`: no cached ratings. */
    constructor(apiKey: string, ratings: seq<string>, enabled: bool)
      ensures this.apiKey == apiKey && this.enabled == enabled
      ensures enabledRatings == (set r | r in ratings)
      ensures cache == map[]
    {
      var enabledMap := EnabledSet(ratings);
      this.apiKey := apiKey;
      this.enabledRatings := enabledMap;
      this.enabled := enabled;
      this.cache := map[];
    }

    /** `IsEnabled`. */
    predicate IsEnabled()
      reads this
    {
      enabled && apiKey != ""
    }

    /** `UpdateSettings`: the cache is cleared exactly when the API key or
        the enabled flag changes. */
    method UpdateSettings(apiKey: string, ratings: seq<string>, enabled: bool)
      modifies this
      ensures this.apiKey == apiKey && this.enabled == enabled
      ensures enabledRatings == (set r | r in ratings)
      ensures cache == if old(this.apiKey) != apiKey || old(this.enabled) != enabled then map[] else old(cache)
    {
      var enabledMap := EnabledSet(ratings);
      if this.apiKey != apiKey || this.enabled != enabled {
        this.cache := map[];
      }
      this.apiKey := apiKey;
      this.enabledRatings := enabledMap;
      this.enabled := enabled;
    }

    /** The ratings `GetRatings` returns for a title, `answer` giving the
        response for each rating type; `[]` stands for nil. */
    method GetRatings(imdbID: string, mediaType: string, now: int, answer: string -> Result<seq<real>, ()>)
      returns (ratings: seq<Rating>)
      modifies this
      ensures apiKey == old(apiKey) && enabled == old(enabled) && enabledRatings == old(enabledRatings)
      ensures !old(IsEnabled()) || imdbID == "" ==> ratings == [] && cache == old(cache)
      ensures (var key := CacheKey(mediaType, NormalizeImdbID(imdbID));
               old(IsEnabled()) && imdbID != "" && key in old(cache) && IsFresh(old(cache)[key], now) ==>
                 ratings == old(cache)[key].ratings && cache == old(cache))
      ensures (var key := CacheKey(mediaType, NormalizeImdbID(imdbID));
               old(IsEnabled()) && imdbID != "" && !(key in old(cache) && IsFresh(old(cache)[key], now)) ==>
                 (enabledRatings == {} ==> ratings == [] && cache == old(cache))
                 && (enabledRatings != {} ==>
                       cache == old(cache)[key := CacheEntry(ratings, now)]
                       && Found(enabledRatings, answer, ratings)))
    {
      if !enabled || apiKey == "" || imdbID == "" {
        return [];
      }
      var id := NormalizeImdbID(imdbID);
      var key := CacheKey(mediaType, id);
      if key in cache && now - cache[key].fetchedAt < CacheTTL {
        return cache[key].ratings;
      }
      var ratingTypes := enabledRatings;
      if ratingTypes == {} {
        return [];
      }
      var remaining := ratingTypes;
      ratings := [];
      while remaining != {}
        invariant remaining <= ratingTypes
        invariant forall x :: x in ratings <==>
          (x.source in ratingTypes - remaining && FetchRating(x.source, answer(x.source)) == Ok(Some(x)))
        invariant forall i, j :: 0 <= i < j < |ratings| ==> ratings[i].source != ratings[j].source
        decreases remaining
      {
        var rt :| rt in remaining;
        match FetchRating(rt, answer(rt)) {
          case Ok(Some(r)) =>
            ratings := ratings + [r];
          case _ =>
        }
        remaining := remaining - {rt};
      }
      cache := cache[key := CacheEntry(ratings, now)];
    }
  }

  /** The fetched ratings: one for each enabled rating type whose response
      holds a non-zero rating, in some order, none twice. */
  ghost predicate Found(ratingTypes: set<string>, answer: string -> Result<seq<real>, ()>,
                        ratings: seq<Rating>)
  {
    (forall x :: x in ratings <==>
      (x.source in ratingTypes && FetchRating(x.source, answer(x.source)) == Ok(Some(x))))
    && (forall i, j :: 0 <= i < j < |ratings| ==> ratings[i].source != ratings[j].source)
  }

  /** The set of names of a list. */
  method EnabledSet(names: seq<string>) returns (s: set<string>)
    ensures s == (set r | r in names)
  {
    s := {};
    var i := 0;
    while i < |names|
      invariant 0 <= i <= |names|
      invariant s == (set r | r in names[..i])
    {
      assert names[..i + 1] == names[..i] + [names[i]];
      s := s + {names[i]};
      i := i + 1;
    }
    assert names[..i] == names;
  }

  /** A type that is enabled and answered with a non-zero rating is among the
      results, on its own scale. */
  lemma FoundIncludes(ratingTypes: set<string>, answer: string -> Result<seq<real>, ()>,
                      ratings: seq<Rating>, rt: string)
    requires Found(ratingTypes, answer, ratings)
    requires rt in ratingTypes && answer(rt).Ok? && answer(rt).value != [] && answer(rt).value[0] != 0.0
    ensures Rating(rt, answer(rt).value[0], SourceMax(rt)) in ratings
  {
  }
}
