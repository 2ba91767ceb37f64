/**
 * Filtering search results against the expected title, year, media type,
 * resolution and HDR options (backend/utils/filter/filter.go). Title
 * similarity, the floating-point size limits and the transliteration library
 * are inputs; the batch title parser is the one of the Parsett module.
 */
module Filter {
  import opened Wrappers
  import opened Strs
  import opened Models
  import opened Parsett

  /** `MaxYearDifference`. */
  const MaxYearDifference := 1

  /** `Options`, without the floating-point size limits (see `Judges`). */
  datatype Options = Options(
    expectedTitle: string,
    expectedYear: int,
    isMovie: bool,
    maxResolution: string,
    excludeHdr: bool,
    prioritizeHdr: bool,
    alternateTitles: seq<string>,
    filterOutTerms: seq<string>)

  /** The two floating-point decisions, whether the best similarity of a
      parsed title to the candidate titles reaches `MinTitleSimilarity` and
      whether a positive size in bytes exceeds the configured gigabyte limit
      for a movie (`true`) or an episode (`false`), and the library parts of
      the romanisation of Japanese titles. */
  datatype Judges = Judges(
    similarEnough: (seq<string>, string) -> bool,
    exceedsSizeLimit: (int, bool) -> bool,
    romanizer: Romanizer)

  /** The two library parts of `romanizeJapanese`: membership of Go's
      Hiragana, Katakana and Han tables, and `unidecode.Unidecode`. */
  datatype Romanizer = Romanizer(inScripts: char -> bool, unidecode: string -> string)

  /** `abs`. */
  function Abs(x: int): (r: int)
    ensures r >= 0
    ensures r == x || r == -x
  {
    if x < 0 then -x else x
  }

  /** `resolutionToNumeric`. */
  function ResolutionToNumeric(res: string): (n: int)
  {
    var r := Lower(res);
    if r == "480p" then 480
    else if r == "720p" then 720
    else if r == "1080p" then 1080
    else if r == "2160p" || r == "4k" then 2160
    else 0
  }

  /** Only the four known resolutions, in any case, map to a positive value,
      and the values grow with the resolution. */
  lemma ResolutionToNumericMeaning(res: string)
    ensures ResolutionToNumeric(res) in {0, 480, 720, 1080, 2160}
    ensures ResolutionToNumeric(res) > 0 <==> Lower(res) in {"480p", "720p", "1080p", "2160p", "4k"}
    ensures ResolutionToNumeric(res) == 2160 <==> Lower(res) in {"2160p", "4k"}
  {
  }

  /** A format names Dolby Vision. */
  predicate IsDolbyVision(format: string)
  {
    var lower := Lower(format);
    lower == "dv" || lower == "dolby vision" || Contains(lower, "dolby")
  }

  /** `hasDolbyVision`. */
  function HasDolbyVision(formats: seq<string>): bool
  {
    if formats == [] then false
    else IsDolbyVision(formats[0]) || HasDolbyVision(formats[1..])
  }

  /** Some format names Dolby Vision. */
  lemma {:induction false} HasDolbyVisionMeaning(formats: seq<string>)
    ensures HasDolbyVision(formats) <==> exists i :: 0 <= i < |formats| && IsDolbyVision(formats[i])
  {
    if formats != [] {
      HasDolbyVisionMeaning(formats[1..]);
      assert forall i :: 1 <= i < |formats| ==> formats[i] == formats[1..][i - 1];
      if HasDolbyVision(formats[1..]) {
        var i :| 0 <= i < |formats[1..]| && IsDolbyVision(formats[1..][i]);
        assert IsDolbyVision(formats[i + 1]);
      }
    }
  }

  /** `ShouldFilter`. */
  function ShouldFilter(title: string): bool
  {
    !IsBlank(title)
  }

  // ---------------------------------------------------------------------
  // Candidate titles
  // ---------------------------------------------------------------------

  /** The lowercased titles, the `seen` set of `normalizeCandidateTitles`. */
  function Keys(titles: seq<string>): set<string>
  {
    set i | 0 <= i < |titles| :: Lower(titles[i])
  }

  /** The `add` closure: keep the trimmed value unless it is blank or a
      case-insensitive duplicate. */
  function Add(titles: seq<string>, value: string): seq<string>
  {
    var trimmed := Trim(value);
    if trimmed == "" || Lower(trimmed) in Keys(titles) then titles else titles + [trimmed]
  }

  /** `add` applied to each value in turn. */
  function AddAll(values: seq<string>): seq<string>
  {
    if values == [] then [] else Add(AddAll(values[..|values| - 1]), values[|values| - 1])
  }

  /** A character `containsJapaneseRune` accepts: one of the script tables,
      or half-width Katakana (U+FF66 to U+FF9D). */
  predicate JapaneseRune(c: char, rz: Romanizer)
  {
    rz.inScripts(c) || ('\U{FF66}' <= c <= '\U{FF9D}')
  }

  predicate HasJapaneseRune(value: string, rz: Romanizer)
  {
    exists k :: 0 <= k < |value| && JapaneseRune(value[k], rz)
  }

  /** `containsJapaneseRune`. */
  method ContainsJapaneseRune(value: string, rz: Romanizer) returns (found: bool)
    ensures found == HasJapaneseRune(value, rz)
  {
    var k := 0;
    while k < |value|
      invariant 0 <= k <= |value|
      invariant forall j :: 0 <= j < k ==> !JapaneseRune(value[j], rz)
    {
      if JapaneseRune(value[k], rz) {
        return true;
      }
      k := k + 1;
    }
    return false;
  }

  /** `romanizeJapanese`: "" unless the value has a Japanese character; then
      the transliteration, trimmed, with its white-space runs collapsed to
      single spaces. */
  function RomanizeJapanese(value: string, rz: Romanizer): string
  {
    if !HasJapaneseRune(value, rz) then ""
    else
      var romanized := Trim(rz.unidecode(value));
      if romanized == "" then ""
      else
        var joined := Join(Fields(romanized), " ");
        if joined == "" then "" else joined
  }

  /** A romanisation exists exactly when the value has a Japanese character
      and its transliteration is not blank; it is then trimmed and is the
      transliteration's words joined by single spaces. */
  lemma RomanizeJapaneseMeaning(value: string, rz: Romanizer)
    ensures var r := RomanizeJapanese(value, rz);
      && (r != "" <==> HasJapaneseRune(value, rz) && !IsBlank(rz.unidecode(value)))
      && (r != "" ==> r == Join(Fields(Trim(rz.unidecode(value))), " ") && Trim(r) == r)
  {
    var t := Trim(rz.unidecode(value));
    if t != "" {
      assert LeadingSpaces(t) == 0;
      var ws := Fields(t);
      JoinEnds(ws, " ");
      var j := Join(ws, " ");
      assert !IsSpace(j[0]) && !IsSpace(j[|j| - 1]);
      TrimOfTrimmed(j);
    }
  }

  /** The values `addWithRomanization` hands to `add`, in order: each value,
      then its romanisation when there is one. */
  function Expanded(values: seq<string>, rz: Romanizer): seq<string>
  {
    if values == [] then []
    else
      var v := values[|values| - 1];
      var r := RomanizeJapanese(v, rz);
      Expanded(values[..|values| - 1], rz) + [v] + (if r != "" then [r] else [])
  }

  /** The `addWithRomanization` closure. */
  function AddRomanized(titles: seq<string>, value: string, rz: Romanizer): seq<string>
  {
    var r := RomanizeJapanese(value, rz);
    var t := Add(titles, value);
    if r != "" then Add(t, r) else t
  }

  /** `normalizeCandidateTitles`. */
  function CandidateTitles(primary: string, alternates: seq<string>, rz: Romanizer): seq<string>
  {
    AddAll(Expanded([primary] + alternates, rz))
  }

  /** Adding a value with its romanisation is adding both in turn. */
  lemma AddAllExpandedSnoc(values: seq<string>, v: string, rz: Romanizer)
    ensures AddAll(Expanded(values + [v], rz)) == AddRomanized(AddAll(Expanded(values, rz)), v, rz)
  {
    var vs := values + [v];
    assert vs[..|vs| - 1] == values;
    var e := Expanded(values, rz) + [v];
    assert e[..|e| - 1] == Expanded(values, rz);
    var r := RomanizeJapanese(v, rz);
    assert Expanded(vs, rz) == e + (if r != "" then [r] else []);
    assert AddAll(e) == Add(AddAll(Expanded(values, rz)), v);
    if r != "" {
      assert (e + [r])[..|e|] == e;
      assert AddAll(e + [r]) == Add(AddAll(e), r);
    } else {
      assert e + [] == e;
    }
  }

  /** Expanding a prefix gives a prefix of the expansion. */
  lemma {:induction false} ExpandedPrefix(values: seq<string>, n: nat, rz: Romanizer)
    requires n <= |values|
    ensures Expanded(values[..n], rz) <= Expanded(values, rz)
    decreases |values| - n
  {
    if n < |values| {
      var init := values[..|values| - 1];
      assert init[..n] == values[..n];
      ExpandedPrefix(init, n, rz);
    } else {
      assert values[..n] == values;
    }
  }

  /** Every value, and its romanisation when there is one, is handed to `add`. */
  lemma {:induction false} ExpandedHolds(values: seq<string>, rz: Romanizer)
    ensures forall i :: 0 <= i < |values| ==> values[i] in Expanded(values, rz)
    ensures forall i :: 0 <= i < |values| && RomanizeJapanese(values[i], rz) != "" ==>
      RomanizeJapanese(values[i], rz) in Expanded(values, rz)
  {
    if values != [] {
      var init := values[..|values| - 1];
      ExpandedHolds(init, rz);
      assert forall i :: 0 <= i < |init| ==> init[i] == values[i];
    }
  }

  /** `add`, with `seen` kept as the set of lowercased titles. */
  method AddTitle(titles: seq<string>, seen: set<string>, value: string) returns (titles': seq<string>, seen': set<string>)
    requires seen == Keys(titles)
    ensures titles' == Add(titles, value)
    ensures seen' == Keys(titles')
  {
    titles', seen' := titles, seen;
    var trimmed := Trim(value);
    if trimmed == "" {
      return;
    }
    var lowered := Lower(trimmed);
    if lowered in seen {
      return;
    }
    seen' := seen + {lowered};
    titles' := titles + [trimmed];
    KeysSnoc(titles, trimmed);
  }

  lemma KeysSnoc(titles: seq<string>, t: string)
    ensures Keys(titles + [t]) == Keys(titles) + {Lower(t)}
  {
    var s := titles + [t];
    assert Lower(s[|titles|]) in Keys(s);
    forall x | x in Keys(s)
      ensures x in Keys(titles) + {Lower(t)}
    {
      var i :| 0 <= i < |s| && Lower(s[i]) == x;
      if i < |titles| {
        assert s[i] == titles[i];
      }
    }
    forall x | x in Keys(titles)
      ensures x in Keys(s)
    {
      var i :| 0 <= i < |titles| && Lower(titles[i]) == x;
      assert s[i] == titles[i];
    }
  }

  /** `addWithRomanization`, with `seen` kept as the set of lowercased titles. */
  method AddWithRomanization(titles: seq<string>, seen: set<string>, value: string, rz: Romanizer)
    returns (titles': seq<string>, seen': set<string>)
    requires seen == Keys(titles)
    ensures titles' == AddRomanized(titles, value, rz)
    ensures seen' == Keys(titles')
  {
    titles', seen' := AddTitle(titles, seen, value);
    var romanized := RomanizeJapanese(value, rz);
    if romanized != "" {
      titles', seen' := AddTitle(titles', seen', romanized);
    }
  }

  /** `normalizeCandidateTitles`. */
  method NormalizeCandidateTitles(primary: string, alternates: seq<string>, rz: Romanizer) returns (titles: seq<string>)
    ensures titles == CandidateTitles(primary, alternates, rz)
  {
    var values := [primary] + alternates;
    var seen: set<string> := {};
    titles := [];
    titles, seen := AddWithRomanization(titles, seen, primary, rz);
    AddAllExpandedSnoc([], primary, rz);
    assert [] + [primary] == values[..1];
    var i := 0;
    while i < |alternates|
      invariant 0 <= i <= |alternates|
      invariant seen == Keys(titles)
      invariant titles == AddAll(Expanded(values[..i + 1], rz))
    {
      assert values[..i + 2] == values[..i + 1] + [alternates[i]];
      AddAllExpandedSnoc(values[..i + 1], alternates[i], rz);
      titles, seen := AddWithRomanization(titles, seen, alternates[i], rz);
      i := i + 1;
    }
    assert values[..i + 1] == values;
  }

  /** Every candidate title is trimmed and not blank. */
  lemma {:induction false} AddAllClean(values: seq<string>)
    ensures forall k :: 0 <= k < |AddAll(values)| ==> AddAll(values)[k] != "" && Trim(AddAll(values)[k]) == AddAll(values)[k]
  {
    if values != [] {
      AddAllClean(values[..|values| - 1]);
      TrimIdempotent(values[|values| - 1]);
    }
  }

  /** No two candidate titles are equal ignoring case. */
  lemma {:induction false} AddAllDistinct(values: seq<string>)
    ensures forall i, j :: 0 <= i < j < |AddAll(values)| ==> Lower(AddAll(values)[i]) != Lower(AddAll(values)[j])
  {
    if values != [] {
      var prev := AddAll(values[..|values| - 1]);
      AddAllDistinct(values[..|values| - 1]);
      var out := AddAll(values);
      if out != prev {
        forall i | 0 <= i < |prev|
          ensures Lower(out[i]) != Lower(out[|prev|])
        {
          assert Lower(prev[i]) in Keys(prev);
        }
      }
    }
  }

  /** Adding values only ever appends. */
  lemma {:induction false} AddAllPrefix(values: seq<string>, n: nat)
    requires n <= |values|
    ensures AddAll(values[..n]) <= AddAll(values)
    decreases |values| - n
  {
    if n < |values| {
      var init := values[..|values| - 1];
      assert init[..n] == values[..n];
      AddAllPrefix(init, n);
    } else {
      assert values[..n] == values;
    }
  }

  /** A non-blank primary title comes first, trimmed. */
  lemma PrimaryFirst(primary: string, alternates: seq<string>, rz: Romanizer)
    requires !IsBlank(primary)
    ensures CandidateTitles(primary, alternates, rz) != []
    ensures CandidateTitles(primary, alternates, rz)[0] == Trim(primary)
  {
    var values := [primary] + alternates;
    assert values[..1] == [primary];
    ExpandedPrefix(values, 1, rz);
    assert [primary][..0] == [];
    var e := Expanded(values, rz);
    assert e[..1] == [primary];
    assert AddAll([primary]) == Add([], primary);
    AddAllPrefix(e, 1);
  }

  /** The first non-blank value whose lowercased trim equals `key`. */
  predicate FirstWithKey(values: seq<string>, i: int, key: string)
  {
    0 <= i < |values| && Lower(Trim(values[i])) == key
    && forall j :: 0 <= j < i ==> Lower(Trim(values[j])) != key
  }

  /** Every non-blank value is represented among the candidate titles. */
  lemma {:induction false} AddAllCovers(values: seq<string>)
    ensures forall i :: 0 <= i < |values| && !IsBlank(values[i]) ==> Lower(Trim(values[i])) in Keys(AddAll(values))
  {
    if values != [] {
      var init := values[..|values| - 1];
      var v := values[|values| - 1];
      var prev := AddAll(init);
      AddAllCovers(init);
      assert forall i :: 0 <= i < |init| ==> values[i] == init[i];
      if AddAll(values) != prev {
        KeysSnoc(prev, Trim(v));
      }
    }
  }

  /** Every non-blank expected or alternate title, and the romanisation of
      each one that has a Japanese character and a non-blank
      transliteration, is among the candidate titles ignoring case. */
  lemma CandidateTitlesCover(primary: string, alternates: seq<string>, rz: Romanizer)
    ensures var values := [primary] + alternates;
      var keys := Keys(CandidateTitles(primary, alternates, rz));
      && (forall i :: 0 <= i < |values| && !IsBlank(values[i]) ==> Lower(Trim(values[i])) in keys)
      && (forall i :: 0 <= i < |values| && RomanizeJapanese(values[i], rz) != "" ==>
            Lower(RomanizeJapanese(values[i], rz)) in keys)
  {
    var values := [primary] + alternates;
    var e := Expanded(values, rz);
    ExpandedHolds(values, rz);
    AddAllCovers(e);
    forall i | 0 <= i < |values| && RomanizeJapanese(values[i], rz) != ""
      ensures Lower(RomanizeJapanese(values[i], rz)) in Keys(AddAll(e))
    {
      var r := RomanizeJapanese(values[i], rz);
      RomanizeJapaneseMeaning(values[i], rz);
      var j :| 0 <= j < |e| && e[j] == r;
      assert Trim(e[j]) == r && !IsBlank(e[j]);
    }
    forall i | 0 <= i < |values| && !IsBlank(values[i])
      ensures Lower(Trim(values[i])) in Keys(AddAll(e))
    {
      var j :| 0 <= j < |e| && e[j] == values[i];
    }
  }

  /** Each candidate title is the trimmed spelling of the first value with
      its lowercased form. */
  lemma {:induction false} AddAllSources(values: seq<string>)
    ensures forall k :: 0 <= k < |AddAll(values)| ==>
      exists i :: FirstWithKey(values, i, Lower(AddAll(values)[k])) && Trim(values[i]) == AddAll(values)[k]
  {
    if values != [] {
      var n := |values| - 1;
      var init := values[..n];
      var prev := AddAll(init);
      var out := AddAll(values);
      AddAllSources(init);
      forall k | 0 <= k < |out|
        ensures exists i :: FirstWithKey(values, i, Lower(out[k])) && Trim(values[i]) == out[k]
      {
        if k < |prev| {
          var i :| FirstWithKey(init, i, Lower(prev[k])) && Trim(init[i]) == prev[k];
          FirstWithKeyExtends(values, n, i, Lower(prev[k]));
          assert values[i] == init[i];
          assert out[k] == prev[k];
          assert FirstWithKey(values, i, Lower(out[k])) && Trim(values[i]) == out[k];
        } else {
          NewTitleIsFirst(values);
          assert FirstWithKey(values, n, Lower(out[k])) && Trim(values[n]) == out[k];
        }
      }
      assert forall k :: 0 <= k < |out| ==> exists i :: FirstWithKey(values, i, Lower(out[k])) && Trim(values[i]) == out[k];
    } else {
      assert AddAll(values) == [];
    }
  }

  /** A first occurrence in a prefix is a first occurrence in the whole. */
  lemma FirstWithKeyExtends(values: seq<string>, n: nat, i: int, key: string)
    requires n <= |values| && FirstWithKey(values[..n], i, key)
    ensures FirstWithKey(values, i, key)
  {
    assert forall j :: 0 <= j <= i ==> values[..n][j] == values[j];
  }

  /** A value that adds a title is the first with its lowercased form. */
  lemma NewTitleIsFirst(values: seq<string>)
    requires values != [] && AddAll(values) != AddAll(values[..|values| - 1])
    ensures AddAll(values) == AddAll(values[..|values| - 1]) + [Trim(values[|values| - 1])]
    ensures FirstWithKey(values, |values| - 1, Lower(Trim(values[|values| - 1])))
  {
    var n := |values| - 1;
    var init := values[..n];
    var key := Lower(Trim(values[n]));
    assert key !in Keys(AddAll(init)) && key != [];
    AddAllCovers(init);
    forall j | 0 <= j < n
      ensures Lower(Trim(values[j])) != key
    {
      assert values[j] == init[j];
      if IsBlank(values[j]) {
        assert Lower(Trim(values[j])) == [];
      }
    }
  }

  /** So a value that is the first of its lowercased form gives the
      candidate title its spelling: the first spelling wins. */
  lemma FirstSpellingWins(values: seq<string>, i: nat, k: nat)
    requires i < |values| && k < |AddAll(values)|
    requires FirstWithKey(values, i, Lower(AddAll(values)[k]))
    ensures AddAll(values)[k] == Trim(values[i])
  {
    AddAllSources(values);
    var i' :| FirstWithKey(values, i', Lower(AddAll(values)[k])) && Trim(values[i']) == AddAll(values)[k];
    assert i' == i;
  }

  // ---------------------------------------------------------------------
  // Filtering
  // ---------------------------------------------------------------------

  /** A trimmed, lowercased, non-blank filter term occurs in the lowercased title. */
  predicate TermHit(titleLower: string, term: string)
  {
    var termLower := Lower(Trim(term));
    termLower != "" && Contains(titleLower, termLower)
  }

  predicate TermRejects(title: string, terms: seq<string>)
  {
    exists i :: 0 <= i < |terms| && TermHit(Lower(title), terms[i])
  }

  /** The filter-term loop of `Results`, stopping at the first hit. */
  method RejectedByTerms(title: string, terms: seq<string>) returns (shouldFilter: bool)
    ensures shouldFilter == TermRejects(title, terms)
  {
    shouldFilter := false;
    if |terms| > 0 {
      var titleLower := Lower(title);
      var i := 0;
      while i < |terms|
        invariant 0 <= i <= |terms|
        invariant forall k :: 0 <= k < i ==> !TermHit(titleLower, terms[k])
      {
        var termLower := Lower(Trim(terms[i]));
        if termLower != "" && Contains(titleLower, termLower) {
          assert TermHit(titleLower, terms[i]);
          shouldFilter := true;
          break;
        }
        i := i + 1;
      }
    }
  }

  /** Go's `parsedMap[title]`: nil for a missing title. */
  function ParsedFor(parsedMap: map<string, Option<ParsedTitle>>, title: string): Option<ParsedTitle>
  {
    if title in parsedMap then parsedMap[title] else None
  }

  /** The parsed title has a season or an episode. */
  predicate HasTVPattern(p: ParsedTitle)
  {
    |p.seasons| > 0 || |p.episodes| > 0
  }

  /** A kept result with its HDR formats and parsed resolution recorded in
      its attributes. */
  function Annotate(result: NZBResult, p: ParsedTitle): NZBResult
  {
    var withHdr :=
      if |p.hdr| > 0 then
        var a := result.attributes["hdr" := Join(p.hdr, ",")];
        if HasDolbyVision(p.hdr) then a["hasDV" := "true"] else a
      else result.attributes;
    var attributes := if p.resolution != "" then withHdr["resolution" := p.resolution] else withHdr;
    result.(attributes := attributes)
  }

  /** The checks of `Results` after a parse was found, in their order;
      `None` drops the result. */
  function Check(result: NZBResult, opts: Options, candidates: seq<string>, p: ParsedTitle, judges: Judges): Option<NZBResult>
  {
    if !judges.similarEnough(candidates, p.title) then None
    else if opts.isMovie && HasTVPattern(p) then None
    else if !opts.isMovie && !HasTVPattern(p) then None
    else if opts.isMovie && opts.expectedYear > 0 && p.year > 0 && Abs(opts.expectedYear - p.year) > MaxYearDifference then None
    else if result.sizeBytes > 0 && judges.exceedsSizeLimit(result.sizeBytes, opts.isMovie) then None
    else if opts.maxResolution != "" && p.resolution != ""
         && ResolutionToNumeric(opts.maxResolution) > 0 && ResolutionToNumeric(p.resolution) > 0
         && ResolutionToNumeric(p.resolution) > ResolutionToNumeric(opts.maxResolution) then None
    else if opts.excludeHdr && |p.hdr| > 0 then None
    else Some(Annotate(result, p))
  }

  /** What becomes of one result. */
  function Verdict(result: NZBResult, opts: Options, candidates: seq<string>,
                   parsedMap: map<string, Option<ParsedTitle>>, judges: Judges): Option<NZBResult>
  {
    if TermRejects(result.title, opts.filterOutTerms) then None
    else match ParsedFor(parsedMap, result.title)
    case None => Some(result)
    case Some(p) => Check(result, opts, candidates, p, judges)
  }

  /** The results that `verdict` keeps, in order, as it leaves them. */
  function Kept(results: seq<NZBResult>, verdict: NZBResult -> Option<NZBResult>): seq<NZBResult>
  {
    if results == [] then []
    else
      var prev := Kept(results[..|results| - 1], verdict);
      match verdict(results[|results| - 1])
      case None => prev
      case Some(r) => prev + [r]
  }

  /** The titles handed to the batch parser. */
  function TitlesOf(results: seq<NZBResult>): (titles: seq<string>)
    ensures |titles| == |results|
    ensures forall i :: 0 <= i < |results| ==> titles[i] == results[i].title
  {
    seq(|results|, i requires 0 <= i < |results| => results[i].title)
  }

  /** What `Results` returns, for the batch parser `run`. */
  function FilterResults(results: seq<NZBResult>, opts: Options, run: seq<string> -> Result<seq<BatchResult>, ()>,
                         judges: Judges): seq<NZBResult>
  {
    if results == [] || IsBlank(opts.expectedTitle) then results
    else match ParseTitleBatch(TitlesOf(results), run)
    case Err(_) => results
    case Ok(parsedMap) =>
      var candidates := CandidateTitles(opts.expectedTitle, opts.alternateTitles, judges.romanizer);
      Kept(results, r => Verdict(r, opts, candidates, parsedMap, judges))
  }

  /** `Results`. */
  method Results(results: seq<NZBResult>, opts: Options, run: seq<string> -> Result<seq<BatchResult>, ()>,
                 judges: Judges) returns (out: seq<NZBResult>)
    ensures out == FilterResults(results, opts, run, judges)
  {
    if |results| == 0 {
      return results;
    }
    if Trim(opts.expectedTitle) == "" {
      return results;
    }
    var candidateTitles := NormalizeCandidateTitles(opts.expectedTitle, opts.alternateTitles, judges.romanizer);
    var titles := CollectTitles(results);
    var parsed := ParseTitleBatch(titles, run);
    if parsed.Err? {
      return results;
    }
    out := FilterAll(results, opts, candidateTitles, parsed.value, judges);
  }

  /** The title loop of `Results`. */
  method CollectTitles(results: seq<NZBResult>) returns (titles: seq<string>)
    ensures titles == TitlesOf(results)
  {
    titles := [];
    var i := 0;
    while i < |results|
      invariant 0 <= i <= |results|
      invariant titles == TitlesOf(results[..i])
    {
      titles := titles + [results[i].title];
      i := i + 1;
    }
    assert results[..i] == results;
  }

  /** The filtering loop of `Results`. */
  method FilterAll(results: seq<NZBResult>, opts: Options, candidateTitles: seq<string>,
                   parsedMap: map<string, Option<ParsedTitle>>, judges: Judges) returns (out: seq<NZBResult>)
    ensures out == Kept(results, r => Verdict(r, opts, candidateTitles, parsedMap, judges))
  {
    ghost var verdict := r => Verdict(r, opts, candidateTitles, parsedMap, judges);
    out := [];
    var i := 0;
    while i < |results|
      invariant 0 <= i <= |results|
      invariant out == Kept(results[..i], verdict)
    {
      assert results[..i + 1][..i] == results[..i];
      var kept := FilterOne(results[i], opts, candidateTitles, parsedMap, judges);
      if kept.Some? {
        out := out + [kept.value];
      }
      i := i + 1;
    }
    assert results[..i] == results;
  }

  /** The body of the filtering loop of `Results` for one result. */
  method FilterOne(result: NZBResult, opts: Options, candidateTitles: seq<string>,
                   parsedMap: map<string, Option<ParsedTitle>>, judges: Judges) returns (kept: Option<NZBResult>)
    ensures kept == Verdict(result, opts, candidateTitles, parsedMap, judges)
  {
    var shouldFilter := RejectedByTerms(result.title, opts.filterOutTerms);
    if shouldFilter {
      return None;
    }
    var entry := ParsedFor(parsedMap, result.title);
    if entry.None? {
      return Some(result);
    }
    kept := Check(result, opts, candidateTitles, entry.value, judges);
  }

  /** Nothing is filtered without results, without an expected title, or
      when the batch parse fails. */
  lemma FilterResultsUnchanged(results: seq<NZBResult>, opts: Options, run: seq<string> -> Result<seq<BatchResult>, ()>, judges: Judges)
    requires results == [] || !ShouldFilter(opts.expectedTitle) || run(TitlesOf(results)).Err?
    ensures FilterResults(results, opts, run, judges) == results
  {
  }

  /** A kept result is its input with only its attributes changed. */
  predicate SameResult(a: NZBResult, b: NZBResult)
  {
    a.title == b.title && a.link == b.link && a.downloadURL == b.downloadURL
    && a.serviceType == b.serviceType && a.sizeBytes == b.sizeBytes
  }

  /** The positions of the results that `verdict` keeps. */
  function KeptIndices(results: seq<NZBResult>, verdict: NZBResult -> Option<NZBResult>): (idx: seq<nat>)
    ensures forall k :: 0 <= k < |idx| ==> idx[k] < |results|
  {
    if results == [] then []
    else
      var prev := KeptIndices(results[..|results| - 1], verdict);
      if verdict(results[|results| - 1]).Some? then prev + [|results| - 1] else prev
  }

  /** The output is indexed by the kept positions: each output element is
      what the verdict made of the input at its position. */
  lemma {:induction false} KeptAtIndices(results: seq<NZBResult>, verdict: NZBResult -> Option<NZBResult>)
    ensures |KeptIndices(results, verdict)| == |Kept(results, verdict)|
    ensures forall k :: 0 <= k < |KeptIndices(results, verdict)| ==>
      verdict(results[KeptIndices(results, verdict)[k]]) == Some(Kept(results, verdict)[k])
  {
    if results != [] {
      var init := results[..|results| - 1];
      KeptAtIndices(init, verdict);
      assert forall i :: 0 <= i < |init| ==> init[i] == results[i];
    }
  }

  /** The kept positions strictly increase: the output keeps the input's order. */
  lemma {:induction false} KeptIndicesIncrease(results: seq<NZBResult>, verdict: NZBResult -> Option<NZBResult>)
    ensures forall k, l :: 0 <= k < l < |KeptIndices(results, verdict)| ==>
      KeptIndices(results, verdict)[k] < KeptIndices(results, verdict)[l]
  {
    if results != [] {
      KeptIndicesIncrease(results[..|results| - 1], verdict);
    }
  }

  /** The kept positions are exactly those whose verdict keeps the result. */
  lemma {:induction false} KeptIndicesExact(results: seq<NZBResult>, verdict: NZBResult -> Option<NZBResult>)
    ensures forall i :: 0 <= i < |results| ==> (verdict(results[i]).Some? <==> i in KeptIndices(results, verdict))
  {
    if results != [] {
      var n := |results| - 1;
      var init := results[..n];
      KeptIndicesExact(init, verdict);
      forall i | 0 <= i < |results|
        ensures verdict(results[i]).Some? <==> i in KeptIndices(results, verdict)
      {
        if i < n {
          assert init[i] == results[i];
        }
      }
    }
  }

  /** Every verdict keeps the result's identity, and changes its attributes
      only by recording the parsed HDR formats and resolution. */
  lemma VerdictKeepsResult(result: NZBResult, opts: Options, candidates: seq<string>,
                           parsedMap: map<string, Option<ParsedTitle>>, judges: Judges)
    ensures var v := Verdict(result, opts, candidates, parsedMap, judges);
      v.Some? ==> SameResult(v.value, result)
    ensures var v := Verdict(result, opts, candidates, parsedMap, judges);
      v.Some? && ParsedFor(parsedMap, result.title).None? ==> v.value == result
    ensures var v := Verdict(result, opts, candidates, parsedMap, judges);
      var p := ParsedFor(parsedMap, result.title);
      v.Some? && p.Some? ==>
        && (|p.value.hdr| > 0 ==> ("hdr" in v.value.attributes && v.value.attributes["hdr"] == Join(p.value.hdr, ",")))
        && (|p.value.hdr| > 0 && HasDolbyVision(p.value.hdr) ==> ("hasDV" in v.value.attributes && v.value.attributes["hasDV"] == "true"))
        && (p.value.resolution != "" ==> ("resolution" in v.value.attributes && v.value.attributes["resolution"] == p.value.resolution))
        && v.value.attributes.Keys <= result.attributes.Keys + {"hdr", "hasDV", "resolution"}
        && (forall k :: k in result.attributes && k !in {"hdr", "hasDV", "resolution"} ==> (k in v.value.attributes && v.value.attributes[k] == result.attributes[k]))
  {
  }

  /** The rules by which a result is dropped: a filter term in its title;
      for a parsed title, a movie search that finds seasons or episodes, a
      TV search that finds neither, a movie more than a year off a known
      year, a known resolution above a known limit, and HDR when HDR is
      excluded. A result with no parse is kept unless a term drops it. */
  lemma VerdictDrops(result: NZBResult, opts: Options, candidates: seq<string>,
                     parsedMap: map<string, Option<ParsedTitle>>, judges: Judges)
    ensures var v := Verdict(result, opts, candidates, parsedMap, judges);
      var p := ParsedFor(parsedMap, result.title);
      && (TermRejects(result.title, opts.filterOutTerms) ==> v.None?)
      && (!TermRejects(result.title, opts.filterOutTerms) && p.None? ==> v == Some(result))
      && (p.Some? && opts.isMovie && HasTVPattern(p.value) ==> v.None?)
      && (p.Some? && !opts.isMovie && !HasTVPattern(p.value) ==> v.None?)
      && ((p.Some? && opts.isMovie && opts.expectedYear > 0 && p.value.year > 0
           && Abs(opts.expectedYear - p.value.year) > MaxYearDifference) ==> v.None?)
      && (p.Some? && ResolutionToNumeric(opts.maxResolution) > 0 && ResolutionToNumeric(p.value.resolution) > ResolutionToNumeric(opts.maxResolution) ==> v.None?)
      && (p.Some? && opts.excludeHdr && |p.value.hdr| > 0 ==> v.None?)
  {
    var r := Lower(opts.maxResolution);
    if opts.maxResolution == "" {
      assert Lower(opts.maxResolution) == "";
    }
    var p := ParsedFor(parsedMap, result.title);
    if p.Some? && p.value.resolution == "" {
      assert Lower(p.value.resolution) == "";
    }
  }

  /** The year and resolution are never held against a result when they
      cannot be compared: a movie with no parsed year, or within a year of
      the expected one, fares as if no year were expected, and a result
      whose parsed resolution or limit is unknown fares as if there were no
      limit. */
  lemma VerdictLenient(result: NZBResult, opts: Options, candidates: seq<string>,
                       parsedMap: map<string, Option<ParsedTitle>>, judges: Judges)
    ensures var p := ParsedFor(parsedMap, result.title);
      (p.Some? && (p.value.year <= 0 || Abs(opts.expectedYear - p.value.year) <= MaxYearDifference)) ==>
        Verdict(result, opts, candidates, parsedMap, judges) == Verdict(result, opts.(expectedYear := 0), candidates, parsedMap, judges)
    ensures var p := ParsedFor(parsedMap, result.title);
      (p.Some? && (ResolutionToNumeric(opts.maxResolution) == 0 || ResolutionToNumeric(p.value.resolution) == 0)) ==>
        Verdict(result, opts, candidates, parsedMap, judges) == Verdict(result, opts.(maxResolution := ""), candidates, parsedMap, judges)
  {
  }
}
