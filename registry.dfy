/**
 * The registry of streamable NZB uploads: file-name sanitising, yEnc size
 * extraction, the choice of the file to stream from a decoded NZB, and the
 * size and naming rules of `Register`
 * (backend/services/streaming.old/registry.go).
 */
module Registry {
  import opened Wrappers
  import opened Strs
  import Paths
  import MetadataProvider

  const MaxInt64: int := 0x7FFF_FFFF_FFFF_FFFF

  // ---------------------------------------------------------------------------
  // sanitizeFileName.
  // ---------------------------------------------------------------------------

  /** The characters `[a-zA-Z0-9._-]` the sanitiser keeps. */
  predicate AllowedChar(c: char)
  {
    ('a' <= c <= 'z') || ('A' <= c <= 'Z') || IsDigit(c) || c == '.' || c == '_' || c == '-'
  }

  predicate AllAllowed(s: string)
  {
    forall i :: 0 <= i < |s| ==> AllowedChar(s[i])
  }

  /** The path-separator replacer: every '/' and '\' becomes '_'. */
  function ReplaceSeparators(s: string): (r: string)
    ensures |r| == |s|
    ensures forall i :: 0 <= i < |s| ==> r[i] == (if s[i] == '/' || s[i] == '\\' then '_' else s[i])
  {
    if s == [] then []
    else [if s[0] == '/' || s[0] == '\\' then '_' else s[0]] + ReplaceSeparators(s[1..])
  }

  /** The length of the leading run of disallowed characters of `s`. */
  function DisallowedRun(s: string): (n: nat)
    ensures n <= |s|
    ensures n < |s| ==> AllowedChar(s[n])
    ensures forall i :: 0 <= i < n ==> !AllowedChar(s[i])
  {
    if s != [] && !AllowedChar(s[0]) then 1 + DisallowedRun(s[1..]) else 0
  }

  /** The sanitiser's regular-expression replacement: each maximal run of
      characters outside `[a-zA-Z0-9._-]` becomes a single '_'. */
  function Collapse(s: string): (r: string)
    ensures AllAllowed(r)
    ensures |r| <= |s|
    ensures r == [] <==> s == []
    ensures AllAllowed(s) ==> r == s
    decreases |s|
  {
    if s == [] then []
    else if AllowedChar(s[0]) then [s[0]] + Collapse(s[1..])
    else "_" + Collapse(s[DisallowedRun(s)..])
  }

  /** The characters `strings.TrimLeft(s, "._-")` drops. */
  predicate IsLeadPunct(c: char)
  {
    c == '.' || c == '_' || c == '-'
  }

  /** The length of the leading run of '.', '_' and '-' of `s`. */
  function PunctRun(s: string): (n: nat)
    ensures n <= |s|
    ensures n < |s| ==> !IsLeadPunct(s[n])
    ensures forall i :: 0 <= i < n ==> IsLeadPunct(s[i])
  {
    if s != [] && IsLeadPunct(s[0]) then 1 + PunctRun(s[1..]) else 0
  }

  /** The number of underscores `s` ends with. */
  function UnderscoreTail(s: string): (n: nat)
    ensures n <= |s|
    ensures n < |s| ==> s[|s| - 1 - n] != '_'
    ensures forall i :: |s| - n <= i < |s| ==> s[i] == '_'
  {
    if s != [] && s[|s| - 1] == '_' then 1 + UnderscoreTail(s[..|s| - 1]) else 0
  }

  /** `sanitizeFileName`. The final `strings.Trim(s, "_")` only removes
      trailing underscores, since the name no longer starts with one. */
  function SanitizeFileName(name: string): (r: string)
    ensures IsBlank(name) ==> r == []
    ensures AllAllowed(r)
    ensures r == [] || (!IsLeadPunct(r[0]) && r[|r| - 1] != '_')
  {
    var trimmed := Trim(name);
    if trimmed == [] then []
    else
      var c := Collapse(ReplaceSeparators(trimmed));
      var s := c[PunctRun(c)..];
      s[..|s| - UnderscoreTail(s)]
  }

  lemma AllowedIsPlain(c: char)
    requires AllowedChar(c)
    ensures !IsSpace(c) && c != '/' && c != '\\'
  {
  }

  /** A non-empty name of allowed characters that starts with neither '.',
      '_' nor '-' and does not end in '_' is its own sanitised form. */
  lemma SanitizeKeepsClean(s: string)
    requires s != [] && AllAllowed(s) && !IsLeadPunct(s[0]) && s[|s| - 1] != '_'
    ensures SanitizeFileName(s) == s
  {
    AllowedIsPlain(s[0]);
    AllowedIsPlain(s[|s| - 1]);
    TrimOfTrimmed(s);
    var t := ReplaceSeparators(s);
    assert t == s by {
      forall i | 0 <= i < |s| ensures t[i] == s[i] { AllowedIsPlain(s[i]); }
    }
    assert Collapse(t) == s;
    assert PunctRun(s) == 0;
    assert UnderscoreTail(s) == 0;
    assert s[0..][..|s|] == s;
  }

  /** A sanitised name passes through the sanitiser unchanged. */
  lemma SanitizeIdempotent(name: string)
    ensures SanitizeFileName(SanitizeFileName(name)) == SanitizeFileName(name)
  {
    var s := SanitizeFileName(name);
    if s != [] {
      SanitizeKeepsClean(s);
    }
  }

  // ---------------------------------------------------------------------------
  // extractYEncSize.
  // ---------------------------------------------------------------------------

  /** The characters after which a digit run ends. */
  predicate StopsNumber(c: char)
  {
    c == ' ' || c == '(' || c == '\t'
  }

  /** The digits the scan after "yEnc" collects: every digit up to the first
      stop character that follows a digit. `found` says a digit was seen. */
  function YEncDigits(s: string, found: bool): (r: string)
    ensures AllDigits(r)
  {
    if s == [] then []
    else if IsDigit(s[0]) then [s[0]] + YEncDigits(s[1..], true)
    else if found && StopsNumber(s[0]) then []
    else YEncDigits(s[1..], found)
  }

  /** What `extractYEncSize` returns: 0 without "yEnc", without a digit
      after it, or when the digits overflow 64 bits; else their value. */
  function YEncSize(subject: string): (n: int)
    ensures 0 <= n <= MaxInt64
  {
    var k := IndexOf(subject, "yEnc");
    if k < 0 then 0
    else
      var digits := YEncDigits(subject[k + 4..], false);
      if digits == [] || DigitsValue(digits) > MaxInt64 then 0 else DigitsValue(digits)
  }

  /** `extractYEncSize`, scanning the characters after "yEnc" one by one. */
  method ExtractYEncSize(subject: string) returns (size: int)
    ensures size == YEncSize(subject)
  {
    var k := IndexOf(subject, "yEnc");
    if k == -1 {
      return 0;
    }
    var after := subject[k + 4..];
    var numStr: string := [];
    var foundDigit := false;
    var i := 0;
    while i < |after|
      invariant 0 <= i <= |after|
      invariant AllDigits(numStr) && (foundDigit <==> numStr != [])
      invariant numStr + YEncDigits(after[i..], foundDigit) == YEncDigits(after, false)
    {
      var ch := after[i];
      YEncDigitsStep(after, i, foundDigit);
      if IsDigit(ch) {
        numStr := numStr + [ch];
        foundDigit := true;
      } else if foundDigit && StopsNumber(ch) {
        assert numStr + [] == numStr;
        break;
      }
      i := i + 1;
    }
    if i == |after| {
      assert YEncDigits(after[i..], foundDigit) == [];
      assert numStr + [] == numStr;
    }
    assert numStr == YEncDigits(after, false);
    if numStr == [] {
      return 0;
    }
    var v := DigitsValue(numStr);
    if v > MaxInt64 {
      return 0;
    }
    return v;
  }

  /** One character of the scan. */
  lemma YEncDigitsStep(s: string, i: nat, found: bool)
    requires i < |s|
    ensures YEncDigits(s[i..], found) ==
      if IsDigit(s[i]) then [s[i]] + YEncDigits(s[i + 1..], true)
      else if found && StopsNumber(s[i]) then []
      else YEncDigits(s[i + 1..], found)
  {
    assert s[i..][1..] == s[i + 1..];
  }

  /** Without a digit the scan collects nothing. */
  lemma {:induction false} YEncDigitsNone(s: string, found: bool)
    requires forall i :: 0 <= i < |s| ==> !IsDigit(s[i])
    ensures YEncDigits(s, found) == []
  {
    if s != [] {
      YEncDigitsNone(s[1..], found);
    }
  }

  /** Blanks before the number are skipped, and the number ends at the
      first space, '(' or tab after it. */
  lemma {:induction false} YEncDigitsOfHeader(blanks: string, digits: string, stop: char, rest: string)
    requires forall i :: 0 <= i < |blanks| ==> !IsDigit(blanks[i])
    requires AllDigits(digits) && digits != [] && StopsNumber(stop)
    ensures YEncDigits(blanks + digits + [stop] + rest, false) == digits
  {
    if blanks != [] {
      var x := blanks + digits + [stop] + rest;
      assert x[0] == blanks[0] && !IsDigit(x[0]);
      assert x[1..] == blanks[1..] + digits + [stop] + rest;
      YEncDigitsOfHeader(blanks[1..], digits, stop, rest);
    } else {
      assert blanks + digits + [stop] + rest == digits + [stop] + rest;
      DigitsThenStop(digits, stop, rest, false);
    }
  }

  lemma {:induction false} DigitsThenStop(digits: string, stop: char, rest: string, found: bool)
    requires AllDigits(digits) && StopsNumber(stop) && (found || digits != [])
    ensures YEncDigits(digits + [stop] + rest, found) == digits
  {
    if digits == [] {
      assert ([stop] + rest)[1..] == rest;
    } else {
      assert (digits + [stop] + rest)[1..] == digits[1..] + [stop] + rest;
      DigitsThenStop(digits[1..], stop, rest, true);
    }
  }

  /** A subject carrying `yEnc <n> (` reports `n`. */
  lemma YEncSizeOfHeader(subject: string, blanks: string, n: nat, rest: string)
    requires IndexOf(subject, "yEnc") >= 0
    requires forall i :: 0 <= i < |blanks| ==> !IsDigit(blanks[i])
    requires subject[IndexOf(subject, "yEnc") + 4..] == blanks + NatToString(n) + "(" + rest
    requires n <= MaxInt64
    ensures YEncSize(subject) == n
  {
    var digits := NatToString(n);
    assert blanks + digits + "(" + rest == blanks + digits + ['('] + rest;
    YEncDigitsOfHeader(blanks, digits, '(', rest);
  }

  /** No "yEnc", or no digit after it, gives 0. */
  lemma YEncSizeAbsent(subject: string)
    ensures IndexOf(subject, "yEnc") < 0 ==> YEncSize(subject) == 0
    ensures var k := IndexOf(subject, "yEnc");
      k >= 0 && (forall i :: k + 4 <= i < |subject| ==> !IsDigit(subject[i])) ==> YEncSize(subject) == 0
  {
    var k := IndexOf(subject, "yEnc");
    if k >= 0 && (forall i :: k + 4 <= i < |subject| ==> !IsDigit(subject[i])) {
      YEncDigitsNone(subject[k + 4..], false);
    }
  }

  // ---------------------------------------------------------------------------
  // shouldSkipSubjectForStreaming.
  // ---------------------------------------------------------------------------

  const SkipSubjectFragments: seq<string> := [".par2", ".par", ".srr", ".sfv", ".nfo"]

  /** Whether `lower` contains one of `fragments`, trying them in order. */
  function AnyFragment(lower: string, fragments: seq<string>): bool
  {
    if fragments == [] then false
    else Contains(lower, fragments[0]) || AnyFragment(lower, fragments[1..])
  }

  lemma {:induction false} AnyFragmentMeaning(lower: string, fragments: seq<string>)
    ensures AnyFragment(lower, fragments) <==> exists i :: 0 <= i < |fragments| && Contains(lower, fragments[i])
  {
    if fragments != [] {
      AnyFragmentMeaning(lower, fragments[1..]);
      assert forall i :: 1 <= i < |fragments| ==> fragments[i] == fragments[1..][i - 1];
    }
  }

  /** `shouldSkipSubjectForStreaming`. */
  function ShouldSkipSubject(subject: string): bool
  {
    AnyFragment(Lower(subject), SkipSubjectFragments)
  }

  /** A subject is skipped exactly when, lower-cased, it names a parity,
      verification or info file. */
  lemma ShouldSkipMeaning(subject: string)
    ensures ShouldSkipSubject(subject) <==>
      exists i :: 0 <= i < |SkipSubjectFragments| && Contains(Lower(subject), SkipSubjectFragments[i])
  {
    AnyFragmentMeaning(Lower(subject), SkipSubjectFragments);
  }

  /** Anything mentioning ".par" is skipped; ".par2" adds nothing to it. */
  lemma SkipParity(subject: string)
    ensures Contains(Lower(subject), ".par") ==> ShouldSkipSubject(subject)
  {
    ShouldSkipMeaning(subject);
    assert SkipSubjectFragments[1] == ".par";
  }

  // ---------------------------------------------------------------------------
  // parseNZB, after the XML is decoded.
  // ---------------------------------------------------------------------------

  /** `videoPreference`, as a table of (extension, rank): lower ranks are preferred. */
  const VideoPreference: seq<(string, int)> := [
    (".mp4", 0), (".mkv", 1), (".ts", 2), (".m2ts", 3),
    (".mts", 4), (".avi", 5), (".mov", 6), (".webm", 7)]

  /** The rank of a container extension; unlisted ones rank 9, after all others. */
  function Rank(ext: string): (r: int)
    ensures Lookup(VideoPreference, ext).None? ==> r == 9
    ensures Lookup(VideoPreference, ext).Some? ==> 0 <= r < |VideoPreference| && VideoPreference[r] == (ext, r)
  {
    match Lookup(VideoPreference, ext)
    case Some(rank) =>
      var i :| 0 <= i < |VideoPreference| && VideoPreference[i] == (ext, rank);
      rank
    case None => |VideoPreference| + 1
  }

  datatype NzbSegment = NzbSegment(bytes: int, id: string)

  /** One decoded `<file>` element: its subject and its segments. */
  datatype NzbEntry = NzbEntry(subject: string, segs: seq<NzbSegment>)

  /** `nzbFile`: the chosen file's subject, usable segments and yEnc size. */
  datatype NzbFile = NzbFile(fileName: string, segments: seq<NzbSegment>, decodedSize: int)

  datatype ParseError = XmlInvalid | NoFiles | NoUsableSegments

  predicate UsableSegment(s: NzbSegment)
  {
    s.bytes > 0 && !IsBlank(s.id)
  }

  /** The segments `parseNZB` keeps: positive size and a non-blank id. */
  function UsableSegments(segs: seq<NzbSegment>): (r: seq<NzbSegment>)
    ensures |r| <= |segs|
  {
    if segs == [] then []
    else if UsableSegment(segs[0]) then [segs[0]] + UsableSegments(segs[1..])
    else UsableSegments(segs[1..])
  }

  /** Exactly the usable segments are kept. */
  lemma {:induction false} UsableSegmentsMeaning(segs: seq<NzbSegment>)
    ensures forall i :: 0 <= i < |UsableSegments(segs)| ==>
      UsableSegment(UsableSegments(segs)[i]) && UsableSegments(segs)[i] in segs
    ensures forall s :: s in segs && UsableSegment(s) ==> s in UsableSegments(segs)
  {
    if segs != [] {
      UsableSegmentsMeaning(segs[1..]);
      assert forall s :: s in segs ==> s == segs[0] || s in segs[1..];
    }
  }

  /** The byte total of some segments (unbounded; see README). */
  function SegTotal(segs: seq<NzbSegment>): int
  {
    if segs == [] then 0 else segs[0].bytes + SegTotal(segs[1..])
  }

  lemma {:induction false} SegTotalPositive(segs: seq<NzbSegment>)
    requires forall i :: 0 <= i < |segs| ==> segs[i].bytes > 0
    ensures segs != [] ==> SegTotal(segs) > 0
    ensures segs == [] ==> SegTotal(segs) == 0
  {
    if segs != [] {
      SegTotalPositive(segs[1..]);
    }
  }

  /** A file `parseNZB` may choose. */
  predicate Usable(f: NzbEntry)
  {
    !ShouldSkipSubject(Trim(f.subject))
    && SegTotal(UsableSegments(f.segs)) != 0 && UsableSegments(f.segs) != []
  }

  /** A file with a usable segment and an unremarkable subject is usable. */
  lemma UsableWhenSegment(f: NzbEntry)
    requires !ShouldSkipSubject(Trim(f.subject))
    ensures Usable(f) <==> exists s :: s in f.segs && UsableSegment(s)
  {
    var u := UsableSegments(f.segs);
    UsableSegmentsMeaning(f.segs);
    SegTotalPositive(u);
    if u != [] {
      assert u[0] in f.segs && UsableSegment(u[0]);
    }
  }

  function FileRank(f: NzbEntry, order: seq<string>): int
  {
    Rank(MetadataProvider.DetectContainerExt(Trim(f.subject), order))
  }

  function FileTotal(f: NzbEntry): int
  {
    SegTotal(UsableSegments(f.segs))
  }

  /** What the selection loop weighs about one file: whether it may be
      chosen, its container rank and its byte total. */
  datatype Candidate = Candidate(usable: bool, rank: int, total: int)

  function Summary(f: NzbEntry, order: seq<string>): Candidate
  {
    Candidate(Usable(f), FileRank(f, order), FileTotal(f))
  }

  function Summaries(files: seq<NzbEntry>, order: seq<string>): (cs: seq<Candidate>)
    ensures |cs| == |files|
  {
    if files == [] then [] else [Summary(files[0], order)] + Summaries(files[1..], order)
  }

  lemma {:induction false} SummariesAt(files: seq<NzbEntry>, order: seq<string>, j: nat)
    requires j < |files|
    ensures Summaries(files, order)[j] == Summary(files[j], order)
  {
    if j > 0 {
      SummariesAt(files[1..], order, j - 1);
    }
  }

  /** Candidate `c` displaces the current choice `d`: a lower rank, or the
      same rank and more bytes. */
  predicate Better(c: Candidate, d: Candidate)
  {
    c.rank < d.rank || (c.rank == d.rank && c.total > d.total)
  }

  /** The index `parseNZB` has chosen after visiting `cs[..n]`. */
  function Best(cs: seq<Candidate>, n: nat): (r: Option<nat>)
    requires n <= |cs|
    ensures r.Some? ==> r.value < n && cs[r.value].usable
  {
    if n == 0 then None
    else
      var b := Best(cs, n - 1);
      if !cs[n - 1].usable then b
      else if b.None? || Better(cs[n - 1], cs[b.value]) then Some(n - 1)
      else b
  }

  /** Two candidates the choice cannot tell apart: both unusable, or equal. */
  predicate SameChoice(c: Candidate, d: Candidate)
  {
    c.usable == d.usable && (c.usable ==> c == d)
  }

  /** Visiting candidate `c`, which the choice cannot tell from `cs[n]`,
      moves the choice to `n` when it is usable and the first, of a lower
      rank, or of the same rank and more bytes than the current choice,
      whose rank and total are given. */
  lemma BestNext(cs: seq<Candidate>, n: nat, c: Candidate, bestRank: int, bestTotal: int)
    requires n < |cs| && SameChoice(c, cs[n])
    requires Best(cs, n).Some? ==>
      bestRank == cs[Best(cs, n).value].rank && bestTotal == cs[Best(cs, n).value].total
    ensures Best(cs, n + 1) ==
      if c.usable && (Best(cs, n).None? || c.rank < bestRank || (c.rank == bestRank && c.total > bestTotal))
      then Some(n) else Best(cs, n)
  {
  }

  /** The file `parseNZB` chooses from `files`, if any. */
  function Chosen(files: seq<NzbEntry>, order: seq<string>): Option<nat>
  {
    Best(Summaries(files, order), |files|)
  }

  /** The file chosen from `files` has some segments to stream. */
  lemma ChosenHasSegments(files: seq<NzbEntry>, order: seq<string>)
    ensures Chosen(files, order).Some? ==>
      Chosen(files, order).value < |files| && Selected(files[Chosen(files, order).value]).segments != []
  {
    var k := Chosen(files, order);
    if k.Some? {
      SummariesAt(files, order, k.value);
    }
  }

  /** No candidate among the first `n` is usable. */
  predicate NoneUsable(cs: seq<Candidate>, n: nat)
    requires n <= |cs|
  {
    forall j :: 0 <= j < n ==> !cs[j].usable
  }

  /** Candidate `k` is a usable one among the first `n` of the lowest rank,
      the largest total among those, and the first such. */
  predicate Optimal(cs: seq<Candidate>, n: nat, k: nat)
    requires n <= |cs|
  {
    && k < n && cs[k].usable
    && (forall j :: 0 <= j < n && cs[j].usable ==> !Better(cs[j], cs[k]))
    && (forall j :: 0 <= j < k && cs[j].usable ==> Better(cs[k], cs[j]))
  }

  lemma BestStep(cs: seq<Candidate>, n: nat)
    requires 0 < n <= |cs|
    requires Best(cs, n - 1).None? <==> NoneUsable(cs, n - 1)
    requires Best(cs, n - 1).Some? ==> Optimal(cs, n - 1, Best(cs, n - 1).value)
    ensures Best(cs, n).None? <==> NoneUsable(cs, n)
    ensures Best(cs, n).Some? ==> Optimal(cs, n, Best(cs, n).value)
  {
    var b := Best(cs, n - 1);
    if cs[n - 1].usable && b.None? {
      assert !NoneUsable(cs, n);
    }
  }

  /** The choice is a usable candidate of the lowest rank, the largest total
      among those, and the first such; there is one exactly when some
      candidate is usable. */
  lemma {:induction false} BestIsOptimal(cs: seq<Candidate>, n: nat)
    requires n <= |cs|
    ensures Best(cs, n).None? <==> NoneUsable(cs, n)
    ensures Best(cs, n).Some? ==> Optimal(cs, n, Best(cs, n).value)
  {
    if n > 0 {
      BestIsOptimal(cs, n - 1);
      BestStep(cs, n);
    }
  }

  /** The file chosen from `files` is usable, of the lowest rank, the largest
      total among those, and the first such; one is chosen exactly when some
      file is usable. */
  lemma ChosenIsOptimal(files: seq<NzbEntry>, order: seq<string>)
    ensures Chosen(files, order).None? <==> forall j :: 0 <= j < |files| ==> !Usable(files[j])
    ensures Chosen(files, order).Some? ==>
      var k := Chosen(files, order).value;
      && k < |files| && Usable(files[k])
      && (forall j :: 0 <= j < |files| && Usable(files[j]) ==>
            !Better(Summary(files[j], order), Summary(files[k], order)))
      && (forall j :: 0 <= j < k && Usable(files[j]) ==>
            Better(Summary(files[k], order), Summary(files[j], order)))
  {
    BestIsOptimal(Summaries(files, order), |files|);
    forall j | 0 <= j < |files|
      ensures Summaries(files, order)[j] == Summary(files[j], order)
    {
      SummariesAt(files, order, j);
    }
  }

  /** The usable segments of a file and their total, as `parseNZB`'s inner loop builds them. */
  method FilterSegments(segs: seq<NzbSegment>) returns (total: int, segments: seq<NzbSegment>)
    ensures segments == UsableSegments(segs) && total == SegTotal(segments)
  {
    total := 0;
    segments := [];
    var i := 0;
    while i < |segs|
      invariant 0 <= i <= |segs|
      invariant segments == UsableSegments(segs[..i])
      invariant total == SegTotal(segments)
    {
      var seg := segs[i];
      UsableSegmentsSnoc(segs, i);
      if seg.bytes <= 0 || IsBlank(seg.id) {
        i := i + 1;
        continue;
      }
      SegTotalConcat(segments, [seg]);
      total := total + seg.bytes;
      segments := segments + [seg];
      i := i + 1;
    }
    assert segs[..i] == segs;
  }

  lemma {:induction false} UsableSegmentsConcat(a: seq<NzbSegment>, b: seq<NzbSegment>)
    ensures UsableSegments(a + b) == UsableSegments(a) + UsableSegments(b)
  {
    if a != [] {
      assert (a + b)[1..] == a[1..] + b;
      UsableSegmentsConcat(a[1..], b);
    } else {
      assert a + b == b;
    }
  }

  lemma UsableSegmentsSnoc(segs: seq<NzbSegment>, i: nat)
    requires i < |segs|
    ensures UsableSegments(segs[..i + 1]) ==
      UsableSegments(segs[..i]) + (if UsableSegment(segs[i]) then [segs[i]] else [])
  {
    assert segs[..i + 1] == segs[..i] + [segs[i]];
    UsableSegmentsConcat(segs[..i], [segs[i]]);
    assert [segs[i]][1..] == [];
  }

  lemma {:induction false} SegTotalConcat(a: seq<NzbSegment>, b: seq<NzbSegment>)
    ensures SegTotal(a + b) == SegTotal(a) + SegTotal(b)
  {
    if a != [] {
      assert (a + b)[1..] == a[1..] + b;
      SegTotalConcat(a[1..], b);
    } else {
      assert a + b == b;
    }
  }

  /** The file `parseNZB` returns for the chosen entry. */
  function Selected(f: NzbEntry): NzbFile
  {
    NzbFile(f.subject, UsableSegments(f.segs), YEncSize(Trim(f.subject)))
  }

  /** The file each entry of `files` would select. */
  function Selections(files: seq<NzbEntry>): (r: seq<NzbFile>)
    ensures |r| == |files|
  {
    if files == [] then [] else [Selected(files[0])] + Selections(files[1..])
  }

  lemma {:induction false} SelectionsAt(files: seq<NzbEntry>, j: nat)
    requires j < |files|
    ensures Selections(files)[j] == Selected(files[j])
  {
    if j > 0 {
      SelectionsAt(files[1..], j - 1);
    }
  }

  /** One turn of `parseNZB`'s loop over `files[i]`: whether it is a
      candidate, and if so its rank, its total and the file it would select. */
  method Visit(files: seq<NzbEntry>, order: seq<string>, i: nat) returns (c: Candidate, file: NzbFile)
    requires i < |files|
    ensures SameChoice(c, Summaries(files, order)[i])
    ensures c.usable ==> file == Selections(files)[i]
  {
    SummariesAt(files, order, i);
    SelectionsAt(files, i);
    var f := files[i];
    var subject := Trim(f.subject);
    if ShouldSkipSubject(subject) {
      return Candidate(false, 0, 0), NzbFile(f.subject, [], 0);
    }
    var total, segments := FilterSegments(f.segs);
    if total == 0 || |segments| == 0 {
      return Candidate(false, 0, 0), NzbFile(f.subject, [], 0);
    }
    var decodedSize := ExtractYEncSize(subject);
    var ext := MetadataProvider.DetectContainerExt(subject, order);
    var rank := Rank(ext);
    c := Candidate(true, rank, total);
    file := NzbFile(f.subject, segments, decodedSize);
  }

  /** The running state of `parseNZB`'s loop after visiting `files[..i]`:
      `chosen` is the index picked so far, `selected` its file, and
      `bestRank`/`bestTotal` its rank and byte total. */
  ghost predicate Tracks(files: seq<NzbEntry>, order: seq<string>, i: nat, selected: Option<NzbFile>,
                         bestRank: int, bestTotal: int, chosen: Option<nat>)
  {
    var sums := Summaries(files, order);
    && i <= |files|
    && chosen == Best(sums, i)
    && (chosen.None? <==> selected.None?)
    && (chosen.Some? ==> bestTotal == sums[chosen.value].total && bestRank == sums[chosen.value].rank)
    && (chosen.Some? ==> selected.value == Selections(files)[chosen.value])
  }

  /** Once every file is visited, the tracked choice is the chosen file. */
  lemma TracksDone(files: seq<NzbEntry>, order: seq<string>, selected: Option<NzbFile>,
                   bestRank: int, bestTotal: int, chosen: Option<nat>)
    requires Tracks(files, order, |files|, selected, bestRank, bestTotal, chosen)
    ensures match Chosen(files, order)
      case None => selected.None?
      case Some(k) => selected == Some(Selected(files[k])) && selected.value.segments != []
  {
    ChosenHasSegments(files, order);
    if chosen.Some? {
      SelectionsAt(files, chosen.value);
    }
  }

  /** One turn of `parseNZB`'s loop: visit `files[i]` and keep it when it is
      usable and beats the current choice. */
  method Consider(files: seq<NzbEntry>, order: seq<string>, i: nat, selected: Option<NzbFile>,
                  bestRank: int, bestTotal: int, ghost chosen: Option<nat>)
    returns (selected': Option<NzbFile>, bestRank': int, bestTotal': int, ghost chosen': Option<nat>)
    requires i < |files| && Tracks(files, order, i, selected, bestRank, bestTotal, chosen)
    ensures Tracks(files, order, i + 1, selected', bestRank', bestTotal', chosen')
  {
    var c, file := Visit(files, order, i);
    BestNext(Summaries(files, order), i, c, bestRank, bestTotal);
    if c.usable && (selected.None? || c.rank < bestRank || (c.rank == bestRank && c.total > bestTotal)) {
      return Some(file), c.rank, c.total, Some(i);
    }
    return selected, bestRank, bestTotal, chosen;
  }

  /** `parseNZB`'s loop over the files: the file of the chosen entry, if any. */
  method Scan(files: seq<NzbEntry>, order: seq<string>) returns (selected: Option<NzbFile>)
    ensures match Chosen(files, order)
      case None => selected.None?
      case Some(k) => selected == Some(Selected(files[k])) && selected.value.segments != []
  {
    selected := None;
    var bestTotal := 0;
    var bestRank := |VideoPreference| + 1;
    ghost var chosen: Option<nat> := None;
    var i := 0;
    while i < |files|
      invariant Tracks(files, order, i, selected, bestRank, bestTotal, chosen)
    {
      selected, bestRank, bestTotal, chosen := Consider(files, order, i, selected, bestRank, bestTotal, chosen);
      i := i + 1;
    }
    TracksDone(files, order, selected, bestRank, bestTotal, chosen);
  }

  /** `parseNZB` after decoding; `order` is the container-map visiting order
      `detectContainerExt` uses. */
  method ParseNzb(files: seq<NzbEntry>, order: seq<string>) returns (r: Result<NzbFile, ParseError>)
    ensures files == [] ==> r == Err(NoFiles)
    ensures files != [] ==> match Chosen(files, order)
      case None => r == Err(NoUsableSegments)
      case Some(k) => r == Ok(Selected(files[k]))
  {
    if |files| == 0 {
      return Err(NoFiles);
    }
    var selected := Scan(files, order);
    if selected.None? || |selected.value.segments| == 0 {
      return Err(NoUsableSegments);
    }
    return Ok(selected.value);
  }

  /** ".mov" is ranked but never detected, so rank 6 is never chosen. */
  lemma MovNeverRanked(f: NzbEntry, order: seq<string>)
    ensures FileRank(f, order) != 6
  {
    var ext := MetadataProvider.DetectContainerExt(Trim(f.subject), order);
    if FileRank(f, order) == 6 {
      assert VideoPreference[6] == (ext, 6);
      assert ext == ".mov";
      MovNotContainer();
      assert false;
    }
  }

  lemma MovNotContainer()
    ensures !MetadataProvider.IsContainer(".mov")
  {
    var keys := MetadataProvider.ContainerTypes;
    assert forall i :: 0 <= i < |keys| ==> keys[i].0[..2] != ".m" || |keys[i].0| != 4 || keys[i].0[2] != 'o';
    LookupAbsent(keys, ".mov");
  }

  // ---------------------------------------------------------------------------
  // Register.
  // ---------------------------------------------------------------------------

  /** One `SegmentData` record: encoded size and trimmed id (offsets are 0). */
  datatype SegmentData = SegmentData(segmentSize: int, id: string)

  datatype Registration = Registration(path: string, size: int)

  /** What `Register` stores: the metadata's relative path, its NZB path,
      the total size and the segments. */
  datatype Stored = Stored(relativePath: string, nzbPath: string, totalSize: int, segments: seq<SegmentData>)

  datatype RegisterError =
    | MetadataNotConfigured
    | ParseFailed(e: ParseError)
    | NoSegments
    | UnknownSize
    | MissingSizeOrIds
    | CleanupFailed
    | MkdirFailed
    | WriteNzbFailed
    | WriteMetadataFailed

  /** The outcomes of the file-system and metadata calls `Register` makes,
      in order: expired-entry cleanup, directory creation, NZB write and
      metadata write. */
  datatype IoOutcomes = IoOutcomes(cleanupOk: bool, mkdirOk: bool, writeNzbOk: bool, writeMetaOk: bool)

  /** The sum of the positive segment sizes. */
  function PositiveTotal(segs: seq<NzbSegment>): (t: int)
    ensures t >= 0
  {
    if segs == [] then 0 else (if segs[0].bytes > 0 then segs[0].bytes else 0) + PositiveTotal(segs[1..])
  }

  /** The file size `Register` records: the yEnc size when positive, else the
      sum of the positive segment sizes. */
  function TotalSize(p: NzbFile): int
  {
    if p.decodedSize > 0 then p.decodedSize else PositiveTotal(p.segments)
  }

  /** The segment records: each segment with a positive size and an id. */
  function SegmentDataOf(segs: seq<NzbSegment>): (r: seq<SegmentData>)
    ensures |r| <= |segs|
    ensures forall i :: 0 <= i < |r| ==> r[i].segmentSize > 0 && r[i].id == Trim(r[i].id)
  {
    if segs == [] then []
    else if segs[0].bytes <= 0 || segs[0].id == [] then SegmentDataOf(segs[1..])
    else
      TrimIdempotent(segs[0].id);
      [SegmentData(segs[0].bytes, Trim(segs[0].id))] + SegmentDataOf(segs[1..])
  }

  /** The stored name: the sanitised subject, else the sanitised upload
      name, else "stream.bin". */
  function SafeName(subject: string, fileName: string): (r: string)
    ensures r != [] && AllAllowed(r)
    ensures SanitizeFileName(subject) != [] ==> r == SanitizeFileName(subject)
  {
    var a := SanitizeFileName(subject);
    if a != [] then a
    else
      var b := SanitizeFileName(fileName);
      if b != [] then b else "stream.bin"
  }

  /** The NZB file name: the sanitised upload name, or the id, with ".nzb"
      appended unless it already ends so in any case. */
  function NzbFileName(fileName: string, id: string): (r: string)
    ensures HasSuffix(Lower(r), ".nzb")
    ensures SanitizeFileName(fileName) != [] && HasSuffix(Lower(SanitizeFileName(fileName)), ".nzb") ==>
      r == SanitizeFileName(fileName)
  {
    var n0 := SanitizeFileName(fileName);
    var n := if n0 == [] then id + ".nzb" else n0;
    if HasSuffix(Lower(n), ".nzb") then n
    else
      LowerConcat(n, ".nzb");
      assert Lower(".nzb") == ".nzb";
      n + ".nzb"
  }

  /** `filepath.Join` of two elements. */
  function Join(a: string, b: string): string
  {
    if a == [] && b == [] then []
    else if a == [] then Paths.Clean(b)
    else if b == [] then Paths.Clean(a)
    else Paths.Clean(a + "/" + b)
  }

  /** The totals `Register` sums when the yEnc size is missing, one segment at a time. */
  method SumPositive(segs: seq<NzbSegment>) returns (t: int)
    ensures t == PositiveTotal(segs)
  {
    t := 0;
    var i := 0;
    while i < |segs|
      invariant 0 <= i <= |segs|
      invariant t + PositiveTotal(segs[i..]) == PositiveTotal(segs)
    {
      assert segs[i..][1..] == segs[i + 1..];
      if segs[i].bytes > 0 {
        t := t + segs[i].bytes;
      }
      i := i + 1;
    }
  }

  /** The segment records, built one segment at a time. */
  method BuildSegmentData(segs: seq<NzbSegment>) returns (r: seq<SegmentData>)
    ensures r == SegmentDataOf(segs)
  {
    r := [];
    var i := 0;
    while i < |segs|
      invariant 0 <= i <= |segs|
      invariant r + SegmentDataOf(segs[i..]) == SegmentDataOf(segs)
    {
      assert segs[i..][1..] == segs[i + 1..];
      var seg := segs[i];
      if seg.bytes <= 0 || seg.id == [] {
        i := i + 1;
        continue;
      }
      r := r + [SegmentData(seg.bytes, Trim(seg.id))];
      i := i + 1;
    }
    assert segs[i..] == [];
  }

  /** The part of `Register` after the NZB is parsed into `p`: the size,
      the segment records, the names, and the storage calls. */
  method Store(root: string, fileName: string, p: NzbFile, id: string, io: IoOutcomes)
    returns (r: Result<Registration, RegisterError>, stored: Option<Stored>)
    ensures p.segments == [] ==> r == Err(NoSegments)
    ensures r == Err(UnknownSize) <==> p.segments != [] && TotalSize(p) <= 0
    ensures r.Ok? <==> stored.Some?
    ensures r.Ok? ==>
      && var safeName := SafeName(p.fileName, fileName);
      && r.value == Registration(Join("streams", Join(id, safeName)), TotalSize(p))
      && r.value.size > 0
      && stored.value == Stored(Join(id, safeName), Join(Join(root, id), NzbFileName(fileName, id)),
                                TotalSize(p), SegmentDataOf(p.segments))
      && io.cleanupOk && io.mkdirOk && io.writeNzbOk && io.writeMetaOk
  {
    stored := None;
    if |p.segments| == 0 {
      return Err(NoSegments), None;
    }
    var totalSize := p.decodedSize;
    if totalSize <= 0 {
      totalSize := SumPositive(p.segments);
    }
    if totalSize <= 0 {
      return Err(UnknownSize), None;
    }
    var segmentData := BuildSegmentData(p.segments);
    if |segmentData| == 0 {
      return Err(MissingSizeOrIds), None;
    }
    var safeName := SanitizeFileName(p.fileName);
    if safeName == [] {
      safeName := SanitizeFileName(fileName);
    }
    if safeName == [] {
      safeName := "stream.bin";
    }
    var relativePath := Join(id, safeName);
    var publicPath := Join("streams", relativePath);
    var streamDir := Join(root, id);
    var nzbFileName := SanitizeFileName(fileName);
    if nzbFileName == [] {
      nzbFileName := id + ".nzb";
    }
    if !HasSuffix(Lower(nzbFileName), ".nzb") {
      nzbFileName := nzbFileName + ".nzb";
    }
    var nzbPath := Join(streamDir, nzbFileName);
    if !io.cleanupOk {
      return Err(CleanupFailed), None;
    }
    if !io.mkdirOk {
      return Err(MkdirFailed), None;
    }
    if !io.writeNzbOk {
      return Err(WriteNzbFailed), None;
    }
    if !io.writeMetaOk {
      return Err(WriteMetadataFailed), None;
    }
    return Ok(Registration(publicPath, totalSize)), Some(Stored(relativePath, nzbPath, totalSize, segmentData));
  }

  /** `Register`. `decoded` is the decoded NZB (None when it is not valid
      XML), `id` the fresh UUID, `order` the container-map visiting order and
      `io` the outcomes of the calls that touch storage. On success it
      returns the registration and what it stored. */
  method Register(hasMetadata: bool, root: string, fileName: string, decoded: Option<seq<NzbEntry>>,
                  order: seq<string>, id: string, io: IoOutcomes)
    returns (r: Result<Registration, RegisterError>, stored: Option<Stored>)
    ensures !hasMetadata ==> r == Err(MetadataNotConfigured)
    ensures hasMetadata && decoded.None? ==> r == Err(ParseFailed(XmlInvalid))
    ensures hasMetadata && decoded == Some([]) ==> r == Err(ParseFailed(NoFiles))
    ensures r.Ok? <==> stored.Some?
    ensures r.Ok? ==>
      && decoded.Some? && hasMetadata
      && var k := Chosen(decoded.value, order);
      && k.Some?
      && var p := Selected(decoded.value[k.value]);
      && var safeName := SafeName(p.fileName, fileName);
      && var streamDir := Join(root, id);
      && r.value == Registration(Join("streams", Join(id, safeName)), TotalSize(p))
      && r.value.size > 0
      && stored.value == Stored(Join(id, safeName), Join(streamDir, NzbFileName(fileName, id)),
                                TotalSize(p), SegmentDataOf(p.segments))
      && io.cleanupOk && io.mkdirOk && io.writeNzbOk && io.writeMetaOk
    ensures hasMetadata && decoded.Some? && decoded.value != [] && Chosen(decoded.value, order).None? ==>
      r == Err(ParseFailed(NoUsableSegments))
    ensures r == Err(UnknownSize) <==>
      && hasMetadata && decoded.Some?
      && var k := Chosen(decoded.value, order);
      && k.Some? && TotalSize(Selected(decoded.value[k.value])) <= 0
  {
    stored := None;
    if !hasMetadata {
      return Err(MetadataNotConfigured), None;
    }
    if decoded.None? {
      return Err(ParseFailed(XmlInvalid)), None;
    }
    var parsed := ParseNzb(decoded.value, order);
    if parsed.Err? {
      return Err(ParseFailed(parsed.error)), None;
    }
    ChosenHasSegments(decoded.value, order);
    r, stored := Store(root, fileName, parsed.value, id, io);
  }

}
