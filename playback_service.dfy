/**
 * The playback service (backend/services/playback/service.go): naming the
 * fetched NZB, mapping importer queue items to playback resolutions, and
 * choosing the media file of a completed download directory. The HTTP
 * fetch, the importer, the metadata listing, the JSON decoder and the
 * media selector are inputs.
 */
module PlaybackService {
  import opened Wrappers
  import opened Strs
  import opened Models
  import Paths

  // ---------------------------------------------------------------------
  // NZB file names
  // ---------------------------------------------------------------------

  const NzbSuffix: string := ".nzb"

  /** `ensureNZBExtension`: ".nzb" is appended unless the name already ends
      with it in any letter case; the result always does. */
  function EnsureNzbExtension(name: string): (r: string)
    ensures HasSuffix(Lower(r), NzbSuffix)
    ensures HasSuffix(Lower(name), NzbSuffix) ==> r == name
    ensures !HasSuffix(Lower(name), NzbSuffix) ==> r == name + NzbSuffix
  {
    if HasSuffix(Lower(name), NzbSuffix) then name
    else
      LowerConcat(name, NzbSuffix);
      assert Lower(NzbSuffix) == NzbSuffix;
      SuffixOfConcat(Lower(name), NzbSuffix);
      name + NzbSuffix
  }

  /** Applying it twice is applying it once. */
  lemma EnsureNzbExtensionIdempotent(name: string)
    ensures EnsureNzbExtension(EnsureNzbExtension(name)) == EnsureNzbExtension(name)
  {
  }

  /** `strings.Trim(value, "\"'")` */
  predicate IsQuote(c: char)
  {
    c == '"' || c == '\''
  }

  function LeadingQuotes(s: string): (n: nat)
    ensures n <= |s|
  {
    if s != [] && IsQuote(s[0]) then 1 + LeadingQuotes(s[1..]) else 0
  }

  function TrailingQuotes(s: string): (n: nat)
    ensures n <= |s|
  {
    if s != [] && IsQuote(s[|s| - 1]) then 1 + TrailingQuotes(s[..|s| - 1]) else 0
  }

  /** Quotes stripped from both ends. */
  function Unquote(s: string): string
  {
    var t := s[LeadingQuotes(s)..];
    t[..|t| - TrailingQuotes(t)]
  }

  const FileNameParam: string := "filename="

  /** The file name a trimmed `Content-Disposition` part offers, as written:
      the parameter is recognised in any letter case but only the lower-case
      spelling is cut off. */
  function PartValueAsWritten(part: string): Option<string>
  {
    var q := Trim(part);
    if HasPrefix(Lower(q), FileNameParam) then Some(Unquote(TrimPrefix(q, FileNameParam))) else None
  }

  /** The corrected reading of a part: the parameter name is cut off in
      whatever letter case it was recognised. */
  function PartValue(part: string): Option<string>
  {
    var q := Trim(part);
    if HasPrefix(Lower(q), FileNameParam) then Some(Unquote(q[|FileNameParam|..])) else None
  }

  /** A part offers no usable name. */
  predicate NoName(o: Option<string>)
  {
    o.None? || o.value == ""
  }

  /** The first non-empty name offered by the parts, or "". */
  function FirstName(parts: seq<string>, value: string -> Option<string>): string
  {
    if parts == [] then ""
    else if !NoName(value(parts[0])) then value(parts[0]).value
    else FirstName(parts[1..], value)
  }

  /** The name comes from the first part offering one, and "" means that no
      part offers one. */
  lemma {:induction false} FirstNameMeaning(parts: seq<string>, value: string -> Option<string>)
    ensures var r := FirstName(parts, value);
      && (r != "" ==> exists i :: (0 <= i < |parts| && value(parts[i]) == Some(r)
                                   && forall k :: 0 <= k < i ==> NoName(value(parts[k]))))
      && (r == "" ==> forall k :: 0 <= k < |parts| ==> NoName(value(parts[k])))
  {
    if parts != [] && NoName(value(parts[0])) {
      FirstNameMeaning(parts[1..], value);
      var r := FirstName(parts, value);
      if r != "" {
        var i :| 0 <= i < |parts[1..]| && value(parts[1..][i]) == Some(r)
                 && forall k :: 0 <= k < i ==> NoName(value(parts[1..][k]));
        assert value(parts[i + 1]) == Some(r);
        assert forall k :: 1 <= k < |parts| ==> parts[k] == parts[1..][k - 1];
      }
    }
  }

  /** `parseFileNameFromContentDisposition`, as written. */
  function FileNameFromContentDispositionAsWritten(header: string): string
  {
    FirstName(Split(header, ';'), PartValueAsWritten)
  }

  /** `parseFileNameFromContentDisposition`, corrected. */
  function FileNameFromContentDisposition(header: string): string
  {
    FirstName(Split(header, ';'), PartValue)
  }

  /** Lower-casing leaves every character other than an upper-case letter as
      it is. */
  lemma LowerCharKeeps(c: char)
    ensures !('A' <= c <= 'Z') ==> LowerChar(c) == c
    ensures 'A' <= c <= 'Z' ==> 'a' <= LowerChar(c) <= 'z'
  {
  }

  /** A name reading "filename=" in any case starts with a character that
      is neither white space nor a quote. */
  lemma ParamHead(name: string)
    requires |name| == |FileNameParam| && Lower(name) == FileNameParam
    ensures !IsSpace(name[0]) && !IsQuote(name[0])
  {
    assert Lower(name) == [LowerChar(name[0])] + Lower(name[1..]);
    LowerCharKeeps(name[0]);
  }

  /** A part `name + v` whose name reads "filename=" in any case, and whose
      value is non-empty and ends in neither white space nor a quote, is
      already trimmed, is recognised, and loses nothing to unquoting. */
  lemma ParamPart(name: string, v: string)
    requires |name| == |FileNameParam| && Lower(name) == FileNameParam
    requires v != [] && !IsSpace(v[|v| - 1])
    ensures Trim(name + v) == name + v
    ensures HasPrefix(Lower(name + v), FileNameParam)
  {
    var s := name + v;
    ParamHead(name);
    assert s[0] == name[0] && s[|s| - 1] == v[|v| - 1];
    TrimOfTrimmed(s);
    LowerConcat(name, v);
  }

  /** Unquoting keeps a string that starts and ends with characters other
      than quotes. */
  lemma UnquoteKeeps(s: string)
    requires s != [] && !IsQuote(s[0]) && !IsQuote(s[|s| - 1])
    ensures Unquote(s) == s
  {
  }

  /** A parameter name spelled in upper or mixed case is recognised but not
      cut off: the part `FILENAME=movie.nzb` is read as the file name
      `FILENAME=movie.nzb`. */
  lemma MixedCaseParamKeptAsWritten(name: string, v: string)
    requires |name| == |FileNameParam| && Lower(name) == FileNameParam && name != FileNameParam
    requires v != [] && !IsSpace(v[|v| - 1]) && !IsQuote(v[|v| - 1])
    ensures PartValueAsWritten(name + v) == Some(name + v)
  {
    var s := name + v;
    ParamPart(name, v);
    ParamHead(name);
    assert s[..|FileNameParam|] == name;
    assert TrimPrefix(s, FileNameParam) == s;
    assert s[0] == name[0] && s[|s| - 1] == v[|v| - 1];
    UnquoteKeeps(s);
  }

  /** With the correction, the parameter name is matched in any letter case
      and the name is what follows it, unquoted. */
  lemma ParamNameCaseInsensitive(name: string, v: string)
    requires |name| == |FileNameParam| && Lower(name) == FileNameParam
    requires v != [] && !IsSpace(v[|v| - 1])
    ensures PartValue(name + v) == Some(Unquote(v))
  {
    ParamPart(name, v);
    assert (name + v)[|FileNameParam|..] == v;
  }

  /** Lower-casing keeps a string without upper-case letters. */
  lemma {:induction false} LowerKeeps(s: string)
    requires forall k :: 0 <= k < |s| ==> !('A' <= s[k] <= 'Z')
    ensures Lower(s) == s
  {
    if s != [] {
      assert forall k :: 0 <= k < |s[1..]| ==> s[1..][k] == s[k + 1];
      LowerKeeps(s[1..]);
      assert s == [s[0]] + s[1..];
    }
  }

  lemma LowerParam()
    ensures Lower(FileNameParam) == FileNameParam
  {
    LowerKeeps(FileNameParam);
  }

  /** The correction changes nothing for the lower-case spelling. */
  lemma LowerCaseParamUnchanged(part: string)
    requires HasPrefix(Trim(part), FileNameParam)
    ensures PartValue(part) == PartValueAsWritten(part)
  {
    var q := Trim(part);
    var rest := q[|FileNameParam|..];
    assert q == FileNameParam + rest;
    LowerConcat(FileNameParam, rest);
    LowerParam();
    assert HasPrefix(Lower(q), FileNameParam);
    assert TrimPrefix(q, FileNameParam) == rest;
  }

  /** `strings.Map` over the title: spaces become dots, ASCII letters,
      digits, '.', '-' and '_' are kept, everything else is dropped. */
  function SafeTitle(title: string): (r: string)
  {
    if title == [] then []
    else
      var c := title[0];
      var head := if c == ' ' then "." else if IsSafeChar(c) then [c] else [];
      head + SafeTitle(title[1..])
  }

  predicate IsSafeChar(c: char)
  {
    ('a' <= c <= 'z') || ('A' <= c <= 'Z') || ('0' <= c <= '9') || c == '.' || c == '-' || c == '_'
  }

  predicate AllSafe(s: string)
  {
    forall k :: 0 <= k < |s| ==> IsSafeChar(s[k])
  }

  /** Every character of the safe title is a safe one. */
  lemma {:induction false} SafeTitleAllSafe(title: string)
    ensures AllSafe(SafeTitle(title))
  {
    if title != [] {
      SafeTitleAllSafe(title[1..]);
      var c := title[0];
      var head := if c == ' ' then "." else if IsSafeChar(c) then [c] else [];
      assert AllSafe(head);
      assert forall k :: |head| <= k < |SafeTitle(title)| ==> SafeTitle(title)[k] == SafeTitle(title[1..])[k - |head|];
    }
  }

  /** A title made only of safe characters is kept as it is. */
  lemma {:induction false} SafeTitleKeepsSafe(title: string)
    requires AllSafe(title)
    ensures SafeTitle(title) == title
  {
    if title != [] {
      assert IsSafeChar(title[0]) && title[0] != ' ';
      assert AllSafe(title[1..]) by {
        assert forall k :: 0 <= k < |title[1..]| ==> title[1..][k] == title[k + 1];
      }
      SafeTitleKeepsSafe(title[1..]);
      assert title == [title[0]] + title[1..];
    }
  }

  /** The mapping is idempotent. */
  lemma SafeTitleIdempotent(title: string)
    ensures SafeTitle(SafeTitle(title)) == SafeTitle(title)
  {
    SafeTitleAllSafe(title);
    SafeTitleKeepsSafe(SafeTitle(title));
  }

  const DefaultNzbName: string := "novastream"

  /** The URL path's base usable as a name, as written: `path.Base` never
      returns "", so the empty path, whose base is ".", gets through. */
  predicate UsableBaseAsWritten(base: string)
  {
    base != "" && base != "/"
  }

  /** The corrected test also refuses ".", the base of the empty path. */
  predicate UsableBase(base: string)
  {
    base != "" && base != "/" && base != "."
  }

  /** `deriveFileName`, as written. `contentDisposition` is the header (""
      when absent) and `urlPath` the path of the parsed download URL (`None`:
      the URL did not parse). */
  function DeriveFileNameAsWritten(contentDisposition: string, urlPath: Option<string>, title: string): string
  {
    if contentDisposition != "" && FileNameFromContentDispositionAsWritten(contentDisposition) != "" then
      EnsureNzbExtension(FileNameFromContentDispositionAsWritten(contentDisposition))
    else if urlPath.Some? && UsableBaseAsWritten(Base(urlPath.value)) then
      EnsureNzbExtension(Base(urlPath.value))
    else if !IsBlank(title) && SafeTitle(title) != "" then EnsureNzbExtension(SafeTitle(title))
    else EnsureNzbExtension(DefaultNzbName)
  }

  /** `deriveFileName` with both corrections: the header's parameter name is
      cut off in any case, and the empty URL path is skipped. */
  function DeriveFileName(contentDisposition: string, urlPath: Option<string>, title: string): string
  {
    if contentDisposition != "" && FileNameFromContentDisposition(contentDisposition) != "" then
      EnsureNzbExtension(FileNameFromContentDisposition(contentDisposition))
    else if urlPath.Some? && UsableBase(Base(urlPath.value)) then
      EnsureNzbExtension(Base(urlPath.value))
    else if !IsBlank(title) && SafeTitle(title) != "" then EnsureNzbExtension(SafeTitle(title))
    else EnsureNzbExtension(DefaultNzbName)
  }

  /** As written, the name ends in ".nzb" and comes from the first source
      that offers one: the header's name as the case-sensitive cut leaves it,
      then any URL path base other than "" and "/" (so "." too), then the
      safe title, then "novastream". */
  lemma DeriveFileNameAsWrittenMeaning(contentDisposition: string, urlPath: Option<string>, title: string)
    ensures var r := DeriveFileNameAsWritten(contentDisposition, urlPath, title);
      var header := FileNameFromContentDispositionAsWritten(contentDisposition);
      && HasSuffix(Lower(r), NzbSuffix)
      && (contentDisposition != "" && header != "" ==> r == EnsureNzbExtension(header))
      && (header == "" && urlPath.Some? && UsableBaseAsWritten(Base(urlPath.value)) ==> r == EnsureNzbExtension(Base(urlPath.value)))
      && (header == "" && (urlPath.None? || !UsableBaseAsWritten(Base(urlPath.value))) ==>
            ((!IsBlank(title) && SafeTitle(title) != "" && r == EnsureNzbExtension(SafeTitle(title)))
             || r == EnsureNzbExtension(DefaultNzbName)))
  {
  }

  /** Corrected, the name ends in ".nzb" and comes from the first source that
      offers one: the header, then the URL path's base, then the safe title,
      then "novastream". */
  lemma DeriveFileNameMeaning(contentDisposition: string, urlPath: Option<string>, title: string)
    ensures var r := DeriveFileName(contentDisposition, urlPath, title);
      var header := FileNameFromContentDisposition(contentDisposition);
      && HasSuffix(Lower(r), NzbSuffix)
      && (contentDisposition != "" && header != "" ==> r == EnsureNzbExtension(header))
      && (header == "" && urlPath.Some? && UsableBase(Base(urlPath.value)) ==> r == EnsureNzbExtension(Base(urlPath.value)))
      && (header == "" && (urlPath.None? || !UsableBase(Base(urlPath.value))) ==>
            ((!IsBlank(title) && SafeTitle(title) != "" && r == EnsureNzbExtension(SafeTitle(title)))
             || r == EnsureNzbExtension(DefaultNzbName)))
  {
  }

  /** As written, a download URL with an empty path (`https://host`) is named
      "..nzb" whatever the title. */
  lemma EmptyUrlPathNamedDotAsWritten(title: string)
    ensures DeriveFileNameAsWritten("", Some(""), title) == "..nzb"
  {
    assert Base("") == ".";
    assert !HasSuffix(Lower("."), NzbSuffix);
  }

  /** Corrected, the empty path falls through to the title. */
  lemma EmptyUrlPathUsesTitle(title: string)
    requires !IsBlank(title) && SafeTitle(title) != ""
    ensures DeriveFileName("", Some(""), title) == EnsureNzbExtension(SafeTitle(title))
  {
    assert Base("") == ".";
  }

  // ---------------------------------------------------------------------
  // Queue items
  // ---------------------------------------------------------------------

  /** `database.QueueStatus`: the five named statuses and any other text. */
  datatype QueueStatus = Pending | Processing | Retrying | Completed | Failed | Other(text: string)

  /** `queueStatusToHealth`. */
  function QueueStatusToHealth(status: QueueStatus): (h: string)
    ensures status.Other? ==> h == Trim(status.text)
    ensures !status.Other? ==> h in {"queued", "processing", "healthy", "failed"}
  {
    match status
    case Pending => "queued"
    case Processing => "processing"
    case Retrying => "processing"
    case Completed => "healthy"
    case Failed => "failed"
    case Other(text) => Trim(text)
  }

  /** Only completed items report "healthy" among the named statuses, and
      processing and retrying items read the same. */
  lemma QueueHealthDistinguishes(status: QueueStatus)
    ensures !status.Other? ==> (QueueStatusToHealth(status) == "healthy" <==> status == Completed)
    ensures !status.Other? ==> (QueueStatusToHealth(status) == "processing" <==> status in {Processing, Retrying})
  {
  }

  /** `queueMetadata`. */
  datatype QueueMetadata = QueueMetadata(sourceNZBPath: string, preflightHealth: string)

  const EmptyMetadata := QueueMetadata("", "")

  /** `parseQueueMetadata`: `decode` is the JSON decoder (`None`: invalid). */
  function ParseQueueMetadata(raw: Option<string>, decode: string -> Option<QueueMetadata>): (m: QueueMetadata)
    ensures (raw.None? || IsBlank(raw.value)) ==> m == EmptyMetadata
  {
    if raw.None? then EmptyMetadata
    else
      var trimmed := Trim(raw.value);
      if trimmed == "" then EmptyMetadata
      else match decode(trimmed)
        case None => EmptyMetadata
        case Some(meta) => meta
  }

  /** Metadata other than the empty record came from decoding the trimmed
      text, and a decoder failure gives the empty record. */
  lemma ParseQueueMetadataMeaning(raw: Option<string>, decode: string -> Option<QueueMetadata>)
    ensures var m := ParseQueueMetadata(raw, decode);
      && (m != EmptyMetadata ==> raw.Some? && decode(Trim(raw.value)) == Some(m))
      && (raw.Some? && decode(Trim(raw.value)).None? ==> m == EmptyMetadata)
      && (raw.Some? && !IsBlank(raw.value) && decode(Trim(raw.value)).Some? ==> m == decode(Trim(raw.value)).value)
  {
  }

  // ---------------------------------------------------------------------
  // Choosing the media file of a directory
  // ---------------------------------------------------------------------

  const ScanMaxDepth: nat := 3

  /** `playableExtensionPriority`: lower is preferred. */
  const PlayablePriority: seq<(string, int)> :=
    [(".mp4", 0), (".m4v", 1), (".mkv", 2), (".webm", 3), (".mov", 4), (".avi", 5),
     (".mpg", 6), (".mpeg", 6), (".ts", 7), (".m2ts", 7), (".mts", 7)]

  /** The priority of a file name's lower-cased extension, when playable. */
  function Priority(filename: string): Option<int>
  {
    Lookup(PlayablePriority, Lower(Ext(filename)))
  }

  /** `path.Join` of two elements. */
  function JoinPath(dir: string, name: string): string
  {
    if dir == "" && name == "" then ""
    else if dir == "" then Paths.Clean(name)
    else if name == "" then Paths.Clean(dir)
    else Paths.Clean(dir + "/" + name)
  }

  /** `mediaFileCandidate`. */
  datatype Candidate = Candidate(path: string, priority: int)

  /** How a listed file becomes a candidate: its extension priority and the
      joining of directory and name. The service uses `Priority` and
      `JoinPath`; the scan is stated for any such pair. */
  datatype Rules = Rules(priority: string -> Option<int>, join: (string, string) -> string)

  const ServiceRules := Rules(Priority, JoinPath)

  /** The metadata service's listings (`None`: the listing failed). */
  datatype Listing = Listing(files: string -> Option<seq<string>>, subdirs: string -> Option<seq<string>>)

  /** The candidates the playable files of one directory contribute, in
      listing order. */
  function FileCandidates(rules: Rules, dir: string, files: seq<string>): (r: seq<Candidate>)
    ensures |r| <= |files|
  {
    if files == [] then []
    else
      var init := FileCandidates(rules, dir, files[..|files| - 1]);
      var name := files[|files| - 1];
      match rules.priority(name)
      case None => init
      case Some(p) => init + [Candidate(rules.join(dir, name), p)]
  }

  /** A candidate is a playable file of the directory at its priority. */
  lemma {:induction false} FileCandidatesMeaning(rules: Rules, dir: string, files: seq<string>)
    ensures forall c :: c in FileCandidates(rules, dir, files) ==>
      exists name :: name in files && rules.priority(name) == Some(c.priority) && c.path == rules.join(dir, name)
  {
    if files != [] {
      FileCandidatesMeaning(rules, dir, files[..|files| - 1]);
      assert forall name :: name in files[..|files| - 1] ==> name in files;
    }
  }

  /** The recursion measure of the scan: the levels left. */
  function Levels(depth: nat): nat
  {
    if depth > ScanMaxDepth then 0 else ScanMaxDepth + 1 - depth
  }

  /** What a `scan` call appends, and whether it returned an error. */
  datatype ScanOutcome = ScanOutcome(found: seq<Candidate>, failed: bool)

  /** `scan`: nothing below the maximum depth; a failed file listing fails
      before anything is added; a failed subdirectory listing fails after the
      directory's own files were added; an error in a subdirectory is
      ignored, keeping what it added. */
  function Scan(fs: Listing, rules: Rules, dir: string, depth: nat): ScanOutcome
    decreases Levels(depth), 0
  {
    if depth > ScanMaxDepth then ScanOutcome([], false)
    else match fs.files(dir)
      case None => ScanOutcome([], true)
      case Some(files) =>
        var own := FileCandidates(rules, dir, files);
        match fs.subdirs(dir)
        case None => ScanOutcome(own, true)
        case Some(subs) => ScanOutcome(own + ScanAll(fs, rules, dir, subs, depth + 1), false)
  }

  /** What the scans of the subdirectories add, in listing order. */
  function ScanAll(fs: Listing, rules: Rules, dir: string, subs: seq<string>, depth: nat): seq<Candidate>
    requires depth >= 1 && depth <= ScanMaxDepth + 1
    decreases Levels(depth), |subs| + 1
  {
    if subs == [] then []
    else ScanAll(fs, rules, dir, subs[..|subs| - 1], depth) + Scan(fs, rules, rules.join(dir, subs[|subs| - 1]), depth).found
  }

  /** `bestIdx` as the scan maintains it: -1 for no candidate, else the first
      candidate of strictly lowest priority. */
  function BestIndex(cs: seq<Candidate>): (r: int)
    ensures -1 <= r < |cs|
    ensures cs != [] ==> r >= 0
  {
    if cs == [] then -1
    else
      var b := BestIndex(cs[..|cs| - 1]);
      if b == -1 || cs[|cs| - 1].priority < cs[b].priority then |cs| - 1 else b
  }

  /** The best index has the lowest priority, and every earlier candidate a
      higher one. */
  lemma {:induction false} BestIndexMeaning(cs: seq<Candidate>)
    ensures var b := BestIndex(cs);
      && (cs == [] <==> b == -1)
      && (b >= 0 ==> (forall k :: 0 <= k < |cs| ==> cs[b].priority <= cs[k].priority))
      && (b >= 0 ==> (forall k :: 0 <= k < b ==> cs[b].priority < cs[k].priority))
  {
    if cs != [] {
      var init := cs[..|cs| - 1];
      BestIndexMeaning(init);
      assert forall k :: 0 <= k < |init| ==> init[k] == cs[k];
    }
  }

  /** Appending a candidate moves the best index to it exactly when it is
      the first or strictly better than the best so far. */
  lemma BestIndexSnoc(cs: seq<Candidate>, c: Candidate)
    ensures var b := BestIndex(cs);
      BestIndex(cs + [c]) == if b == -1 || c.priority < cs[b].priority then |cs| else b
  {
    assert (cs + [c])[..|cs|] == cs;
  }

  lemma AppendAssocCandidates(a: seq<Candidate>, b: seq<Candidate>, c: seq<Candidate>)
    ensures a + b + c == a + (b + c)
  {
  }

  /** One more listed file adds its candidate, when playable. */
  lemma FileCandidatesSnoc(rules: Rules, dir: string, files: seq<string>, i: nat)
    requires i < |files|
    ensures FileCandidates(rules, dir, files[..i + 1])
      == FileCandidates(rules, dir, files[..i]) + (if rules.priority(files[i]).Some? then [Candidate(rules.join(dir, files[i]), rules.priority(files[i]).value)] else [])
  {
    assert files[..i + 1][..i] == files[..i];
  }

  /** The loop of `scan` over one directory's files. */
  method AddFileCandidates(rules: Rules, dir: string, files: seq<string>, candidates: seq<Candidate>, bestIdx: int)
      returns (cands: seq<Candidate>, best: int)
    requires bestIdx == BestIndex(candidates)
    ensures cands == candidates + FileCandidates(rules, dir, files)
    ensures best == BestIndex(cands)
  {
    cands, best := candidates, bestIdx;
    var i := 0;
    while i < |files|
      invariant 0 <= i <= |files|
      invariant cands == candidates + FileCandidates(rules, dir, files[..i])
      invariant best == BestIndex(cands)
    {
      var filename := files[i];
      FileCandidatesSnoc(rules, dir, files, i);
      var priority := rules.priority(filename);
      if priority.Some? {
        var c := Candidate(rules.join(dir, filename), priority.value);
        BestIndexSnoc(cands, c);
        AppendAssocCandidates(candidates, FileCandidates(rules, dir, files[..i]), [c]);
        cands := cands + [c];
        var idx := |cands| - 1;
        if best == -1 || cands[idx].priority < cands[best].priority {
          best := idx;
        }
      }
      i := i + 1;
    }
    assert files[..i] == files;
  }

  /** One more subdirectory adds what its scan adds. */
  lemma ScanAllSnoc(fs: Listing, rules: Rules, dir: string, subs: seq<string>, j: nat, depth: nat)
    requires j < |subs| && 1 <= depth <= ScanMaxDepth + 1
    ensures ScanAll(fs, rules, dir, subs[..j + 1], depth)
      == ScanAll(fs, rules, dir, subs[..j], depth) + Scan(fs, rules, rules.join(dir, subs[j]), depth).found
  {
    assert subs[..j + 1][..j] == subs[..j];
  }

  /** The loop of `scan` over the subdirectories, ignoring their errors. */
  method ScanSubdirectories(fs: Listing, rules: Rules, dir: string, subs: seq<string>, depth: nat,
                            candidates: seq<Candidate>, bestIdx: int)
      returns (cands: seq<Candidate>, best: int)
    requires 1 <= depth <= ScanMaxDepth + 1
    requires bestIdx == BestIndex(candidates)
    ensures cands == candidates + ScanAll(fs, rules, dir, subs, depth)
    ensures best == BestIndex(cands)
    decreases Levels(depth), 1
  {
    cands, best := candidates, bestIdx;
    var j := 0;
    while j < |subs|
      invariant 0 <= j <= |subs|
      invariant cands == candidates + ScanAll(fs, rules, dir, subs[..j], depth)
      invariant best == BestIndex(cands)
    {
      ScanAllSnoc(fs, rules, dir, subs, j, depth);
      var subdirPath := rules.join(dir, subs[j]);
      var subFailed;
      cands, best, subFailed := ScanDirectory(fs, rules, subdirPath, depth, cands, best);
      AppendAssocCandidates(candidates, ScanAll(fs, rules, dir, subs[..j], depth), Scan(fs, rules, subdirPath, depth).found);
      j := j + 1;
    }
    assert subs[..j] == subs;
  }

  /** `scan` over `dir` at `depth`, threading the candidate list and
      `bestIdx` that the closure updates. */
  method ScanDirectory(fs: Listing, rules: Rules, dir: string, depth: nat, candidates: seq<Candidate>, bestIdx: int)
      returns (cands: seq<Candidate>, best: int, failed: bool)
    requires bestIdx == BestIndex(candidates)
    ensures cands == candidates + Scan(fs, rules, dir, depth).found
    ensures failed == Scan(fs, rules, dir, depth).failed
    ensures best == BestIndex(cands)
    decreases Levels(depth), 0
  {
    if depth > ScanMaxDepth {
      return candidates, bestIdx, false;
    }
    var files := fs.files(dir);
    if files.None? {
      return candidates, bestIdx, true;
    }
    cands, best := AddFileCandidates(rules, dir, files.value, candidates, bestIdx);
    var subdirs := fs.subdirs(dir);
    if subdirs.None? {
      return cands, best, true;
    }
    cands, best := ScanSubdirectories(fs, rules, dir, subdirs.value, depth + 1, cands, best);
    AppendAssocCandidates(candidates, FileCandidates(rules, dir, files.value), ScanAll(fs, rules, dir, subdirs.value, depth + 1));
    failed := false;
  }

  /** `mediaresolve.SelectionHints`. */
  datatype SelectionHints = SelectionHints(releaseTitle: string, queueName: string, directory: string)

  datatype MediaError = ScanFailed | NoPlayableMedia

  /** The selector: -1 for no definitive match, else an index of the list. */
  ghost predicate SelectorInRange(select: (seq<Candidate>, SelectionHints) -> int)
  {
    forall cs, h :: -1 <= select(cs, h) < |cs|
  }

  /** What `findBestMediaFile` returns: an error from the top-level scan or
      for no candidate; the sole candidate; the selector's choice (the hints'
      blank directory defaulting to `dir`); else the extension-priority
      choice. */
  function BestMediaFile(fs: Listing, dir: string, hints: SelectionHints,
                         select: (seq<Candidate>, SelectionHints) -> int): Result<string, MediaError>
    requires SelectorInRange(select)
  {
    var s := Scan(fs, ServiceRules, dir, 0);
    if s.failed then Err(ScanFailed)
    else if s.found == [] then Err(NoPlayableMedia)
    else if |s.found| == 1 then Ok(s.found[0].path)
    else
      var h := if IsBlank(hints.directory) then hints.(directory := dir) else hints;
      var k := select(s.found, h);
      if k != -1 then Ok(s.found[k].path) else Ok(s.found[BestIndex(s.found)].path)
  }

  /** `findBestMediaFile`. */
  method FindBestMediaFile(fs: Listing, dir: string, hints: SelectionHints,
                           select: (seq<Candidate>, SelectionHints) -> int) returns (r: Result<string, MediaError>)
    requires SelectorInRange(select)
    ensures r == BestMediaFile(fs, dir, hints, select)
  {
    var candidates, bestIdx, failed := ScanDirectory(fs, ServiceRules, dir, 0, [], -1);
    ghost var s := Scan(fs, ServiceRules, dir, 0);
    assert candidates == s.found && failed == s.failed;
    if failed {
      return Err(ScanFailed);
    }
    if |candidates| == 0 {
      return Err(NoPlayableMedia);
    }
    if |candidates| == 1 {
      return Ok(candidates[0].path);
    }
    var first := candidates[0];
    var selectorHints := hints;
    if Trim(selectorHints.directory) == "" {
      selectorHints := selectorHints.(directory := dir);
    }
    assert selectorHints == if IsBlank(hints.directory) then hints.(directory := dir) else hints;
    var selectedIdx := select(candidates, selectorHints);
    if selectedIdx != -1 {
      return Ok(candidates[selectedIdx].path);
    }
    if bestIdx != -1 {
      return Ok(candidates[bestIdx].path);
    }
    // bestIdx is set as soon as one candidate exists (BestIndex).
    assert false;
    return Ok(first.path);
  }

  /** The chosen file is always a found candidate; with the selector
      undecided it is the first of lowest extension priority. */
  lemma BestMediaFileMeaning(fs: Listing, dir: string, hints: SelectionHints,
                             select: (seq<Candidate>, SelectionHints) -> int)
    requires SelectorInRange(select)
    ensures var r := BestMediaFile(fs, dir, hints, select);
      var found := Scan(fs, ServiceRules, dir, 0).found;
      && (r.Ok? ==> exists c :: c in found && c.path == r.value)
      && (r == Err(NoPlayableMedia) <==> (!Scan(fs, ServiceRules, dir, 0).failed && found == []))
      && (r.Ok? && |found| >= 2
          && select(found, if IsBlank(hints.directory) then hints.(directory := dir) else hints) == -1 ==>
            exists b :: (0 <= b < |found| && found[b].path == r.value
                         && (forall k :: 0 <= k < |found| ==> found[b].priority <= found[k].priority)
                         && (forall k :: 0 <= k < b ==> found[b].priority < found[k].priority)))
  {
    var found := Scan(fs, ServiceRules, dir, 0).found;
    BestIndexMeaning(found);
    var r := BestMediaFile(fs, dir, hints, select);
    if r.Ok? {
      var h := if IsBlank(hints.directory) then hints.(directory := dir) else hints;
      var k := select(found, h);
      if |found| == 1 {
        assert found[0] in found;
      } else if k != -1 {
        assert found[k] in found;
      } else {
        assert found[BestIndex(found)] in found;
      }
    }
  }

  // ---------------------------------------------------------------------
  // Queue status
  // ---------------------------------------------------------------------

  /** `database.ImportQueueItem`, the fields read here. */
  datatype QueueItem = QueueItem(
    id: int,
    status: QueueStatus,
    fileSize: Option<int>,
    errorMessage: Option<string>,
    metadata: Option<string>,
    storagePath: Option<string>,
    nzbPath: string)

  datatype QueueError =
    | NzbSystemNotConfigured
    | ImporterNotConfigured
    | GetQueueItemFailed
    | QueueItemNotFound
    | QueueItemFailed(message: string)
    | MissingStoragePath
    | NoPlayableMediaFiles(cause: MediaError)
    | LoadSettingsFailed

  /** What the service reaches beyond the queue item: whether a metadata
      service is configured, its listings, the media selector and the
      configured WebDAV prefix (`None`: settings failed to load). */
  datatype Environment = Environment(
    metadataService: bool,
    listing: Listing,
    select: (seq<Candidate>, SelectionHints) -> int,
    webdavPrefix: Option<string>)

  /** `strings.TrimRight(prefix, "/")` followed by the path. */
  function PrefixedPath(prefix: string, p: string): string
  {
    TrimTrailingSlashes(prefix) + p
  }

  /** `buildResolutionFromCompletedItem`. */
  function BuildResolution(item: QueueItem, meta: QueueMetadata, env: Environment): Result<PlaybackResolution, QueueError>
    requires SelectorInRange(env.select)
  {
    if item.storagePath.None? || IsBlank(item.storagePath.value) then Err(MissingStoragePath)
    else
      var storagePath := Trim(item.storagePath.value);
      var media :=
        if env.metadataService && IsLikelyDirectory(storagePath) then
          BestMediaFile(env.listing, storagePath, SelectionHints(meta.sourceNZBPath, item.nzbPath, storagePath), env.select)
        else Ok(storagePath);
      if media.Err? then Err(NoPlayableMediaFiles(media.error))
      else
        var finalPath := if media.value != "" then media.value else storagePath;
        if env.webdavPrefix.None? then Err(LoadSettingsFailed)
        else
          var health := if IsBlank(meta.preflightHealth) then "healthy" else Trim(meta.preflightHealth);
          Ok(PlaybackResolution(item.id, PrefixedPath(env.webdavPrefix.value, finalPath), health,
                                item.fileSize.GetOr(0), Trim(meta.sourceNZBPath)))
  }

  /** `QueueStatus`: `nzbSystem` and `importer` say whether they are
      configured, `lookup` is the repository's answer (`Err`: it failed,
      `Ok(None)`: no such item) and `decode` the metadata's JSON decoder. */
  function QueueStatusResult(nzbSystem: bool, importer: bool, lookup: Result<Option<QueueItem>, ()>,
                             decode: string -> Option<QueueMetadata>, env: Environment): Result<PlaybackResolution, QueueError>
    requires SelectorInRange(env.select)
  {
    if !nzbSystem then Err(NzbSystemNotConfigured)
    else if !importer then Err(ImporterNotConfigured)
    else if lookup.Err? then Err(GetQueueItemFailed)
    else if lookup.value.None? then Err(QueueItemNotFound)
    else
      var item := lookup.value.value;
      var meta := ParseQueueMetadata(item.metadata, decode);
      match item.status
      case Failed =>
        var message := if item.errorMessage.Some? && !IsBlank(item.errorMessage.value) then Trim(item.errorMessage.value) else "unknown error";
        Err(QueueItemFailed(message))
      case Completed => BuildResolution(item, meta, env)
      case _ =>
        Ok(PlaybackResolution(item.id, "", QueueStatusToHealth(item.status), item.fileSize.GetOr(0), Trim(meta.sourceNZBPath)))
  }

  /** A failed item reports its trimmed message or "unknown error"; an item
      still in the queue reports its id, mapped health, size and trimmed
      source path with no WebDAV path; a completed one needs a storage path,
      reports "healthy" unless the metadata says otherwise, and is served
      under the trimmed prefix. */
  lemma QueueStatusMeaning(nzbSystem: bool, importer: bool, item: QueueItem,
                           decode: string -> Option<QueueMetadata>, env: Environment)
    requires SelectorInRange(env.select)
    ensures var r := QueueStatusResult(nzbSystem, importer, Ok(Some(item)), decode, env);
      var meta := ParseQueueMetadata(item.metadata, decode);
      && (nzbSystem && importer && item.status == Failed ==>
            (r.Err? && r.error.QueueItemFailed? && r.error.message != ""
             && (r.error.message == "unknown error" || r.error.message == Trim(item.errorMessage.value))))
      && (nzbSystem && importer && item.status !in {Failed, Completed} ==>
            (r.Ok? && r.value.queueID == item.id && r.value.webdavPath == "" && r.value.healthStatus == QueueStatusToHealth(item.status)
             && r.value.fileSize == item.fileSize.GetOr(0) && r.value.sourceNZBPath == Trim(meta.sourceNZBPath)))
      && (nzbSystem && importer && item.status == Completed && (item.storagePath.None? || IsBlank(item.storagePath.value)) ==>
            r == Err(MissingStoragePath))
      && (item.status == Completed && r.Ok? ==>
            (r.value.queueID == item.id && r.value.healthStatus != ""
             && (IsBlank(meta.preflightHealth) ==> r.value.healthStatus == "healthy")
             && env.webdavPrefix.Some? && HasPrefix(r.value.webdavPath, TrimTrailingSlashes(env.webdavPrefix.value))))
  {
    var meta := ParseQueueMetadata(item.metadata, decode);
    var r := QueueStatusResult(nzbSystem, importer, Ok(Some(item)), decode, env);
    if nzbSystem && importer && item.status == Failed && !(item.errorMessage.Some? && !IsBlank(item.errorMessage.value)) {
      assert r == Err(QueueItemFailed("unknown error"));
    }
  }

  /** A file path that names a playable file directly is not scanned: the
      completed item is served at its own storage path. */
  lemma CompletedFileServedDirectly(item: QueueItem, meta: QueueMetadata, env: Environment)
    requires SelectorInRange(env.select)
    requires item.storagePath.Some? && !IsBlank(item.storagePath.value)
    requires !IsLikelyDirectory(Trim(item.storagePath.value)) && env.webdavPrefix.Some?
    ensures BuildResolution(item, meta, env).Ok?
    ensures BuildResolution(item, meta, env).value.webdavPath
      == PrefixedPath(env.webdavPrefix.value, Trim(item.storagePath.value))
  {
  }

  // ---------------------------------------------------------------------
  // Directories
  // ---------------------------------------------------------------------

  /** `isLikelyDirectory`: a non-blank path that ends in "/", has no
      extension, or has one that is not playable. */
  function IsLikelyDirectory(p: string): bool
  {
    var trimmed := Trim(p);
    if trimmed == "" then false
    else if HasSuffix(trimmed, "/") then true
    else
      var ext := Lower(Ext(Base(trimmed)));
      if ext == "" then true
      else Lookup(PlayablePriority, ext).None?
  }

  /** The extension of a path is that of its last element. */
  lemma {:induction false} ExtOfLastElement(p: string, j: nat)
    requires 0 < j <= |p| && p[j - 1] == '/'
    ensures Ext(p[j..]) == Ext(p)
    decreases |p|
  {
    if j < |p| {
      var q := p[..|p| - 1];
      assert q[j..] == p[j..][..|p[j..]| - 1];
      if j < |p| - 1 {
        ExtOfLastElement(q, j);
      }
    }
  }

  /** The last element of a path that does not end in '/' follows its last '/'. */
  lemma BaseOfFile(p: string)
    requires p != [] && p[|p| - 1] != '/'
    ensures Base(p) == p[LastIndexChar(p, '/') + 1..]
  {
    assert TrimTrailingSlashes(p) == p;
  }

  /** The extension of `Base` is the extension of the path. */
  lemma BaseExt(p: string)
    requires p != [] && p[|p| - 1] != '/'
    ensures Ext(Base(p)) == Ext(p)
  {
    BaseOfFile(p);
    var i := LastIndexChar(p, '/');
    if i >= 0 {
      ExtOfLastElement(p, i + 1);
    } else {
      assert p[i + 1..] == p;
    }
  }

  /** A trimmed path that does not end in "/" is taken for a file exactly
      when its name has a playable extension, the extensions the scan
      collects; a blank path is never a directory. */
  lemma IsLikelyDirectoryMeaning(p: string)
    ensures IsBlank(p) ==> !IsLikelyDirectory(p)
    ensures !IsBlank(p) && HasSuffix(Trim(p), "/") ==> IsLikelyDirectory(p)
    ensures !IsBlank(p) && !HasSuffix(Trim(p), "/") ==> (IsLikelyDirectory(p) <==> Priority(Trim(p)).None?)
  {
    var trimmed := Trim(p);
    if trimmed != "" && !HasSuffix(trimmed, "/") {
      assert trimmed[|trimmed| - 1..] == [trimmed[|trimmed| - 1]];
      BaseExt(trimmed);
      if Lower(Ext(trimmed)) == "" {
        LookupAbsent(PlayablePriority, "");
      }
    }
  }

  // ---------------------------------------------------------------------
  // Resolving a usenet result
  // ---------------------------------------------------------------------

  /** The sum of a file's segment sizes. */
  function SegmentTotal(segments: seq<int>): int
  {
    if segments == [] then 0 else SegmentTotal(segments[..|segments| - 1]) + segments[|segments| - 1]
  }

  /** The largest file of a parsed NZB by the sum of its segment sizes, or 0. */
  function LargestFileSize(files: seq<seq<int>>): (r: int)
    ensures r >= 0
  {
    if files == [] then 0
    else
      var rest := LargestFileSize(files[..|files| - 1]);
      var size := SegmentTotal(files[|files| - 1]);
      if size > rest then size else rest
  }

  /** No file is larger than the result, and a positive result is the size
      of one of the files. */
  lemma {:induction false} LargestFileSizeMeaning(files: seq<seq<int>>)
    ensures forall i :: 0 <= i < |files| ==> SegmentTotal(files[i]) <= LargestFileSize(files)
    ensures LargestFileSize(files) == 0 || exists i :: 0 <= i < |files| && LargestFileSize(files) == SegmentTotal(files[i])
  {
    if files != [] {
      var init := files[..|files| - 1];
      LargestFileSizeMeaning(init);
      assert forall i :: 0 <= i < |init| ==> files[i] == init[i];
    }
  }

  /** The size loop of `Resolve` over the parsed NZB's files. */
  method NzbFileSize(files: seq<seq<int>>) returns (fileSize: int)
    ensures fileSize == LargestFileSize(files)
  {
    fileSize := 0;
    var i := 0;
    while i < |files|
      invariant 0 <= i <= |files|
      invariant fileSize == LargestFileSize(files[..i])
    {
      var segments := files[i];
      var size := 0;
      var j := 0;
      while j < |segments|
        invariant 0 <= j <= |segments|
        invariant size == SegmentTotal(segments[..j])
      {
        assert segments[..j + 1][..j] == segments[..j];
        size := size + segments[j];
        j := j + 1;
      }
      assert segments[..j] == segments;
      assert files[..i + 1][..i] == files[..i];
      if size > fileSize {
        fileSize := size;
      }
      i := i + 1;
    }
    assert files[..i] == files;
  }

  /** `models.NZBHealthCheck`, the fields `Resolve` reads. */
  datatype HealthCheck = HealthCheck(healthy: bool, status: string, fileName: string)

  /** What the NZB download gives: the Content-Disposition header, the
      path of the parsed download URL (`None`: it does not parse) and the
      NZB's files as segment sizes (`None`: the body is not a valid NZB). */
  datatype Fetched = Fetched(contentDisposition: string, urlPath: Option<string>, nzbFiles: Option<seq<seq<int>>>)

  /** The settings `Resolve` reads. */
  datatype UsenetSettings = UsenetSettings(skipHealthCheck: bool, webdavPrefix: string)

  datatype ResolveError =
    | DebridNotConfigured
    | DebridFailed
    | MissingDownloadUrl
    | FetchFailed
    | HealthCheckError
    | Unhealthy(status: string)
    | NzbSystemMissing
    | ProcessFailed

  /** The collaborators of `Resolve`: the debrid service's answer (`None`:
      no debrid service), the download, the configuration (`None`: it failed
      to load, and the zero configuration is used), whether a health service
      is configured and its answer, whether the NZB system is configured and
      the importer's storage path (`None`: processing failed). */
  datatype Services = Services(
    debrid: Option<Result<PlaybackResolution, ()>>,
    fetch: string -> Option<Fetched>,
    settings: Option<UsenetSettings>,
    healthService: bool,
    check: Result<Option<HealthCheck>, ()>,
    nzbSystem: bool,
    process: string -> Option<string>)

  /** The health status a check reports: trimmed, lowercased, "unknown" when blank. */
  function ReportedHealth(check: HealthCheck): (h: string)
    ensures h != ""
  {
    var h := Lower(Trim(check.status));
    if h == "" then "unknown" else h
  }

  /** `Resolve`. */
  function Resolve(candidate: NZBResult, svc: Services): Result<PlaybackResolution, ResolveError>
  {
    if candidate.serviceType == Debrid then
      if svc.debrid.None? then Err(DebridNotConfigured)
      else if svc.debrid.value.Err? then Err(DebridFailed)
      else Ok(svc.debrid.value.value)
    else
      var downloadURL := if IsBlank(candidate.downloadURL) then Trim(candidate.link) else Trim(candidate.downloadURL);
      if downloadURL == "" then Err(MissingDownloadUrl)
      else match svc.fetch(downloadURL)
      case None => Err(FetchFailed)
      case Some(fetched) =>
        var fileName := DeriveFileNameAsWritten(fetched.contentDisposition, fetched.urlPath, candidate.title);
        var cfg := svc.settings.GetOr(UsenetSettings(false, ""));
        var runCheck := !cfg.skipHealthCheck && svc.healthService;
        if runCheck && svc.check.Err? then Err(HealthCheckError)
        else
          var check := if runCheck then svc.check.value else None;
          if check.Some? && !check.value.healthy then Err(Unhealthy(ReportedHealth(check.value)))
          else if !svc.nzbSystem then Err(NzbSystemMissing)
          else match svc.process(fileName)
          case None => Err(ProcessFailed)
          case Some(storagePath) =>
            var sourceNZBPath := if check.Some? && !IsBlank(check.value.fileName) then Trim(check.value.fileName) else Trim(fileName);
            var fileSize := if fetched.nzbFiles.Some? then LargestFileSize(fetched.nzbFiles.value) else 0;
            Ok(PlaybackResolution(0, PrefixedPath(cfg.webdavPrefix, storagePath), "healthy", fileSize, sourceNZBPath))
  }

  /** A debrid result is handed to the debrid service unchanged; a usenet
      result needs a download URL (the trimmed link when the trimmed URL is
      blank); a skipped health check never fails the request, an unhealthy
      check always does with its reported status; and a resolved stream is
      healthy, under the configured prefix (none when the configuration did
      not load), sized by the largest NZB file, and named by the health
      check's file name when it has one. The NZB is processed under the name
      derived as written, and that name, trimmed, is the stream's source path
      unless a health check that ran reported a non-blank file name. */
  lemma ResolveMeaning(candidate: NZBResult, svc: Services)
    ensures var r := Resolve(candidate, svc);
      && (candidate.serviceType == Debrid && svc.debrid.Some? && svc.debrid.value.Ok? ==> r == Ok(svc.debrid.value.value))
      && (candidate.serviceType == Usenet && IsBlank(candidate.downloadURL) && IsBlank(candidate.link) ==> r == Err(MissingDownloadUrl))
      && (svc.settings.Some? && svc.settings.value.skipHealthCheck ==> !r.Err? || (r.error != HealthCheckError && !r.error.Unhealthy?))
      && (candidate.serviceType == Usenet && r.Ok? ==>
            (r.value.healthStatus == "healthy" && r.value.queueID == 0 && r.value.fileSize >= 0
             && HasPrefix(r.value.webdavPath, TrimTrailingSlashes(if svc.settings.Some? then svc.settings.value.webdavPrefix else ""))))
      && (r.Err? && r.error.Unhealthy? ==> r.error.status != "")
      && (candidate.serviceType == Usenet && r.Ok? ==>
            var url := if IsBlank(candidate.downloadURL) then Trim(candidate.link) else Trim(candidate.downloadURL);
            var fetched := svc.fetch(url).value;
            var name := DeriveFileNameAsWritten(fetched.contentDisposition, fetched.urlPath, candidate.title);
            var ranCheck := !(svc.settings.Some? && svc.settings.value.skipHealthCheck) && svc.healthService;
            var named := ranCheck && svc.check.Ok? && svc.check.value.Some? && !IsBlank(svc.check.value.value.fileName);
            && svc.fetch(url).Some? && svc.nzbSystem && svc.process(name).Some?
            && r.value.webdavPath == PrefixedPath(if svc.settings.Some? then svc.settings.value.webdavPrefix else "", svc.process(name).value)
            && r.value.sourceNZBPath == (if named then Trim(svc.check.value.value.fileName) else Trim(name)))
  {
  }

  /** A usenet result that resolves is sized by the largest file of its NZB. */
  lemma ResolvedSizeIsLargestFile(candidate: NZBResult, svc: Services, files: seq<seq<int>>)
    requires candidate.serviceType == Usenet
    requires var url := if IsBlank(candidate.downloadURL) then Trim(candidate.link) else Trim(candidate.downloadURL);
      svc.fetch(url).Some? && svc.fetch(url).value.nzbFiles == Some(files)
    requires Resolve(candidate, svc).Ok?
    ensures forall i :: 0 <= i < |files| ==> SegmentTotal(files[i]) <= Resolve(candidate, svc).value.fileSize
  {
    LargestFileSizeMeaning(files);
  }
}
