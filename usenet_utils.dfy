/**
 * File-name extension helpers and the newsgroup summary of a segment range
 * (backend/internal/usenet/utils.go).
 */
module UsenetUtils {
  import opened Strs
  import opened UsenetSegment

  const NzbExtension: string := ".nzb"
  const StrmExtension: string := ".strm"
  const Par2Extension: string := ".par2"

  /** A single file-name extension: a '.' followed by characters that are
      neither '.' nor '/'. */
  predicate IsExt(x: string)
  {
    |x| >= 1 && x[0] == '.' && NoChar(x, '/') && forall k :: 1 <= k < |x| ==> x[k] != '.'
  }

  lemma MetadataExtensionsAreExts()
    ensures IsExt(NzbExtension) && IsExt(StrmExtension)
  {
    assert forall k :: 0 <= k < |NzbExtension| ==> NzbExtension[k] in {'.', 'n', 'z', 'b'};
    assert forall k :: 0 <= k < |StrmExtension| ==> StrmExtension[k] in {'.', 's', 't', 'r', 'm'};
  }

  /** Appending an extension to a name makes it the name's extension. */
  lemma {:induction false} ExtOfAppend(stem: string, x: string)
    requires IsExt(x)
    ensures Ext(stem + x) == x
    decreases |x|
  {
    if |x| > 1 {
      var x' := x[..|x| - 1];
      ExtOfAppend(stem, x');
      assert (stem + x)[..|stem + x| - 1] == stem + x';
      assert (stem + x)[|stem + x| - 1] == x[|x| - 1];
      assert x' + [x[|x| - 1]] == x;
    }
  }

  /** `GetRealFileExtension`: the extension under the last one, as in
      "movie.mkv.nzb" giving ".mkv". */
  function GetRealFileExtension(name: string): (r: string)
    ensures r == [] || (r[0] == '.' && NoChar(r, '/'))
  {
    Ext(TrimSuffix(name, Ext(name)))
  }

  /** `ReplaceFileExtension`: drop the last extension and append `extension`. */
  function ReplaceFileExtension(name: string, extension: string): (r: string)
    ensures r == TrimSuffix(name, Ext(name)) + extension
    ensures r[..|r| - |extension|] + Ext(name) == name
  {
    ExtSplit(name);
    TrimSuffix(name, Ext(name)) + extension
  }

  /** `AddNzbExtension`. */
  function AddNzbExtension(name: string): (r: string)
    ensures |r| == |name| + 4 && r[..|name|] == name && HasSuffix(r, NzbExtension)
  {
    SuffixOfConcat(name, NzbExtension);
    name + NzbExtension
  }

  /** `AddStrmExtension`. */
  function AddStrmExtension(name: string): (r: string)
    ensures |r| == |name| + 5 && r[..|name|] == name && HasSuffix(r, StrmExtension)
  {
    SuffixOfConcat(name, StrmExtension);
    name + StrmExtension
  }

  /** Replacing the extension with itself gives back the name, and replacing it
      with a proper extension makes that the new extension. */
  lemma ReplaceFileExtensionProperties(name: string, extension: string)
    ensures ReplaceFileExtension(name, Ext(name)) == name
    ensures IsExt(extension) ==> Ext(ReplaceFileExtension(name, extension)) == extension
  {
    ExtSplit(name);
    if IsExt(extension) {
      ExtOfAppend(TrimSuffix(name, Ext(name)), extension);
    }
  }

  /** Removing a known extension from a name that ends with it gives the stem. */
  lemma TrimAppendedExt(name: string, x: string)
    requires IsExt(x)
    ensures Ext(name + x) == x && TrimSuffix(name + x, x) == name
  {
    ExtOfAppend(name, x);
    SuffixOfConcat(name, x);
    assert (name + x)[..|name + x| - |x|] == name;
  }

  /** The real extension of a stored metadata name is the extension of the
      name it was made from: "movie.mkv" + ".nzb" gives ".mkv". */
  lemma RealExtensionOfMetadataName(name: string)
    ensures GetRealFileExtension(AddNzbExtension(name)) == Ext(name)
    ensures GetRealFileExtension(AddStrmExtension(name)) == Ext(name)
  {
    MetadataExtensionsAreExts();
    StoredNameStem(name, NzbExtension);
    StoredNameStem(name, StrmExtension);
  }

  /** A stored name with a metadata extension loses exactly that extension. */
  lemma StoredNameStem(name: string, x: string)
    requires IsExt(x)
    ensures var full := name + x; TrimSuffix(full, Ext(full)) == name
  {
    var full := name + x;
    TrimAppendedExt(name, x);
    assert Ext(full) == x;
  }

  /** `RemoveMetadataExtension`. `hasMimeType(ext)` stands for
      `mime.TypeByExtension(ext) != ""`. */
  function RemoveMetadataExtension(name: string, trueExtension: string, hasMimeType: string -> bool): (r: string)
    ensures var n := if HasSuffix(name, NzbExtension) || HasSuffix(name, StrmExtension)
                     then TrimSuffix(name, Ext(name)) else name;
      (hasMimeType(Ext(n)) || Ext(n) == trueExtension) ==> r == n
    ensures var n := if HasSuffix(name, NzbExtension) || HasSuffix(name, StrmExtension)
                     then TrimSuffix(name, Ext(name)) else name;
      !(hasMimeType(Ext(n)) || Ext(n) == trueExtension) ==> r == n + trueExtension
  {
    var n := if HasSuffix(name, NzbExtension) || HasSuffix(name, StrmExtension)
             then TrimSuffix(name, Ext(name)) else name;
    var fExt := Ext(n);
    if hasMimeType(fExt) || fExt == trueExtension then n else n + trueExtension
  }

  /** Stripping the metadata extension from a stored name gives back the
      original name when the true extension is that name's own extension. */
  lemma RemoveMetadataExtensionRoundTrip(name: string, hasMimeType: string -> bool)
    ensures RemoveMetadataExtension(AddNzbExtension(name), Ext(name), hasMimeType) == name
    ensures RemoveMetadataExtension(AddStrmExtension(name), Ext(name), hasMimeType) == name
  {
    MetadataExtensionsAreExts();
    StoredNameStem(name, NzbExtension);
    StoredNameStem(name, StrmExtension);
    SuffixOfConcat(name, NzbExtension);
    SuffixOfConcat(name, StrmExtension);
  }

  // ---------------------------------------------------------------------------
  // SummarizeGroups.
  // ---------------------------------------------------------------------------

  /** Every group listing of the segments, in order. */
  function AllGroups(segs: seq<Segment>): seq<string>
  {
    if segs == [] then [] else AllGroups(segs[..|segs| - 1]) + segs[|segs| - 1].groups
  }

  function Inc(m: map<string, int>, g: string): map<string, int>
  {
    m[g := if g in m then m[g] + 1 else 1]
  }

  /** The number of occurrences of each group. */
  function Tally(xs: seq<string>): map<string, int>
  {
    if xs == [] then map[] else Inc(Tally(xs[..|xs| - 1]), xs[|xs| - 1])
  }

  /** Tally counts exactly the occurrences: its keys are the listed groups and
      each maps to how often it is listed. */
  lemma {:induction false} TallyCounts(xs: seq<string>)
    ensures forall g :: g in Tally(xs) <==> g in multiset(xs)
    ensures forall g :: g in Tally(xs) ==> Tally(xs)[g] == multiset(xs)[g]
  {
    if xs != [] {
      var init := xs[..|xs| - 1];
      TallyCounts(init);
      assert xs == init + [xs[|xs| - 1]];
    }
  }

  lemma TallySnoc(xs: seq<string>, g: string)
    ensures Tally(xs + [g]) == Inc(Tally(xs), g)
  {
    assert (xs + [g])[..|xs|] == xs;
  }

  /** One "group:count" part. */
  function Part(g: string, counts: map<string, int>): string
  {
    Trim(g) + ":" + IntToString(if g in counts then counts[g] else 0)
  }

  function Parts(order: seq<string>, counts: map<string, int>): (r: seq<string>)
    ensures |r| == |order|
  {
    if order == [] then [] else Parts(order[..|order| - 1], counts) + [Part(order[|order| - 1], counts)]
  }

  predicate Distinct(s: seq<string>)
  {
    forall i, j :: 0 <= i < j < |s| ==> s[i] != s[j]
  }

  /** The inner counting loop: adds one segment's groups to the tally. */
  method CountGroups(counts: map<string, int>, ghost before: seq<string>, gs: seq<string>)
    returns (c: map<string, int>)
    requires counts == Tally(before)
    ensures c == Tally(before + gs)
  {
    c := counts;
    var j := 0;
    assert before + gs[..0] == before;
    while j < |gs|
      invariant 0 <= j <= |gs|
      invariant c == Tally(before + gs[..j])
    {
      TallySnoc(before + gs[..j], gs[j]);
      assert before + gs[..j + 1] == before + gs[..j] + [gs[j]];
      c := Inc(c, gs[j]);
      j := j + 1;
    }
    assert gs[..j] == gs;
  }

  /** The formatting loop: one part per counted group, in visiting order. */
  method FormatParts(counts: map<string, int>) returns (parts: seq<string>, ghost order: seq<string>)
    ensures Distinct(order) && (set g | g in order) == counts.Keys
    ensures parts == Parts(order, counts)
  {
    order := [];
    parts := [];
    var rest := counts.Keys;
    while rest != {}
      invariant rest <= counts.Keys
      invariant Distinct(order)
      invariant forall g :: g in order <==> g in counts.Keys && g !in rest
      invariant parts == Parts(order, counts)
      decreases |rest|
    {
      var g :| g in rest;
      parts := parts + [Trim(g) + ":" + IntToString(counts[g])];
      assert (order + [g])[..|order|] == order;
      order := order + [g];
      rest := rest - {g};
    }
  }

  /** `SummarizeGroups`: "none" when no segment lists a group, otherwise one
      "group:count" part per distinct group, comma-joined, in the (unspecified)
      order in which the groups are visited, which `order` records. */
  method SummarizeGroups(r: SegmentRange) returns (summary: string, ghost order: seq<string>)
    ensures var counts := Tally(AllGroups(r.segments));
      && (counts == map[] ==> summary == "none")
      && (counts != map[] ==>
            Distinct(order) && (set g | g in order) == counts.Keys
            && summary == Join(Parts(order, counts), ","))
  {
    var counts: map<string, int> := map[];
    var i := 0;
    while i < |r.segments|
      invariant 0 <= i <= |r.segments|
      invariant counts == Tally(AllGroups(r.segments[..i]))
    {
      assert AllGroups(r.segments[..i + 1]) == AllGroups(r.segments[..i]) + r.segments[i].groups by {
        assert r.segments[..i + 1][..i] == r.segments[..i];
      }
      counts := CountGroups(counts, AllGroups(r.segments[..i]), r.segments[i].groups);
      i := i + 1;
    }
    assert r.segments[..i] == r.segments;
    if counts == map[] {
      return "none", [];
    }
    var parts;
    parts, order := FormatParts(counts);
    summary := Join(parts, ",");
  }

  /** The summary is "none" exactly when no segment lists a group, and the
      count of a group is the number of times the segments list it. */
  lemma SummaryCounts(segs: seq<Segment>)
    ensures Tally(AllGroups(segs)) == map[] <==> AllGroups(segs) == []
    ensures forall g :: g in Tally(AllGroups(segs)) ==> Tally(AllGroups(segs))[g] == multiset(AllGroups(segs))[g]
  {
    var xs := AllGroups(segs);
    TallyCounts(xs);
    if xs != [] {
      assert xs[0] in multiset(xs);
    }
  }
}
