/**
 * Usenet segments (backend/internal/usenet/segment.go): the per-segment byte
 * window and read accounting, the cursor over a range of segments, the reader
 * that skips a segment's leading bytes, and the construction of a segment range
 * from stored file metadata.
 *
 * Byte offsets are Go int64 values; they are modelled as unbounded integers.
 */
module UsenetSegment {
  import opened Wrappers

  /** Reads that begin at or beyond this physical offset hit the NNTP buffer limit. */
  const NntpBufferLimitBytes: int := 2 * 1024 * 1024

  datatype SegError = ErrSegmentLimit

  /** The value view of a segment: its identity, its inclusive window inside the
      physical segment, the physical size, its newsgroups and its read window. */
  datatype Span = Span(id: string, start: int, end: int, segmentSize: int,
                       groups: seq<string>, maxReadWindow: int)

  /** End-Start+1 of a span. */
  function SpanLen(sp: Span): int
  {
    sp.end - sp.start + 1
  }

  /** The total of End-Start+1 over a list of spans. */
  function SumLen(spans: seq<Span>): int
  {
    if spans == [] then 0 else SumLen(spans[..|spans| - 1]) + SpanLen(spans[|spans| - 1])
  }

  /** One segment being downloaded: an object whose window and counters change
      while it is read. */
  class Segment {
    const id: string
    const start: int
    const groups: seq<string>
    var end: int
    var segmentSize: int
    var maxReadWindow: int
    var boundBytes: int
    var bytesRead: int
    /** The segment still holds its reader and writer pipes (not yet closed). */
    var open: bool

    constructor (sp: Span)
      ensures View() == sp
      ensures bytesRead == 0 && boundBytes == 0 && open
    {
      id, start, groups := sp.id, sp.start, sp.groups;
      end, segmentSize, maxReadWindow := sp.end, sp.segmentSize, sp.maxReadWindow;
      bytesRead, boundBytes, open := 0, 0, true;
    }

    function View(): Span
      reads this
    {
      Span(id, start, end, segmentSize, groups, maxReadWindow)
    }

    /** `Length`: the number of bytes in the inclusive window. */
    function Length(): (n: int)
      reads this
      ensures n == SpanLen(View())
    {
      end - start + 1
    }

    /** `IsComplete`: at least the whole window has been read. */
    predicate IsComplete()
      reads this
    {
      bytesRead >= Length()
    }

    /** `IsIncomplete`: some but not all of a non-empty window has been read. */
    predicate IsIncomplete()
      reads this
    {
      if Length() <= 0 || bytesRead <= 0 then false else bytesRead < Length()
    }

    /** `hitNNTPBufferLimit`: a partial read that stopped at or past the 2 MiB
        physical offset of a segment that extends beyond it. */
    predicate HitNNTPBufferLimit(read: int)
      reads this
    {
      if read <= 0 then false
      else if read >= Length() then false
      else if read + start < NntpBufferLimitBytes then false
      else start + Length() > NntpBufferLimitBytes
    }

    /** `adjustToBytesRead`: shrink or grow the window to what was actually read.
        `decoderPartSize` is the part size the yEnc decoder reported, 0 when
        there is no decoder or it reported none. */
    method AdjustToBytesRead(total: int, decoderPartSize: int)
      modifies this
      ensures var t := if total < 0 then 0 else total;
        boundBytes == t && maxReadWindow == t && end == start + t - 1
        && segmentSize == (if decoderPartSize > 0 then decoderPartSize else t)
      ensures Length() == (if total < 0 then 0 else total)
      ensures bytesRead == old(bytesRead) && open == old(open)
    {
      var t := total;
      if t < 0 {
        t := 0;
      }
      boundBytes := t;
      maxReadWindow := t;
      if t == 0 {
        end := start - 1;
      } else {
        end := start + t - 1;
      }
      if decoderPartSize > 0 {
        segmentSize := decoderPartSize;
      } else {
        segmentSize := t;
      }
      boundBytes := t;
    }

    /** `addBytesRead`: count `n` more bytes read; non-positive counts are ignored. */
    method AddBytesRead(n: int)
      modifies this`bytesRead
      ensures bytesRead == old(bytesRead) + (if n > 0 then n else 0)
    {
      if n <= 0 {
        return;
      }
      bytesRead := bytesRead + n;
    }

    /** `Close`: release the decoder and the pipes. Closing a pipe cannot fail
        in the model. */
    method Close()
      modifies this`open
      ensures !open
    {
      open := false;
    }
  }

  /** A segment is never complete and incomplete at once. */
  lemma CompleteExcludesIncomplete(s: Segment)
    ensures !(s.IsComplete() && s.IsIncomplete())
    ensures s.IsIncomplete() <==> 0 < s.bytesRead < s.Length()
  {
  }

  /** What a hit of the buffer limit says about the read and the window. */
  lemma BufferLimitMeaning(s: Segment, read: int)
    ensures s.HitNNTPBufferLimit(read) <==>
      0 < read < s.Length() && s.start + read >= NntpBufferLimitBytes
      && s.start + s.Length() > NntpBufferLimitBytes
  {
  }

  function Spans(segs: seq<Segment>): (r: seq<Span>)
    reads segs
    ensures |r| == |segs|
  {
    if segs == [] then [] else Spans(segs[..|segs| - 1]) + [segs[|segs| - 1].View()]
  }

  lemma SpansOfViews(segs: seq<Segment>, spans: seq<Span>)
    requires |segs| == |spans|
    requires forall k :: 0 <= k < |segs| ==> segs[k].View() == spans[k]
    ensures Spans(segs) == spans
  {
    if segs != [] {
      SpansOfViews(segs[..|segs| - 1], spans[..|spans| - 1]);
    }
  }

  /** A range of segments with a cursor (`segmentRange`). */
  class SegmentRange {
    var start: int
    var end: int
    var segments: seq<Segment>
    var current: nat

    constructor (start: int, end: int, segments: seq<Segment>)
      ensures this.start == start && this.end == end
      ensures this.segments == segments && current == 0
    {
      this.start, this.end, this.segments, current := start, end, segments, 0;
    }

    /** `Get`: the segment under the cursor, or ErrSegmentLimit past the end. */
    function Get(): (r: Result<Segment, SegError>)
      reads this
      ensures r.Err? <==> current >= |segments|
      ensures r.Ok? ==> r.value == segments[current]
    {
      if current >= |segments| then Err(ErrSegmentLimit) else Ok(segments[current])
    }

    /** `Next`: close the segment under the cursor and advance to the next one. */
    method Next() returns (r: Result<Segment, SegError>)
      modifies this, segments
      ensures segments == old(segments) && start == old(start) && end == old(end)
      ensures old(current) >= |segments| ==> r == Err(ErrSegmentLimit) && current == old(current)
      ensures old(current) < |segments| ==>
        current == old(current) + 1 && !segments[old(current)].open && r == Get()
      ensures forall k :: 0 <= k < |segments| && (old(current) >= |segments| || segments[k] != segments[old(current)]) ==>
        segments[k].open == old(segments[k].open)
      ensures forall k :: 0 <= k < |segments| ==>
        segments[k].View() == old(segments[k].View()) && segments[k].bytesRead == old(segments[k].bytesRead)
        && segments[k].boundBytes == old(segments[k].boundBytes)
    {
      if current >= |segments| {
        return Err(ErrSegmentLimit);
      }
      segments[current].Close();
      current := current + 1;
      r := Get();
    }

    /** `Clear`: close every segment and drop them all. */
    method Clear()
      modifies this, segments
      ensures segments == [] && current == old(current)
      ensures start == old(start) && end == old(end)
      ensures forall k :: 0 <= k < |old(segments)| ==> !old(segments)[k].open
      ensures forall k :: 0 <= k < |old(segments)| ==>
        old(segments)[k].View() == old(segments[k].View()) && old(segments)[k].bytesRead == old(segments[k].bytesRead)
        && old(segments)[k].boundBytes == old(segments[k].boundBytes)
    {
      var i := 0;
      while i < |segments|
        // a segment closed in one step stays closed (an object may appear twice)
        invariant 0 <= i <= |segments|
        invariant segments == old(segments) && current == old(current)
        invariant start == old(start) && end == old(end)
        invariant forall k :: 0 <= k < i ==> !segments[k].open
        invariant forall k :: 0 <= k < |segments| ==>
          segments[k].View() == old(segments[k].View()) && segments[k].bytesRead == old(segments[k].bytesRead)
          && segments[k].boundBytes == old(segments[k].boundBytes)
      {
        segments[i].Close();
        i := i + 1;
      }
      segments := [];
    }
  }

  // ---------------------------------------------------------------------------
  // Building a range from stored metadata (buildSegmentRangeWithLimit).
  // ---------------------------------------------------------------------------

  /** One stored segment: its decoded offsets (0/0 when not precomputed) and
      its encoded size. */
  datatype SegmentData = SegmentData(id: string, startOffset: int, endOffset: int, segmentSize: int)

  datatype FileMetadata = FileMetadata(fileSize: int, segmentData: seq<SegmentData>, sourceNzbPath: string)

  /** Go's integer division, which truncates toward zero. */
  function GoDiv(a: int, b: int): int
    requires b > 0
  {
    if a >= 0 then a / b else -((-a) / b)
  }

  /** The decoded size of a stored segment: the precomputed window when there is
      one, else 97% of the encoded size, falling back to the encoded size. */
  function DecodedSize(seg: SegmentData): (n: int)
    ensures n <= 0 ==> n == seg.segmentSize
    ensures (seg.startOffset > 0 || seg.endOffset > 0) && seg.endOffset - seg.startOffset + 1 > 0
      ==> n == seg.endOffset - seg.startOffset + 1
    ensures !(seg.startOffset > 0 || seg.endOffset > 0) && GoDiv(seg.segmentSize * 97, 100) > 0
      ==> n == seg.segmentSize * 97 / 100
  {
    var est := if seg.startOffset > 0 || seg.endOffset > 0
      then seg.endOffset - seg.startOffset + 1
      else GoDiv(seg.segmentSize * 97, 100);
    if est <= 0 then seg.segmentSize else est
  }

  predicate SortedByStart(s: seq<SegmentData>)
  {
    forall i, j :: 0 <= i < j < |s| ==> s[i].startOffset <= s[j].startOffset
  }

  /** Insert `x` into a list sorted by StartOffset, after every entry with an
      equal offset. */
  function InsertByStart(x: SegmentData, s: seq<SegmentData>): seq<SegmentData>
  {
    if s == [] then [x]
    else if x.startOffset < s[0].startOffset then [x] + s
    else [s[0]] + InsertByStart(x, s[1..])
  }

  /** The segments in ascending StartOffset order (`sort.Slice`). */
  function SortByStart(s: seq<SegmentData>): seq<SegmentData>
  {
    if s == [] then [] else InsertByStart(s[|s| - 1], SortByStart(s[..|s| - 1]))
  }

  lemma {:induction false} InsertByStartElems(x: SegmentData, s: seq<SegmentData>)
    ensures multiset(InsertByStart(x, s)) == multiset(s) + multiset{x}
  {
    if s != [] && x.startOffset >= s[0].startOffset {
      InsertByStartElems(x, s[1..]);
      assert s == [s[0]] + s[1..];
      assert InsertByStart(x, s) == [s[0]] + InsertByStart(x, s[1..]);
    }
  }

  /** Inserting an entry at or above a bound into entries at or above it
      keeps every entry at or above it. */
  lemma {:induction false} InsertByStartAbove(x: SegmentData, s: seq<SegmentData>, b: int)
    requires x.startOffset >= b && forall k :: 0 <= k < |s| ==> s[k].startOffset >= b
    ensures forall k :: 0 <= k < |InsertByStart(x, s)| ==> InsertByStart(x, s)[k].startOffset >= b
  {
    if s != [] && x.startOffset >= s[0].startOffset {
      InsertByStartAbove(x, s[1..], b);
      var t := InsertByStart(x, s[1..]);
      assert InsertByStart(x, s) == [s[0]] + t;
      assert forall k :: 1 <= k < |t| + 1 ==> ([s[0]] + t)[k] == t[k - 1];
    }
  }

  lemma {:induction false} InsertByStartSorted(x: SegmentData, s: seq<SegmentData>)
    requires SortedByStart(s)
    ensures SortedByStart(InsertByStart(x, s))
  {
    if s != [] && x.startOffset >= s[0].startOffset {
      var t := InsertByStart(x, s[1..]);
      InsertByStartSorted(x, s[1..]);
      InsertByStartAbove(x, s[1..], s[0].startOffset);
      assert InsertByStart(x, s) == [s[0]] + t;
      assert forall k :: 1 <= k < |t| + 1 ==> ([s[0]] + t)[k] == t[k - 1];
    }
  }

  lemma {:induction false} SortByStartSorted(s: seq<SegmentData>)
    ensures SortedByStart(SortByStart(s))
  {
    if s != [] {
      SortByStartSorted(s[..|s| - 1]);
      InsertByStartSorted(s[|s| - 1], SortByStart(s[..|s| - 1]));
    }
  }

  lemma {:induction false} SortByStartElems(s: seq<SegmentData>)
    ensures multiset(SortByStart(s)) == multiset(s)
  {
    if s != [] {
      var init, last := s[..|s| - 1], s[|s| - 1];
      SortByStartElems(init);
      InsertByStartElems(last, SortByStart(init));
      assert s == init + [last];
    }
  }

  /** The builder visits the segments sorted by StartOffset, and visits each of
      them exactly once. */
  lemma SortByStartCorrect(s: seq<SegmentData>)
    ensures SortedByStart(SortByStart(s))
    ensures multiset(SortByStart(s)) == multiset(s)
  {
    SortByStartSorted(s);
    SortByStartElems(s);
  }

  /** The requested end, clamped to the last byte when negative or past the file. */
  function ClampEnd(end: int, fileSize: int): (e: int)
    ensures e == end || e == fileSize - 1
    ensures fileSize > 0 ==> -1 < e < fileSize
  {
    if end < 0 || end >= fileSize then fileSize - 1 else end
  }

  /** Where one stored segment falls relative to the request. */
  datatype Placement =
    | Unusable                              // no positive decoded size: skipped in place
    | Before(size: int)                     // ends before the requested start
    | Within(span: Span, segEnd: int)       // contributes `span`; ends at file offset segEnd

  /** The body of the builder loop for one segment at file offset `offset`. */
  function Place(seg: SegmentData, groups: map<string, seq<string>>,
                 offset: int, start: int, end: int): (p: Placement)
    ensures p.Before? ==> p.size == DecodedSize(seg) > 0
    ensures p.Within? ==> var size := DecodedSize(seg);
      size > 0 && p.segEnd == offset + size - 1 && start <= p.segEnd
      && p.span.id == seg.id && p.span.segmentSize == size && p.span.maxReadWindow == 0
      && p.span.start == (if start > offset then start - offset else 0)
      && p.span.end == (if end >= 0 && end < p.segEnd then end - offset else size - 1)
  {
    var size := DecodedSize(seg);
    if size <= 0 then Unusable
    else
      var segEnd := offset + size - 1;
      if start > segEnd then Before(size)
      else
        var so := if start > offset then start - offset else 0;
        var eo := if end >= 0 && end < segEnd then end - offset else size - 1;
        var g := if seg.id in groups then groups[seg.id] else [];
        Within(Span(seg.id, so, eo, size, g, 0), segEnd)
  }

  /** The loop of buildSegmentRangeWithLimit from position `i` of the sorted
      segments, with `offset` the file offset of segment `i` and `acc` the spans
      built so far; gives the final list of spans. */
  function BuildFrom(segs: seq<SegmentData>, groups: map<string, seq<string>>,
                     start: int, end: int, maxSegments: int,
                     i: nat, offset: int, acc: seq<Span>): seq<Span>
    requires i <= |segs|
    decreases |segs| - i
  {
    if i == |segs| then acc
    else
      match Place(segs[i], groups, offset, start, end)
      case Unusable => BuildFrom(segs, groups, start, end, maxSegments, i + 1, offset, acc)
      case Before(size) => BuildFrom(segs, groups, start, end, maxSegments, i + 1, offset + size, acc)
      case Within(sp, segEnd) =>
        if maxSegments > 0 && |acc| + 1 >= maxSegments then acc + [sp]
        else if end >= 0 && segEnd >= end then acc + [sp]
        else BuildFrom(segs, groups, start, end, maxSegments, i + 1, segEnd + 1, acc + [sp])
  }

  /** The spans buildSegmentRangeWithLimit builds for a file (none for nil metadata). */
  function BuildPlan(meta: Option<FileMetadata>, groups: map<string, seq<string>>,
                     start: int, end: int, maxSegments: int): seq<Span>
  {
    if meta.None? then []
    else
      var segs := SortByStart(meta.value.segmentData);
      BuildFrom(segs, groups, start, ClampEnd(end, meta.value.fileSize), maxSegments, 0, 0, [])
  }

  /** A span lies inside its physical segment: its window starts within the
      segment and does not run past its last byte. */
  predicate InsideSegment(sp: Span)
  {
    0 <= sp.start < sp.segmentSize && sp.end <= sp.segmentSize - 1
  }

  /** With a positive limit, the loop stops once the limit is reached. */
  lemma {:induction false} BuildFromBound(segs: seq<SegmentData>, groups: map<string, seq<string>>,
                                          start: int, end: int, maxSegments: int,
                                          i: nat, offset: int, acc: seq<Span>)
    requires i <= |segs| && maxSegments > 0 && |acc| < maxSegments
    ensures |BuildFrom(segs, groups, start, end, maxSegments, i, offset, acc)| <= maxSegments
    decreases |segs| - i
  {
    if i < |segs| {
      match Place(segs[i], groups, offset, start, end)
      case Unusable => BuildFromBound(segs, groups, start, end, maxSegments, i + 1, offset, acc);
      case Before(size) => BuildFromBound(segs, groups, start, end, maxSegments, i + 1, offset + size, acc);
      case Within(sp, segEnd) =>
        if !(|acc| + 1 >= maxSegments) && !(end >= 0 && segEnd >= end) {
          BuildFromBound(segs, groups, start, end, maxSegments, i + 1, segEnd + 1, acc + [sp]);
        }
    }
  }

  /** Every span the loop emits lies inside its segment and has a zero read
      window; the spans already built are kept in front. */
  lemma {:induction false} BuildFromInside(segs: seq<SegmentData>, groups: map<string, seq<string>>,
                                           start: int, end: int, maxSegments: int,
                                           i: nat, offset: int, acc: seq<Span>)
    requires i <= |segs|
    requires forall k :: 0 <= k < |acc| ==> InsideSegment(acc[k]) && acc[k].maxReadWindow == 0
    ensures var r := BuildFrom(segs, groups, start, end, maxSegments, i, offset, acc);
      acc <= r && forall k :: 0 <= k < |r| ==> InsideSegment(r[k]) && r[k].maxReadWindow == 0
    decreases |segs| - i
  {
    if i < |segs| {
      match Place(segs[i], groups, offset, start, end)
      case Unusable => BuildFromInside(segs, groups, start, end, maxSegments, i + 1, offset, acc);
      case Before(size) => BuildFromInside(segs, groups, start, end, maxSegments, i + 1, offset + size, acc);
      case Within(sp, segEnd) =>
        if !(maxSegments > 0 && |acc| + 1 >= maxSegments) && !(end >= 0 && segEnd >= end) {
          BuildFromInside(segs, groups, start, end, maxSegments, i + 1, segEnd + 1, acc + [sp]);
        }
    }
  }

  /** What the built range holds: at most `maxSegments` segments when that is
      positive, each window inside its segment with a zero read window, and
      nothing for nil metadata. */
  lemma BuildPlanProperties(meta: Option<FileMetadata>, groups: map<string, seq<string>>,
                            start: int, end: int, maxSegments: int)
    ensures meta.None? ==> BuildPlan(meta, groups, start, end, maxSegments) == []
    ensures maxSegments > 0 ==> |BuildPlan(meta, groups, start, end, maxSegments)| <= maxSegments
    ensures var r := BuildPlan(meta, groups, start, end, maxSegments);
      forall k :: 0 <= k < |r| ==> InsideSegment(r[k]) && r[k].maxReadWindow == 0
  {
    if meta.Some? {
      var segs := SortByStart(meta.value.segmentData);
      SortByStartCorrect(meta.value.segmentData);
      var e := ClampEnd(end, meta.value.fileSize);
      PlanPropertiesAnyOrder(meta.value.segmentData, segs, groups, start, e, maxSegments);
      assert BuildPlan(meta, groups, start, end, maxSegments) == BuildFrom(segs, groups, start, e, maxSegments, 0, 0, []);
    }
  }

  /** `sort.Slice` is not stable, so stored segments with equal StartOffsets
      may be visited in any order. The same bounds hold for every
      StartOffset-sorted arrangement of the stored segments. */
  lemma PlanPropertiesAnyOrder(data: seq<SegmentData>, segs: seq<SegmentData>, groups: map<string, seq<string>>,
                               start: int, e: int, maxSegments: int)
    requires SortedByStart(segs) && multiset(segs) == multiset(data)
    ensures maxSegments > 0 ==> |BuildFrom(segs, groups, start, e, maxSegments, 0, 0, [])| <= maxSegments
    ensures var r := BuildFrom(segs, groups, start, e, maxSegments, 0, 0, []);
      forall k :: 0 <= k < |r| ==> InsideSegment(r[k]) && r[k].maxReadWindow == 0
  {
    if maxSegments > 0 {
      BuildFromBound(segs, groups, start, e, maxSegments, 0, 0, []);
    }
    BuildFromInside(segs, groups, start, e, maxSegments, 0, 0, []);
  }

  /** One turn of the loop of `buildSegmentRangeWithLimit`: place segment `i`
      at `offset`, opening a segment object for it when it meets the range,
      and say whether the loop stops there. */
  method BuildStep(segs: seq<SegmentData>, groups: map<string, seq<string>>,
                   start: int, e: int, maxSegments: int, i: nat, offset: int,
                   built: seq<Segment>, ghost acc: seq<Span>)
    returns (offset': int, built': seq<Segment>, ghost acc': seq<Span>, done: bool)
    requires i < |segs| && Spans(built) == acc
    ensures Spans(built') == acc' && built <= built'
    ensures forall k :: |built| <= k < |built'| ==> fresh(built'[k]) && built'[k].open
    ensures done ==> BuildFrom(segs, groups, start, e, maxSegments, i, offset, acc) == acc'
    ensures !done ==> BuildFrom(segs, groups, start, e, maxSegments, i, offset, acc)
                      == BuildFrom(segs, groups, start, e, maxSegments, i + 1, offset', acc')
  {
    var p := Place(segs[i], groups, offset, start, e);
    if p.Unusable? {
      return offset, built, acc, false;
    }
    if p.Before? {
      return offset + p.size, built, acc, false;
    }
    var s := new Segment(p.span);
    built' := built + [s];
    acc' := acc + [p.span];
    assert built'[..|built'| - 1] == built;
    done := (maxSegments > 0 && |built'| >= maxSegments) || (e >= 0 && p.segEnd >= e);
    offset' := p.segEnd + 1;
  }

  /** The loop of `buildSegmentRangeWithLimit` over the sorted segments, with
      the end already clamped: one open segment object per span of the plan. */
  method BuildSegments(segs: seq<SegmentData>, groups: map<string, seq<string>>,
                       start: int, e: int, maxSegments: int)
    returns (built: seq<Segment>)
    ensures Spans(built) == BuildFrom(segs, groups, start, e, maxSegments, 0, 0, [])
    ensures forall k :: 0 <= k < |built| ==> fresh(built[k]) && built[k].open
  {
    ghost var plan := BuildFrom(segs, groups, start, e, maxSegments, 0, 0, []);
    built := [];
    ghost var acc: seq<Span> := [];
    var currentOffset := 0;
    var i := 0;
    while i < |segs|
      invariant 0 <= i <= |segs|
      invariant Spans(built) == acc
      invariant forall k :: 0 <= k < |built| ==> fresh(built[k]) && built[k].open
      invariant BuildFrom(segs, groups, start, e, maxSegments, i, currentOffset, acc) == plan
      decreases |segs| - i
    {
      var done;
      currentOffset, built, acc, done := BuildStep(segs, groups, start, e, maxSegments, i, currentOffset, built, acc);
      if done {
        return;
      }
      i := i + 1;
    }
  }

  /** `buildSegmentRangeWithLimit`. `groups` is the segment-id to newsgroups map
      read from the source NZB (empty when that file cannot be parsed). The range
      keeps the requested start and end as given, before clamping. */
  method BuildSegmentRangeWithLimit(meta: Option<FileMetadata>, groups: map<string, seq<string>>,
                                    start: int, end: int, maxSegments: int)
    returns (sr: SegmentRange, err: Option<SegError>)
    ensures fresh(sr) && sr.start == start && sr.end == end && sr.current == 0
    ensures Spans(sr.segments) == BuildPlan(meta, groups, start, end, maxSegments)
    ensures err.Some? <==> (meta.None? || |sr.segments| == 0)
    ensures forall k :: 0 <= k < |sr.segments| ==> fresh(sr.segments[k]) && sr.segments[k].open
  {
    if meta.None? {
      sr := new SegmentRange(start, end, []);
      return sr, Some(ErrSegmentLimit);
    }
    var e := end;
    if e < 0 || e >= meta.value.fileSize {
      e := meta.value.fileSize - 1;
    }
    var segs := SortByStart(meta.value.segmentData);
    var built := BuildSegments(segs, groups, start, e, maxSegments);
    sr := new SegmentRange(start, end, built);
    if |built| == 0 {
      return sr, Some(ErrSegmentLimit);
    }
    return sr, None;
  }

  // ---------------------------------------------------------------------------
  // Skipping reader.
  // ---------------------------------------------------------------------------

  type Byte = bv8

  /** A read's outcome: none, the end of the stream, the skip that stopped
      after `skipped` of `requested` bytes because the stream failed, or the
      wrapped stream's own failure passed through. */
  datatype ReadErr = NoErr | EOF | SkipFailed(skipped: int, requested: int) | StreamFailed

  /** `skipReader`: discards the first `skipBytes` bytes of the underlying
      stream, once, before the first read. The underlying stream is the sequence
      of bytes it still has to deliver and whether it then fails (`broken`) or
      ends; a read of it hands out as many bytes as are asked for and
      available, and reports the failure or EOF once it is empty. */
  class SkipReader {
    var rest: seq<Byte>
    const broken: bool
    const skipBytes: int
    var skipped: bool

    constructor (source: seq<Byte>, broken: bool, skipBytes: int)
      ensures rest == source && this.broken == broken && this.skipBytes == skipBytes && !skipped
    {
      rest, this.broken, this.skipBytes, skipped := source, broken, skipBytes, false;
    }

    /** The end of the stream as the wrapped reader reports it. */
    function EndError(): (e: ReadErr)
      reads this
      ensures e == StreamFailed <==> broken
      ensures e == EOF <==> !broken
    {
      if broken then StreamFailed else EOF
    }

    method Read(n: nat) returns (data: seq<Byte>, err: ReadErr)
      modifies this`rest, this`skipped
      ensures |data| <= n
      ensures !old(skipped) && skipBytes > |old(rest)| ==>
        data == [] && !skipped && rest == []
        && err == (if broken then SkipFailed(|old(rest)|, skipBytes) else EOF)
      ensures var from := if old(skipped) || skipBytes <= 0 then old(rest)
                          else if skipBytes > |old(rest)| then [] else old(rest)[skipBytes..];
        (old(skipped) || skipBytes <= |old(rest)|) ==>
          skipped && data + rest == from
          && (from == [] ==> err == EndError())
          && (from != [] ==> err == NoErr && |data| == (if n < |from| then n else |from|))
    {
      if !skipped {
        // io.CopyN(io.Discard, reader, skipBytes)
        var k := if skipBytes <= 0 then 0 else if skipBytes > |rest| then |rest| else skipBytes;
        rest := rest[k..];
        if k < skipBytes {
          if broken {
            return [], SkipFailed(k, skipBytes);
          }
          return [], EOF;
        }
        skipped := true;
      }
      if rest == [] {
        return [], EndError();
      }
      var m := if n < |rest| then n else |rest|;
      data := rest[..m];
      rest := rest[m..];
      err := NoErr;
    }
  }
}
