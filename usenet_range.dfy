/**
 * Mapping an inclusive file byte window onto the ordered physical segments of a
 * file (backend/internal/usenet/range.go).
 *
 * The segment loader is a sequence: `GetSegment(idx)` succeeds exactly for the
 * indices of the sequence, so the loop, which stops at the first index the
 * loader does not know, walks the whole sequence.
 */
module UsenetRange {
  import opened Wrappers
  import opened UsenetSegment

  /** A loader segment: the offset in the physical segment where the file's
      data begins, and the full physical size. */
  datatype SourceSegment = SourceSegment(id: string, start: int, size: int)

  /** What `GetSegment(idx)` hands back for a known index. */
  datatype LoaderEntry = LoaderEntry(seg: SourceSegment, groups: seq<string>)

  /** The number of file bytes a loader segment contributes (Size - Start). */
  function Usable(e: LoaderEntry): int
  {
    e.seg.size - e.seg.start
  }

  /** The file offset where loader segment `i` begins: the positive usable
      lengths of the segments before it. */
  function Offset(loader: seq<LoaderEntry>, i: nat): (r: int)
    requires i <= |loader|
    ensures r >= 0
  {
    if i == 0 then 0 else Offset(loader, i - 1) + Max(0, Usable(loader[i - 1]))
  }

  lemma {:induction false} OffsetMonotone(loader: seq<LoaderEntry>, i: nat, j: nat)
    requires i <= j <= |loader|
    ensures Offset(loader, i) <= Offset(loader, j)
    decreases j - i
  {
    if i < j {
      OffsetMonotone(loader, i, j - 1);
    }
  }

  /** `sp` is the part of loader entry `e`, placed at file offset `off`, that
      overlaps the request [start, end]: its physical window covers exactly the
      file bytes max(off, start) .. min(last byte of e, end), and its read window
      is its length. */
  predicate FromEntry(sp: Span, e: LoaderEntry, off: int, start: int, end: int)
  {
    var fe := off + Usable(e) - 1;
    Usable(e) > 0 && off <= end && start <= fe
    && sp.id == e.seg.id && sp.segmentSize == e.seg.size && sp.groups == e.groups
    && off + (sp.start - e.seg.start) == Max(off, start)
    && off + (sp.end - e.seg.start) == Min(fe, end)
    && sp.maxReadWindow == sp.end - sp.start + 1
  }

  /** A span taken from an entry lies within that entry's usable bytes. */
  lemma FromEntryBounds(sp: Span, e: LoaderEntry, off: int, start: int, end: int)
    requires FromEntry(sp, e, off, start, end) && start <= end
    ensures e.seg.start <= sp.start <= sp.end <= e.seg.size - 1
    ensures SpanLen(sp) == Min(off + Usable(e) - 1, end) - Max(off, start) + 1
  {
  }

  /** What one loop iteration does with a loader entry at file offset `pos`. */
  datatype Step =
    | Ignore                                        // no usable bytes: position unchanged
    | Advance(usable: int)                          // skipped, position advances
    | Done                                          // starts after the request: stop
    | Take(span: Span, segFileEnd: int, usable: int)

  function StepAt(e: LoaderEntry, pos: int, start: int, end: int): Step
  {
    var src := e.seg;
    var usableLen := src.size - src.start;
    if usableLen <= 0 then Ignore
    else
      var segFileStart := pos;
      var segFileEnd := segFileStart + usableLen - 1;
      if segFileEnd < start then Advance(usableLen)
      else if segFileStart > end then Done
      else
        var readStart := if start > segFileStart then src.start + (start - segFileStart) else src.start;
        var readEnd := if end < segFileEnd then (src.size - 1) - (segFileEnd - end) else src.size - 1;
        if readStart > readEnd then Advance(usableLen)
        else Take(Span(src.id, readStart, readEnd, src.size, e.groups, readEnd - readStart + 1),
                  segFileEnd, usableLen)
  }

  /** An entry without usable bytes is ignored, one that ends before the request
      is skipped, one that begins after it stops the loop, and one that overlaps
      it (with a valid request) yields exactly its overlapping part. */
  lemma StepAtMeaning(e: LoaderEntry, pos: int, start: int, end: int)
    requires start <= end
    ensures var st := StepAt(e, pos, start, end);
      && (st.Ignore? <==> Usable(e) <= 0)
      && (st.Advance? ==> st.usable == Usable(e) > 0 && pos + Usable(e) - 1 < start)
      && (st.Done? ==> Usable(e) > 0 && pos > end)
      && (st.Take? ==>
            st.usable == Usable(e) && st.segFileEnd == pos + Usable(e) - 1 && FromEntry(st.span, e, pos, start, end))
      && ((Usable(e) > 0 && pos <= end && start <= pos + Usable(e) - 1) ==> st.Take?)
  {
  }

  /** The loop of getSegmentsInRangeWithLimit from loader index `idx`, with
      `pos` the logical file position and `acc` the spans built so far. */
  function RangeFrom(loader: seq<LoaderEntry>, start: int, end: int, maxSegments: int,
                     idx: nat, pos: int, acc: seq<Span>): seq<Span>
    requires idx <= |loader| && start <= end
    decreases |loader| - idx
  {
    if idx == |loader| then acc
    else
      match StepAt(loader[idx], pos, start, end)
      case Ignore => RangeFrom(loader, start, end, maxSegments, idx + 1, pos, acc)
      case Advance(u) => RangeFrom(loader, start, end, maxSegments, idx + 1, pos + u, acc)
      case Done => acc
      case Take(sp, segFileEnd, u) =>
        var acc' := acc + [sp];
        if maxSegments > 0 && |acc'| >= maxSegments then acc'
        else if segFileEnd >= end then acc'
        else if SumLen(acc') >= end - start + 1 then acc'
        else RangeFrom(loader, start, end, maxSegments, idx + 1, pos + u, acc')
  }

  /** The spans getSegmentsInRangeWithLimit builds; none for an invalid request. */
  function RangePlan(loader: seq<LoaderEntry>, start: int, end: int, maxSegments: int): seq<Span>
  {
    if start < 0 || end < start then [] else RangeFrom(loader, start, end, maxSegments, 0, 0, [])
  }

  /** A negative start or an end below start gives no spans. */
  lemma RangePlanInvalid(loader: seq<LoaderEntry>, start: int, end: int, maxSegments: int)
    requires start < 0 || end < start
    ensures RangePlan(loader, start, end, maxSegments) == []
  {
  }

  // ---------------------------------------------------------------------------
  // The limit.
  // ---------------------------------------------------------------------------

  lemma {:induction false} RangeFromBound(loader: seq<LoaderEntry>, start: int, end: int, maxSegments: int,
                                          idx: nat, pos: int, acc: seq<Span>)
    requires idx <= |loader| && start <= end && maxSegments > 0 && |acc| < maxSegments
    ensures |RangeFrom(loader, start, end, maxSegments, idx, pos, acc)| <= maxSegments
    decreases |loader| - idx
  {
    if idx < |loader| {
      match StepAt(loader[idx], pos, start, end)
      case Ignore => RangeFromBound(loader, start, end, maxSegments, idx + 1, pos, acc);
      case Advance(u) => RangeFromBound(loader, start, end, maxSegments, idx + 1, pos + u, acc);
      case Done =>
      case Take(sp, segFileEnd, u) =>
        var acc' := acc + [sp];
        if |acc'| < maxSegments {
          RangeFromBound(loader, start, end, maxSegments, idx + 1, pos + u, acc');
        }
    }
  }

  /** With a positive limit, at most that many segments are built. */
  lemma RangePlanBound(loader: seq<LoaderEntry>, start: int, end: int, maxSegments: int)
    requires maxSegments > 0
    ensures |RangePlan(loader, start, end, maxSegments)| <= maxSegments
  {
    if 0 <= start <= end {
      RangeFromBound(loader, start, end, maxSegments, 0, 0, []);
    }
  }

  // ---------------------------------------------------------------------------
  // Where each span comes from.
  // ---------------------------------------------------------------------------

  predicate Increasing(ix: seq<nat>)
  {
    forall a, b :: 0 <= a < b < |ix| ==> ix[a] < ix[b]
  }

  /** Span k comes from loader entry ix[k], placed at its logical offset. */
  predicate Origins(loader: seq<LoaderEntry>, start: int, end: int, spans: seq<Span>, ix: seq<nat>)
  {
    |ix| == |spans| && Increasing(ix)
    && forall k :: 0 <= k < |ix| ==>
         ix[k] < |loader| && FromEntry(spans[k], loader[ix[k]], Offset(loader, ix[k]), start, end)
  }

  /** Appending the span of the next entry keeps the origins in order. */
  lemma OriginsSnoc(loader: seq<LoaderEntry>, start: int, end: int, acc: seq<Span>, accIx: seq<nat>,
                    idx: nat, sp: Span)
    requires idx < |loader|
    requires Origins(loader, start, end, acc, accIx)
    requires forall k :: 0 <= k < |accIx| ==> accIx[k] < idx
    requires FromEntry(sp, loader[idx], Offset(loader, idx), start, end)
    ensures Origins(loader, start, end, acc + [sp], accIx + [idx])
    ensures forall k :: 0 <= k < |accIx + [idx]| ==> (accIx + [idx])[k] < idx + 1
  {
  }

  lemma OriginsSkip(loader: seq<LoaderEntry>, start: int, end: int, maxSegments: int, idx: nat, acc: seq<Span>)
    requires idx < |loader| && start <= end
    requires StepAt(loader[idx], Offset(loader, idx), start, end).Ignore?
          || StepAt(loader[idx], Offset(loader, idx), start, end).Advance?
    ensures RangeFrom(loader, start, end, maxSegments, idx, Offset(loader, idx), acc)
         == RangeFrom(loader, start, end, maxSegments, idx + 1, Offset(loader, idx + 1), acc)
  {
    var pos := Offset(loader, idx);
    assert Offset(loader, idx + 1) == pos + Max(0, Usable(loader[idx]));
    StepAtMeaning(loader[idx], pos, start, end);
    var st := StepAt(loader[idx], pos, start, end);
    var next := if st.Ignore? then pos else pos + st.usable;
    assert next == Offset(loader, idx + 1);
    StepSkips(loader, start, end, maxSegments, idx, pos, next, acc);
  }

  /** Whether the loop stops right after taking a span. */
  predicate StopsAfter(start: int, end: int, maxSegments: int, acc: seq<Span>, st: Step)
    requires st.Take?
  {
    (maxSegments > 0 && |acc| + 1 >= maxSegments) || st.segFileEnd >= end
    || SumLen(acc + [st.span]) >= end - start + 1
  }

  lemma OriginsTake(loader: seq<LoaderEntry>, start: int, end: int, maxSegments: int, idx: nat,
                    acc: seq<Span>, accIx: seq<nat>)
    requires idx < |loader| && start <= end
    requires Origins(loader, start, end, acc, accIx)
    requires forall k :: 0 <= k < |accIx| ==> accIx[k] < idx
    requires StepAt(loader[idx], Offset(loader, idx), start, end).Take?
    ensures var st := StepAt(loader[idx], Offset(loader, idx), start, end);
      && Origins(loader, start, end, acc + [st.span], accIx + [idx])
      && (forall k :: 0 <= k < |accIx + [idx]| ==> (accIx + [idx])[k] < idx + 1)
      && RangeFrom(loader, start, end, maxSegments, idx, Offset(loader, idx), acc)
         == if StopsAfter(start, end, maxSegments, acc, st) then acc + [st.span]
            else RangeFrom(loader, start, end, maxSegments, idx + 1, Offset(loader, idx + 1), acc + [st.span])
  {
    var pos := Offset(loader, idx);
    assert Offset(loader, idx + 1) == pos + Max(0, Usable(loader[idx]));
    StepAtMeaning(loader[idx], pos, start, end);
    var st := StepAt(loader[idx], pos, start, end);
    OriginsSnoc(loader, start, end, acc, accIx, idx, st.span);
    if StopsAfter(start, end, maxSegments, acc, st) {
      StepStops(loader, start, end, maxSegments, idx, pos, acc, st.span, st.segFileEnd, st.usable);
    } else {
      StepTakes(loader, start, end, maxSegments, idx, pos, acc, st.span, st.segFileEnd, st.usable);
    }
  }

  lemma {:induction false} RangeFromOrigins(loader: seq<LoaderEntry>, start: int, end: int, maxSegments: int,
                                            idx: nat, acc: seq<Span>, accIx: seq<nat>)
    returns (ix: seq<nat>)
    requires idx <= |loader| && start <= end
    requires Origins(loader, start, end, acc, accIx)
    requires forall k :: 0 <= k < |accIx| ==> accIx[k] < idx
    ensures Origins(loader, start, end, RangeFrom(loader, start, end, maxSegments, idx, Offset(loader, idx), acc), ix)
    decreases |loader| - idx
  {
    if idx == |loader| {
      return accIx;
    }
    var st := StepAt(loader[idx], Offset(loader, idx), start, end);
    if st.Ignore? || st.Advance? {
      OriginsSkip(loader, start, end, maxSegments, idx, acc);
      ix := RangeFromOrigins(loader, start, end, maxSegments, idx + 1, acc, accIx);
    } else if st.Done? {
      ix := accIx;
    } else {
      OriginsTake(loader, start, end, maxSegments, idx, acc, accIx);
      if StopsAfter(start, end, maxSegments, acc, st) {
        ix := accIx + [idx];
      } else {
        ix := RangeFromOrigins(loader, start, end, maxSegments, idx + 1, acc + [st.span], accIx + [idx]);
      }
    }
  }

  /** Spans are taken from loader entries in index order, each one exactly the
      part of its entry that overlaps [start, end] at the entry's logical file
      offset, which skips entries without usable bytes. Each window lies within
      its entry's usable bytes and its read window is its length. */
  lemma RangePlanOrigins(loader: seq<LoaderEntry>, start: int, end: int, maxSegments: int)
    returns (ix: seq<nat>)
    ensures Origins(loader, start, end, RangePlan(loader, start, end, maxSegments), ix)
  {
    if start < 0 || end < start {
      return [];
    }
    ix := RangeFromOrigins(loader, start, end, maxSegments, 0, [], []);
  }

  // ---------------------------------------------------------------------------
  // The total length.
  // ---------------------------------------------------------------------------

  lemma SumLenSnoc(acc: seq<Span>, sp: Span)
    ensures SumLen(acc + [sp]) == SumLen(acc) + SpanLen(sp)
  {
    assert (acc + [sp])[..|acc|] == acc;
  }

  /** Inside the loop without a limit: either nothing has been built and the
      request has not been reached, or the bytes built so far are exactly the
      request up to the current position. */
  predicate CoversSoFar(loader: seq<LoaderEntry>, start: int, end: int, idx: nat, acc: seq<Span>)
    requires idx <= |loader|
  {
    (acc == [] && Offset(loader, idx) <= start)
    || (SumLen(acc) == Offset(loader, idx) - start && start < Offset(loader, idx) <= end)
  }

  lemma CoversSkip(loader: seq<LoaderEntry>, start: int, end: int, maxSegments: int, idx: nat, acc: seq<Span>)
    requires idx < |loader| && 0 <= start <= end
    requires CoversSoFar(loader, start, end, idx, acc)
    requires StepAt(loader[idx], Offset(loader, idx), start, end).Ignore?
          || StepAt(loader[idx], Offset(loader, idx), start, end).Advance?
    ensures CoversSoFar(loader, start, end, idx + 1, acc)
    ensures RangeFrom(loader, start, end, maxSegments, idx, Offset(loader, idx), acc)
         == RangeFrom(loader, start, end, maxSegments, idx + 1, Offset(loader, idx + 1), acc)
  {
    var pos := Offset(loader, idx);
    assert Offset(loader, idx + 1) == pos + Max(0, Usable(loader[idx]));
    StepAtMeaning(loader[idx], pos, start, end);
    var st := StepAt(loader[idx], pos, start, end);
    var next := if st.Ignore? then pos else pos + st.usable;
    assert next == Offset(loader, idx + 1);
    StepSkips(loader, start, end, maxSegments, idx, pos, next, acc);
    assert next <= start || acc != [];
  }

  lemma CoversTake(loader: seq<LoaderEntry>, start: int, end: int, maxSegments: int, idx: nat, acc: seq<Span>)
    requires idx < |loader| && 0 <= start <= end && maxSegments <= 0
    requires CoversSoFar(loader, start, end, idx, acc)
    requires !StepAt(loader[idx], Offset(loader, idx), start, end).Ignore?
          && !StepAt(loader[idx], Offset(loader, idx), start, end).Advance?
    ensures StepAt(loader[idx], Offset(loader, idx), start, end).Take?
    ensures var st := StepAt(loader[idx], Offset(loader, idx), start, end);
      if st.segFileEnd < end then
        && CoversSoFar(loader, start, end, idx + 1, acc + [st.span])
        && RangeFrom(loader, start, end, maxSegments, idx, Offset(loader, idx), acc)
           == RangeFrom(loader, start, end, maxSegments, idx + 1, Offset(loader, idx + 1), acc + [st.span])
      else SumLen(RangeFrom(loader, start, end, maxSegments, idx, Offset(loader, idx), acc)) == end - start + 1
  {
    var pos := Offset(loader, idx);
    assert Offset(loader, idx + 1) == pos + Max(0, Usable(loader[idx]));
    StepAtMeaning(loader[idx], pos, start, end);
    var st := StepAt(loader[idx], pos, start, end);
    var acc' := acc + [st.span];
    SumLenSnoc(acc, st.span);
    assert SumLen(acc') == Min(st.segFileEnd, end) - start + 1;
    if st.segFileEnd < end {
      StepTakes(loader, start, end, maxSegments, idx, pos, acc, st.span, st.segFileEnd, st.usable);
    } else {
      StepStops(loader, start, end, maxSegments, idx, pos, acc, st.span, st.segFileEnd, st.usable);
    }
  }

  lemma {:induction false} RangeFromCovers(loader: seq<LoaderEntry>, start: int, end: int,
                                           maxSegments: int, idx: nat, acc: seq<Span>)
    requires idx <= |loader| && 0 <= start <= end && maxSegments <= 0
    requires Offset(loader, |loader|) >= end + 1
    requires CoversSoFar(loader, start, end, idx, acc)
    ensures SumLen(RangeFrom(loader, start, end, maxSegments, idx, Offset(loader, idx), acc)) == end - start + 1
    decreases |loader| - idx
  {
    if idx == |loader| {
      assert false;
    }
    var st := StepAt(loader[idx], Offset(loader, idx), start, end);
    if st.Ignore? || st.Advance? {
      CoversSkip(loader, start, end, maxSegments, idx, acc);
      RangeFromCovers(loader, start, end, maxSegments, idx + 1, acc);
    } else {
      CoversTake(loader, start, end, maxSegments, idx, acc);
      if st.segFileEnd < end {
        RangeFromCovers(loader, start, end, maxSegments, idx + 1, acc + [st.span]);
      }
    }
  }

  /** With no limit and loader data reaching past `end`, the trimmed lengths
      add up to exactly the requested length end - start + 1. */
  lemma RangePlanLength(loader: seq<LoaderEntry>, start: int, end: int, maxSegments: int)
    requires 0 <= start <= end && maxSegments <= 0
    requires Offset(loader, |loader|) >= end + 1
    ensures SumLen(RangePlan(loader, start, end, maxSegments)) == end - start + 1
  {
    RangeFromCovers(loader, start, end, maxSegments, 0, []);
  }

  // ---------------------------------------------------------------------------
  // The methods.
  // ---------------------------------------------------------------------------

  // One step of the loop, unfolded for the method below.

  lemma StepSkips(loader: seq<LoaderEntry>, start: int, end: int, maxSegments: int,
                  idx: nat, pos: int, next: int, acc: seq<Span>)
    requires idx < |loader| && start <= end
    requires (StepAt(loader[idx], pos, start, end) == Ignore && next == pos)
          || StepAt(loader[idx], pos, start, end) == Advance(next - pos)
    ensures RangeFrom(loader, start, end, maxSegments, idx, pos, acc)
         == RangeFrom(loader, start, end, maxSegments, idx + 1, next, acc)
  {
  }

  lemma StepTakes(loader: seq<LoaderEntry>, start: int, end: int, maxSegments: int,
                  idx: nat, pos: int, acc: seq<Span>, sp: Span, segFileEnd: int, u: int)
    requires idx < |loader| && start <= end
    requires StepAt(loader[idx], pos, start, end) == Take(sp, segFileEnd, u)
    requires !(maxSegments > 0 && |acc| + 1 >= maxSegments) && segFileEnd < end
    requires SumLen(acc + [sp]) < end - start + 1
    ensures RangeFrom(loader, start, end, maxSegments, idx, pos, acc)
         == RangeFrom(loader, start, end, maxSegments, idx + 1, pos + u, acc + [sp])
  {
  }

  lemma StepStops(loader: seq<LoaderEntry>, start: int, end: int, maxSegments: int,
                  idx: nat, pos: int, acc: seq<Span>, sp: Span, segFileEnd: int, u: int)
    requires idx < |loader| && start <= end
    requires StepAt(loader[idx], pos, start, end) == Take(sp, segFileEnd, u)
    requires (maxSegments > 0 && |acc| + 1 >= maxSegments) || segFileEnd >= end
          || SumLen(acc + [sp]) >= end - start + 1
    ensures RangeFrom(loader, start, end, maxSegments, idx, pos, acc) == acc + [sp]
  {
  }

  /** `int64AccumulatedLen`: the total of End-Start+1 over the segments. */
  method Int64AccumulatedLen(segs: seq<Segment>) returns (total: int)
    ensures total == SumLen(Spans(segs))
  {
    total := 0;
    var i := 0;
    while i < |segs|
      invariant 0 <= i <= |segs|
      invariant total == SumLen(Spans(segs[..i]))
    {
      assert segs[..i + 1][..i] == segs[..i];
      total := total + (segs[i].end - segs[i].start + 1);
      i := i + 1;
    }
    assert segs[..|segs|] == segs;
  }

  /** The loop of getSegmentsInRangeWithLimit for a valid request, on the
      windows it decides: the running total it compares with the requested
      length is the one int64AccumulatedLen computes for the same windows. */
  method CollectRange(loader: seq<LoaderEntry>, start: int, end: int, maxSegments: int)
    returns (spans: seq<Span>)
    requires 0 <= start <= end
    ensures spans == RangeFrom(loader, start, end, maxSegments, 0, 0, [])
  {
    ghost var plan := RangeFrom(loader, start, end, maxSegments, 0, 0, []);
    var requestedLen := end - start + 1;
    spans := [];
    var logicalFilePos := 0;
    var idx := 0;
    while idx < |loader|
      invariant 0 <= idx <= |loader|
      invariant RangeFrom(loader, start, end, maxSegments, idx, logicalFilePos, spans) == plan
      decreases |loader| - idx
    {
      var st := StepAt(loader[idx], logicalFilePos, start, end);
      if st.Ignore? {
        StepSkips(loader, start, end, maxSegments, idx, logicalFilePos, logicalFilePos, spans);
        idx := idx + 1;
        continue;
      }
      if st.Advance? {
        StepSkips(loader, start, end, maxSegments, idx, logicalFilePos, logicalFilePos + st.usable, spans);
        logicalFilePos := logicalFilePos + st.usable;
        idx := idx + 1;
        continue;
      }
      if st.Done? {
        break;
      }
      var before := spans;
      spans := spans + [st.span];
      if maxSegments > 0 && |spans| >= maxSegments {
        StepStops(loader, start, end, maxSegments, idx, logicalFilePos, before, st.span, st.segFileEnd, st.usable);
        break;
      }
      if st.segFileEnd >= end {
        StepStops(loader, start, end, maxSegments, idx, logicalFilePos, before, st.span, st.segFileEnd, st.usable);
        break;
      }
      logicalFilePos := logicalFilePos + st.usable;
      if SumLen(spans) >= requestedLen {
        StepStops(loader, start, end, maxSegments, idx, logicalFilePos - st.usable, before, st.span, st.segFileEnd, st.usable);
        break;
      }
      StepTakes(loader, start, end, maxSegments, idx, logicalFilePos - st.usable, before, st.span, st.segFileEnd, st.usable);
      idx := idx + 1;
    }
  }

  /** One new open segment object per window, in order. */
  method NewSegments(spans: seq<Span>) returns (built: seq<Segment>)
    ensures Spans(built) == spans
    ensures forall k :: 0 <= k < |built| ==> fresh(built[k]) && built[k].open
  {
    built := [];
    var i := 0;
    while i < |spans|
      invariant 0 <= i <= |spans|
      invariant |built| == i
      invariant forall k :: 0 <= k < i ==> fresh(built[k]) && built[k].open && built[k].View() == spans[k]
    {
      var s := new Segment(spans[i]);
      built := built + [s];
      i := i + 1;
    }
    SpansOfViews(built, spans);
  }

  /** `GetSegmentsInRangeWithLimit`: the range keeps the requested start and
      end even when the request is invalid and yields no segments. */
  method GetSegmentsInRangeWithLimit(start: int, end: int, loader: seq<LoaderEntry>, maxSegments: int)
    returns (sr: SegmentRange)
    ensures fresh(sr) && sr.start == start && sr.end == end && sr.current == 0
    ensures Spans(sr.segments) == RangePlan(loader, start, end, maxSegments)
    ensures forall k :: 0 <= k < |sr.segments| ==> fresh(sr.segments[k]) && sr.segments[k].open
  {
    if start < 0 || end < start {
      sr := new SegmentRange(start, end, []);
      return;
    }
    var spans := CollectRange(loader, start, end, maxSegments);
    var built := NewSegments(spans);
    sr := new SegmentRange(start, end, built);
  }

  /** `GetSegmentsInRange`: the same without a limit. */
  method GetSegmentsInRange(start: int, end: int, loader: seq<LoaderEntry>)
    returns (sr: SegmentRange)
    ensures fresh(sr) && sr.start == start && sr.end == end && sr.current == 0
    ensures Spans(sr.segments) == RangePlan(loader, start, end, 0)
    ensures forall k :: 0 <= k < |sr.segments| ==> fresh(sr.segments[k]) && sr.segments[k].open
  {
    sr := GetSegmentsInRangeWithLimit(start, end, loader, 0);
  }
}
