/**
 * The range tracker and the reader-factory adapter of the virtual
 * file system (backend/internal/nzb/filesystem/types.go).
 */
module FsTypes {

  /** `ReaderFactoryFunc.NewReader`: the adapter hands its arguments to the
      wrapped function and returns what that function returns. */
  function NewReader<M, R>(f: (M, int, int) -> R, meta: M, start: int, end: int): (r: R)
    ensures r == f(meta, start, end)
  {
    f(meta, start, end)
  }

  /** The encryption wrapper asks an adapter around an already open reader
      for the range; whatever range it asks for, it gets that reader back. */
  lemma AdapterOfOpenReader<M, R>(current: R, meta: M, start: int, end: int)
    ensures NewReader((m: M, s: int, e: int) => current, meta, start, end) == current
  {
  }

  /** Whether `offset` lies in the window [start, end], where a negative end
      leaves the window open above. */
  function InWindow(start: int, end: int, offset: int): (b: bool)
    ensures end >= 0 ==> (b <==> start <= offset <= end)
    ensures end < 0 ==> (b <==> offset >= start)
  {
    offset >= start && (end < 0 || offset <= end)
  }

  /** A window with its end before its start holds nothing, and one with a
      negative end holds every offset from its start on. */
  lemma {:induction false} WindowShapes(start: int, end: int)
    ensures 0 <= end < start ==> forall o :: !InWindow(start, end, o)
    ensures end < 0 ==> forall o :: o >= start ==> InWindow(start, end, o)
  {
    if 0 <= end < start {
      forall o
        ensures !InWindow(start, end, o)
      {
      }
    }
  }

  /** `RangeTracker`: the window currently buffered by a virtual file. */
  class RangeTracker {
    var currentStart: int
    var currentEnd: int

    /** A zero-valued tracker, as Go declares one: the window [0, 0]. */
    constructor ()
      ensures currentStart == 0 && currentEnd == 0
    {
      currentStart := 0;
      currentEnd := 0;
    }

    /** `Reset`: the tracked window becomes exactly [start, end]. */
    method Reset(start: int, end: int)
      modifies this
      ensures currentStart == start && currentEnd == end
    {
      currentStart := start;
      currentEnd := end;
    }

    /** `Contains`: whether the tracked window holds `offset`; it changes nothing. */
    method Contains(offset: int) returns (b: bool)
      ensures b == InWindow(currentStart, currentEnd, offset)
    {
      return offset >= currentStart && (currentEnd < 0 || offset <= currentEnd);
    }
  }

  /** After `Reset(s, -1)` the tracker holds exactly the offsets from `s` on. */
  method ResetOpenEnded(t: RangeTracker, s: int, o: int) returns (b: bool)
    modifies t
    ensures b <==> o >= s
    ensures t.currentStart == s && t.currentEnd == -1
  {
    t.Reset(s, -1);
    b := t.Contains(o);
  }
}
