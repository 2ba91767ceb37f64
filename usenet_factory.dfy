/**
 * The reader factory that serves virtual-file ranges from Usenet, reduced to
 * its worker default and segment-window sizing
 * (backend/services/streaming.old/usenet_factory.go).
 */
module UsenetFactory {
  import opened Wrappers

  const DefaultMaxWorkers: int := 15
  /** Requests above this many bytes are treated as streaming. */
  const StreamingRangeThreshold: int := 50 * 1024 * 1024

  /** `UsenetReaderFactory`: whether a pool manager is configured, and the worker count. */
  datatype Factory = Factory(hasPool: bool, maxWorkers: int)

  /** `NewUsenetReaderFactory`: a non-positive worker count becomes 15. */
  function NewUsenetReaderFactory(hasPool: bool, maxWorkers: int): (f: Factory)
    ensures f.hasPool == hasPool && f.maxWorkers > 0
    ensures maxWorkers > 0 ==> f.maxWorkers == maxWorkers
    ensures maxWorkers <= 0 ==> f.maxWorkers == DefaultMaxWorkers
  {
    Factory(hasPool, if maxWorkers <= 0 then DefaultMaxWorkers else maxWorkers)
  }

  function Clamp(x: int, lo: int, hi: int): int
    requires lo <= hi
  {
    if x > hi then hi else if x < lo then lo else x
  }

  /** The `maxSegments` window `NewReader` asks for: 8 segments a worker
      within [20, 100] for ordinary ranges, 12 a worker within [30, 150] for
      ranges above 50 MiB. */
  function MaxSegments(maxWorkers: int, start: int, end: int): (m: int)
    ensures 20 <= m <= 150
    ensures end - start + 1 <= StreamingRangeThreshold ==> 20 <= m <= 100
    ensures end - start + 1 > StreamingRangeThreshold ==> 30 <= m
  {
    var m0 := maxWorkers * 8;
    var m1 := if m0 > 100 then 100 else m0;
    var m2 := if m1 < 20 then 20 else m1;
    if end - start + 1 > StreamingRangeThreshold then
      var l0 := maxWorkers * 12;
      var l1 := if l0 > 150 then 150 else l0;
      if l1 < 30 then 30 else l1
    else m2
  }

  /** The two sizing rules are clamps of the per-worker products. */
  lemma MaxSegmentsIsClamp(maxWorkers: int, start: int, end: int)
    ensures end - start + 1 <= StreamingRangeThreshold ==>
      MaxSegments(maxWorkers, start, end) == Clamp(maxWorkers * 8, 20, 100)
    ensures end - start + 1 > StreamingRangeThreshold ==>
      MaxSegments(maxWorkers, start, end) == Clamp(maxWorkers * 12, 30, 150)
  {
  }

  /** More workers never shrink the window, and a streaming-sized range
      never gets a smaller window than a short one. */
  lemma MaxSegmentsMonotone(w1: int, w2: int, start: int, end: int, start2: int, end2: int)
    requires 0 < w1 <= w2
    ensures MaxSegments(w1, start, end) <= MaxSegments(w2, start, end)
    ensures end - start + 1 <= StreamingRangeThreshold < end2 - start2 + 1 ==>
      MaxSegments(w1, start, end) <= MaxSegments(w1, start2, end2)
  {
    assert w1 * 8 <= w2 * 8 && w1 * 12 <= w2 * 12;
    assert w1 * 8 <= w1 * 12;
  }

  datatype FactoryError = PoolNotConfigured | PoolUnavailable | BuildFailed | ReaderFailed

  /** What `NewReader` hands to the segment builder and the Usenet reader. */
  datatype ReaderPlan = ReaderPlan(start: int, end: int, maxSegments: int, workers: int)

  /** `NewReader`, with the pool lookup, the segment-range build and the
      reader construction as outcomes given from outside. */
  function NewReader(f: Factory, start: int, end: int, poolOk: bool,
                     buildOk: (int, int, int) -> bool, readerOk: bool): (r: Result<ReaderPlan, FactoryError>)
    ensures !f.hasPool ==> r == Err(PoolNotConfigured)
    ensures f.hasPool && !poolOk ==> r == Err(PoolUnavailable)
    ensures r.Ok? <==> f.hasPool && poolOk && buildOk(start, end, MaxSegments(f.maxWorkers, start, end)) && readerOk
    ensures r.Ok? ==> r.value == ReaderPlan(start, end, MaxSegments(f.maxWorkers, start, end), f.maxWorkers)
  {
    if !f.hasPool then Err(PoolNotConfigured)
    else if !poolOk then Err(PoolUnavailable)
    else
      var maxSegments := MaxSegments(f.maxWorkers, start, end);
      if !buildOk(start, end, maxSegments) then Err(BuildFailed)
      else if !readerOk then Err(ReaderFailed)
      else Ok(ReaderPlan(start, end, maxSegments, f.maxWorkers))
  }
}
