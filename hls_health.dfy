/**
 * The tiered health rule for an HLS session
 * (backend/handlers/hls_quorum_test.go, `createHealthCheck`): a snapshot of
 * the session's timestamps and counters decides whether the session is still
 * alive, and why. Instants and durations are integers in nanoseconds, as Go's
 * `time.Duration`; the session's age, which the rule reads from the wall
 * clock, is part of the snapshot.
 */
module HlsHealth {
  const Second := 1_000_000_000
  const Minute := 60 * Second

  /** What the rule reads from the session under its lock. */
  datatype Snapshot = Snapshot(
    lastSegment: int,
    lastKeepalive: int,
    lastPlaylist: int,
    maxSegment: int,
    prevMaxSegment: int,
    activeConns: int,
    segmentsCreated: int,
    sessionAge: int)

  /** The verdict and its reason. */
  datatype Health = Health(healthy: bool, reason: string)

  const FreshSegments := "fresh segment requests"
  const KeepaliveRecent := "keepalive + recent segments"
  const KeepaliveInitializing := "keepalive + session initializing"
  const WeakQuorum := "quorum of weak signals"
  const KeepaliveIsolated := "keepalive isolated - stuck interval suspected"
  const QuorumWithoutKeepalive := "quorum without keepalive"
  const AllStale := "all signals stale"

  function SinceSegment(s: Snapshot, now: int): int { now - s.lastSegment }
  function SinceKeepalive(s: Snapshot, now: int): int { now - s.lastKeepalive }
  function SincePlaylist(s: Snapshot, now: int): int { now - s.lastPlaylist }

  function Count(b: bool): int { if b then 1 else 0 }

  /** The segment index has moved on since the previous check. */
  predicate Advancing(s: Snapshot)
  {
    s.maxSegment > s.prevMaxSegment && s.prevMaxSegment >= 0
  }

  /** The weak signals tallied in the keepalive tier. */
  function KeepaliveTierSignals(s: Snapshot, now: int): int
  {
    Count(SinceKeepalive(s, now) < 15 * Second) + Count(SincePlaylist(s, now) < 15 * Second)
      + Count(Advancing(s)) + Count(s.activeConns > 0)
  }

  /** The weak signals tallied without the keepalive. */
  function QuorumTierSignals(s: Snapshot, now: int): int
  {
    Count(SincePlaylist(s, now) < 15 * Second)
      + Count(Advancing(s) && SinceSegment(s, now) < 120 * Second)
      + Count(s.activeConns > 0)
  }

  /** The health check closure. It agrees with the reference statement
      `Alive`, and its reason, one of the seven of the rule, determines its
      verdict. */
  function HealthCheck(s: Snapshot, now: int): (h: Health)
    ensures h.healthy <==> Alive(s, now)
    ensures h.reason in {FreshSegments, KeepaliveRecent, KeepaliveInitializing, WeakQuorum,
                         KeepaliveIsolated, QuorumWithoutKeepalive, AllStale}
    ensures h.healthy <==> h.reason != KeepaliveIsolated && h.reason != AllStale
  {
    var sinceSegment := SinceSegment(s, now);
    var sinceKeepalive := SinceKeepalive(s, now);
    if sinceSegment < 20 * Second then Health(true, FreshSegments)
    else if sinceKeepalive < 15 * Second && sinceSegment < 60 * Second then
      Health(true, KeepaliveRecent)
    else if sinceKeepalive < 15 * Second && s.sessionAge < 2 * Minute && s.segmentsCreated > 3 then
      Health(true, KeepaliveInitializing)
    else if sinceKeepalive < 15 * Second && 60 * Second <= sinceSegment < 120 * Second
            && KeepaliveTierSignals(s, now) >= 2 then
      Health(true, WeakQuorum)
    else if sinceKeepalive < 15 * Second && sinceSegment >= 120 * Second then
      Health(false, KeepaliveIsolated)
    else if QuorumTierSignals(s, now) >= 2 && sinceSegment < 120 * Second then
      Health(true, QuorumWithoutKeepalive)
    else Health(false, AllStale)
  }

  /** A reference statement of when a session is alive, with the signals
      counted directly: recent segments; a fresh keepalive with recent
      segments, a young productive session, or one more weak signal while
      segments are merely late; or two weak signals while segments are
      late. */
  predicate Alive(s: Snapshot, now: int)
  {
    var gap := now - s.lastSegment;
    var keepalive := now - s.lastKeepalive < 15 * Second;
    var playlist := now - s.lastPlaylist < 15 * Second;
    var conns := s.activeConns > 0;
    var advancing := s.maxSegment > s.prevMaxSegment && s.prevMaxSegment >= 0;
    gap < 20 * Second
    || (keepalive && (gap < 60 * Second
                      || (s.sessionAge < 2 * Minute && s.segmentsCreated > 3)
                      || (gap < 120 * Second && (playlist || advancing || conns))))
    || (!keepalive && gap < 120 * Second
        && ((playlist && advancing) || (playlist && conns) || (advancing && conns)))
  }

  /** Tier 1: a segment request within 20 seconds is enough. */
  lemma FreshSegmentsAreHealthy(s: Snapshot, now: int)
    requires now - s.lastSegment < 20 * Second
    ensures HealthCheck(s, now) == Health(true, FreshSegments)
  {
  }

  /** Tier 2: with a keepalive within 15 seconds, segments within a minute,
      or else a session younger than two minutes with more than three
      segments, are enough. */
  lemma FreshKeepalive(s: Snapshot, now: int)
    requires 20 * Second <= now - s.lastSegment && now - s.lastKeepalive < 15 * Second
    ensures now - s.lastSegment < 60 * Second ==> HealthCheck(s, now) == Health(true, KeepaliveRecent)
    ensures now - s.lastSegment >= 60 * Second && s.sessionAge < 2 * Minute && s.segmentsCreated > 3 ==>
      HealthCheck(s, now) == Health(true, KeepaliveInitializing)
  {
  }

  /** Tier 2 quorum: with a fresh keepalive and segments between one and two
      minutes old, the keepalive and any one other weak signal are a quorum;
      with segments two minutes old or more the session is stuck. */
  lemma KeepaliveQuorum(s: Snapshot, now: int)
    requires now - s.lastKeepalive < 15 * Second && 60 * Second <= now - s.lastSegment
    requires !(s.sessionAge < 2 * Minute && s.segmentsCreated > 3)
    ensures now - s.lastSegment < 120 * Second ==>
      (HealthCheck(s, now) == Health(true, WeakQuorum) <==>
        (now - s.lastPlaylist < 15 * Second || Advancing(s) || s.activeConns > 0))
    ensures now - s.lastSegment >= 120 * Second ==> HealthCheck(s, now) == Health(false, KeepaliveIsolated)
  {
  }

  /** Tier 3: without a fresh keepalive, two of a recent playlist request, an
      advancing segment index and an open connection are a quorum while
      segments are under two minutes old. */
  lemma QuorumWithoutFreshKeepalive(s: Snapshot, now: int)
    requires 20 * Second <= now - s.lastSegment < 120 * Second && now - s.lastKeepalive >= 15 * Second
    ensures HealthCheck(s, now).healthy <==> QuorumTierSignals(s, now) >= 2
    ensures HealthCheck(s, now).healthy ==> HealthCheck(s, now).reason == QuorumWithoutKeepalive
  {
  }

  /** After two minutes without a segment request, only a young productive
      session with a fresh keepalive is healthy. */
  lemma LongGapHealthyOnlyWhileInitializing(s: Snapshot, now: int)
    requires now - s.lastSegment >= 120 * Second
    ensures HealthCheck(s, now).healthy <==>
      (now - s.lastKeepalive < 15 * Second && s.sessionAge < 2 * Minute && s.segmentsCreated > 3)
    ensures HealthCheck(s, now).healthy ==> HealthCheck(s, now).reason == KeepaliveInitializing
  {
  }
}
