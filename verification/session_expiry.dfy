/** Gateway session expiry: retaining in place against collecting and then removing. */
module SessionExpiry {
  import opened Collections
  import opened MachineInts
  import opened RoundRobin

  const NOW: nat := 100
  const GRACE: nat := 20

  datatype SessionState = Connected | Disconnected(since: word)

  type Sessions = map<nat, SessionState>

  /** The test of the retaining scan. */
  predicate Kept(state: SessionState) {
    match state
    case Connected => true
    case Disconnected(since) => SatSub(NOW, since) <= GRACE
  }

  /** The test of the collecting scan. */
  predicate Collected(state: SessionState) {
    match state
    case Connected => false
    case Disconnected(since) => SatSub(NOW, since) > GRACE
  }

  /** Disconnected since before the grace window. */
  predicate Expired(state: SessionState) {
    state.Disconnected? && state.since < NOW - GRACE
  }

  /** The two scans' tests are opposite, and both mean expiry, also for sessions that disconnected
      in the future. */
  lemma ExpiredExactly(state: SessionState)
    ensures Collected(state) <==> !Kept(state)
    ensures Collected(state) <==> Expired(state)
  {
  }

  function ExpiredIds(sessions: Sessions): set<nat> {
    set id | id in sessions && Expired(sessions[id])
  }

  /** `remaining` are the sessions that have not expired, unchanged. */
  ghost predicate Remain(remaining: Sessions, sessions: Sessions) {
    && (forall id :: id in remaining <==> id in sessions && !Expired(sessions[id]))
    && (forall id | id in remaining :: remaining[id] == sessions[id])
  }

  lemma RemainSize(remaining: Sessions, sessions: Sessions)
    requires Remain(remaining, sessions)
    ensures |remaining| + |ExpiredIds(sessions)| == |sessions|
  {
    assert sessions.Keys == remaining.Keys + ExpiredIds(sessions);
    assert |sessions.Keys| == |remaining.Keys| + |ExpiredIds(sessions)|;
  }

  /** Visits every session once and drops it unless its test keeps it. */
  method RetainExpired(sessions: Sessions) returns (remaining: Sessions, expired: nat)
    ensures Remain(remaining, sessions) && expired == |ExpiredIds(sessions)|
  {
    remaining := sessions;
    var pending := sessions.Keys;
    while pending != {}
      invariant pending <= sessions.Keys
      invariant forall id ::
                  id in remaining <==> id in sessions && (id in pending || !Expired(sessions[id]))
      invariant forall id | id in remaining :: remaining[id] == sessions[id]
      decreases pending
    {
      var id :| id in pending;
      if !Kept(remaining[id]) {
        remaining := remaining - {id};
      }
      pending := pending - {id};
    }
    RemainSize(remaining, sessions);
    expired := |sessions| - |remaining|;
  }

  method CollectExpired(sessions: Sessions) returns (ids: seq<nat>)
    ensures Distinct(ids)
    ensures forall id :: id in ids <==> id in sessions && Expired(sessions[id])
  {
    ids := [];
    var pending := sessions.Keys;
    while pending != {}
      invariant pending <= sessions.Keys && Distinct(ids)
      invariant forall id :: id in ids <==> id in sessions && id !in pending && Expired(sessions[id])
      decreases pending
    {
      var id :| id in pending;
      if Collected(sessions[id]) {
        ids := ids + [id];
      }
      pending := pending - {id};
    }
  }

  /** Collects the expired ids, then removes them one by one: the remaining sessions and the
      count are those of the retaining scan, for every session map. */
  method CollectRemoveExpired(sessions: Sessions) returns (remaining: Sessions, expired: nat)
    ensures Remain(remaining, sessions) && expired == |ExpiredIds(sessions)|
  {
    var ids := CollectExpired(sessions);
    remaining := sessions;
    for i := 0 to |ids|
      invariant forall id :: id in remaining <==> id in sessions && id !in ids[..i]
      invariant forall id | id in remaining :: remaining[id] == sessions[id]
      invariant |remaining| == |sessions| - i
    {
      assert ids[i] in ids;
      RemoveSize(remaining, ids[i]);
      remaining := remaining - {ids[i]};
    }
    assert ids[..|ids|] == ids;
    RemainSize(remaining, sessions);
    expired := |ids|;
  }

  lemma RemoveSize(sessions: Sessions, id: nat)
    requires id in sessions
    ensures |sessions - {id}| == |sessions| - 1
  {
    assert (sessions - {id}).Keys == sessions.Keys - {id};
    assert |sessions - {id}| == |(sessions - {id}).Keys|;
  }

  // ----- the run -----

  /** A session in four is connected, one disconnected at the edge of the grace window, and two
      long before it. */
  function CreatedState(index: nat): SessionState {
    match index % 4
    case 0 => Connected
    case 1 => Disconnected(NOW - GRACE)
    case _ => Disconnected(0)
  }

  function Created(count: nat): Sessions { map index | 0 <= index < count :: CreatedState(index) }

  /** Sessions that expire in every call, in closed form. */
  lemma {:induction false} CreatedExpired(count: nat)
    ensures |Created(count)| == count
    ensures |ExpiredIds(Created(count))| == SlotSize(count, 4, 2) + SlotSize(count, 4, 3)
  {
    hide SlotSize;
    if count == 0 {
      NobodyExpired();
    } else {
      CreatedExpired(count - 1);
      SlotStep(count - 1, 4, 2);
      SlotStep(count - 1, 4, 3);
      CreatedStep(count - 1);
    }
  }

  lemma NobodyExpired()
    ensures |Created(0)| == 0 && |ExpiredIds(Created(0))| == 0
    ensures SlotSize(0, 4, 2) == SlotSize(0, 4, 3) == 0
  {
  }

  lemma CreatedStep(count: nat)
    ensures |Created(count + 1)| == |Created(count)| + 1
    ensures |ExpiredIds(Created(count + 1))|
            == |ExpiredIds(Created(count))| + if count % 4 >= 2 then 1 else 0
  {
    hide CreatedState, Expired;
    CreatedStateExpired(count);
    ExtendedSizes(Created(count), Created(count + 1), count);
  }

  lemma ExtendedSizes(before: Sessions, after: Sessions, id: nat)
    requires after.Keys == before.Keys + {id} && id !in before
    requires forall other | other in before :: after[other] == before[other]
    ensures |after| == |before| + 1
    ensures |ExpiredIds(after)| == |ExpiredIds(before)| + if Expired(after[id]) then 1 else 0
  {
    hide Expired;
    assert |after| == |after.Keys| && |before| == |before.Keys|;
    if Expired(after[id]) {
      assert ExpiredIds(after) == ExpiredIds(before) + {id};
    } else {
      assert ExpiredIds(after) == ExpiredIds(before);
    }
  }

  lemma CreatedStateExpired(index: nat)
    ensures Expired(CreatedState(index)) <==> index % 4 >= 2
  {
  }

  datatype Config = Config(sessions: word, callsPerTick: word, ticks: word, collectRemove: bool)

  datatype RunStats = RunStats(
    calls: word, expired: word, remaining: word, collections: word, ticksCompleted: word, exhausted: bool)

  /** The counters after `calls` calls. */
  ghost predicate Counted(stats: RunStats, config: Config, calls: nat) {
    var expired := |ExpiredIds(Created(config.sessions))|;
    && expired <= config.sessions
    && stats.calls == Min(calls, U64_MAX)
    && stats.expired == Min(calls * expired, U64_MAX)
    && stats.remaining == Min(calls * (config.sessions - expired), U64_MAX)
    && stats.collections == if config.collectRemove then stats.calls else 0
  }

  lemma CountedStep(stats: RunStats, after: RunStats, config: Config, calls: nat, expired: nat, remaining: nat)
    requires Counted(stats, config, calls)
    requires expired == |ExpiredIds(Created(config.sessions))| && remaining == config.sessions - expired
    requires after.calls == SatAdd(stats.calls, 1)
    requires after.expired == SatAdd(stats.expired, expired)
    requires after.remaining == SatAdd(stats.remaining, remaining)
    requires after.collections == if config.collectRemove then SatAdd(stats.collections, 1) else stats.collections
    ensures Counted(after, config, calls + 1)
  {
    assert (calls + 1) * expired == calls * expired + expired;
    assert (calls + 1) * remaining == calls * remaining + remaining;
    SatAddCap(calls * expired, expired);
    SatAddCap(calls * remaining, remaining);
  }

  /** One call on a copy of the sessions. */
  method RunCall(source: Sessions, config: Config, before: RunStats, ghost calls: nat) returns (stats: RunStats)
    requires source == Created(config.sessions) && Counted(before, config, calls)
    ensures Counted(stats, config, calls + 1)
    ensures stats.ticksCompleted == before.ticksCompleted && stats.exhausted == before.exhausted
  {
    hide Counted, Created, Expired;
    CreatedExpired(config.sessions);
    var remaining, expired, collections := source, 0, before.collections;
    if config.collectRemove {
      collections := SatAdd(collections, 1);
      remaining, expired := CollectRemoveExpired(source);
    } else {
      remaining, expired := RetainExpired(source);
    }
    RemainSize(remaining, source);
    stats := before.(
      calls := SatAdd(before.calls, 1), expired := SatAdd(before.expired, expired),
      remaining := SatAdd(before.remaining, |remaining|), collections := collections);
    CountedStep(before, stats, config, calls, expired, |remaining|);
  }

  /** `allowedCalls` calls start before the time budget is exhausted, and `late` tells whether it
      was exhausted when the last one ended. */
  method Run(config: Config, allowedCalls: nat, late: bool) returns (stats: RunStats)
    ensures Counted(stats, config, Min(config.ticks * config.callsPerTick, allowedCalls))
    ensures stats.exhausted <==> late || allowedCalls < config.ticks * config.callsPerTick
    ensures !stats.exhausted ==> stats.ticksCompleted == Min(config.ticks, U64_MAX)
  {
    hide Created, ExpiredIds;
    var source := Created(config.sessions);
    stats := RunStats(0, 0, 0, 0, 0, false);
    StartCounted(stats, config);
    var started := 0;
    label ticks: for tick := 0 to config.ticks
      invariant started == tick * config.callsPerTick <= allowedCalls
      invariant Counted(stats, config, started) && !stats.exhausted
      invariant stats.ticksCompleted == Min(tick, U64_MAX)
    {
      TickWithin(config, tick);
      for call := 0 to config.callsPerTick
        invariant started == tick * config.callsPerTick + call <= allowedCalls
        invariant Counted(stats, config, started) && !stats.exhausted
        invariant stats.ticksCompleted == Min(tick, U64_MAX)
      {
        if started >= allowedCalls {
          stats := stats.(exhausted := true);
          break ticks;
        }
        stats := RunCall(source, config, stats, started);
        started := started + 1;
      }
      stats := stats.(ticksCompleted := SatAdd(stats.ticksCompleted, 1));
    }
    if late {
      stats := stats.(exhausted := true);
    }
  }

  lemma StartCounted(stats: RunStats, config: Config)
    requires stats == RunStats(0, 0, 0, 0, 0, false)
    ensures Counted(stats, config, 0)
  {
    CreatedExpired(config.sessions);
    RemainExists(Created(config.sessions));
  }

  lemma RemainExists(sessions: Sessions)
    ensures |ExpiredIds(sessions)| <= |sessions|
  {
    var remaining := map id | id in sessions && !Expired(sessions[id]) :: sessions[id];
    RemainSize(remaining, sessions);
  }

  lemma TickWithin(config: Config, tick: nat)
    requires tick < config.ticks
    ensures (tick + 1) * config.callsPerTick == tick * config.callsPerTick + config.callsPerTick
            <= config.ticks * config.callsPerTick
  {
    ProductMonotone(tick + 1, config.ticks, config.callsPerTick);
  }

  // ----- the guard and the verdict -----

  const GUARD_MAX_SESSIONS: nat := 20_000
  const GUARD_MAX_CALLS_PER_TICK: nat := 100
  const GUARD_MAX_TICKS: nat := 20

  /** The sizes a run may use: positive, and without the heavy flag within the guard. */
  predicate Usable(config: Config, allowHeavy: bool) {
    && 1 <= config.sessions && 1 <= config.callsPerTick && 1 <= config.ticks
    && (allowHeavy
        || (&& config.sessions <= GUARD_MAX_SESSIONS && config.callsPerTick <= GUARD_MAX_CALLS_PER_TICK
            && config.ticks <= GUARD_MAX_TICKS))
  }

  class Settings {
    var sessions: word
    var callsPerTick: word
    var ticks: word
    const collectRemove: bool
    const allowHeavy: bool
    var guardApplied: bool

    constructor (requested: Config, allowHeavy: bool)
      ensures Current() == requested && this.allowHeavy == allowHeavy
    {
      sessions, callsPerTick, ticks := requested.sessions, requested.callsPerTick, requested.ticks;
      collectRemove := requested.collectRemove;
      this.allowHeavy, guardApplied := allowHeavy, false;
    }

    function Current(): Config
      reads this
    {
      Config(sessions, callsPerTick, ticks, collectRemove)
    }

    /** Ends with usable sizes, changes exactly the requests that are not usable, and reports it. */
    method Normalize()
      modifies this
      ensures Usable(Current(), allowHeavy)
      ensures guardApplied <==> !Usable(old(Current()), allowHeavy)
      ensures !guardApplied ==> Current() == old(Current())
      ensures sessions == Clamped(old(sessions), GUARD_MAX_SESSIONS, allowHeavy)
      ensures callsPerTick == Clamped(old(callsPerTick), GUARD_MAX_CALLS_PER_TICK, allowHeavy)
      ensures ticks == Clamped(old(ticks), GUARD_MAX_TICKS, allowHeavy)
    {
      var before := Current();
      sessions := Max(sessions, 1);
      callsPerTick := Max(callsPerTick, 1);
      ticks := Max(ticks, 1);
      if !allowHeavy {
        sessions := Min(sessions, GUARD_MAX_SESSIONS);
        callsPerTick := Min(callsPerTick, GUARD_MAX_CALLS_PER_TICK);
        ticks := Min(ticks, GUARD_MAX_TICKS);
      }
      guardApplied := before != Current();
    }
  }

  /** The verdict, exactly. That the time budget sufficed is not enough: with fewer than three
      sessions none ever expires, and the benchmark fails though both scans are right. */
  method Benchmark(requested: Config, allowHeavy: bool, allowedCalls: nat, late: bool)
    returns (ok: bool, config: Config)
    ensures Usable(config, allowHeavy)
    ensures Usable(requested, allowHeavy) ==> config == requested
    ensures ok <==> requested.sessions >= 3 && !late && config.ticks * config.callsPerTick <= allowedCalls
  {
    var settings := new Settings(requested, allowHeavy);
    settings.Normalize();
    config := settings.Current();
    var stats := Run(config, allowedCalls, late);
    var expectedCalls := SatMul(config.callsPerTick, config.ticks);
    var pathOk := if config.collectRemove then stats.collections == expectedCalls else stats.collections == 0;
    ok := stats.calls == expectedCalls && stats.ticksCompleted == config.ticks
      && stats.expired > 0 && stats.remaining > 0 && !stats.exhausted && pathOk;
    CountersPositive(config, stats, Min(config.ticks * config.callsPerTick, allowedCalls));
  }

  lemma CountersPositive(config: Config, stats: RunStats, calls: nat)
    requires 1 <= config.sessions && Counted(stats, config, calls)
    ensures stats.expired > 0 <==> calls > 0 && config.sessions >= 3
    ensures stats.remaining > 0 <==> calls > 0
  {
    hide Created, ExpiredIds, SlotSize;
    var expired := |ExpiredIds(Created(config.sessions))|;
    SomeExpire(config.sessions);
    if calls > 0 {
      ProductMonotone(1, calls, expired);
      ProductMonotone(1, calls, config.sessions - expired);
    }
  }

  lemma SomeExpire(count: nat)
    requires count >= 1
    ensures |ExpiredIds(Created(count))| < count
    ensures |ExpiredIds(Created(count))| > 0 <==> count >= 3
  {
    hide Created, ExpiredIds, SlotSize;
    CreatedExpired(count);
    SlotSizeFormula(count, 4, 2);
    SlotSizeFormula(count, 4, 3);
  }
}
