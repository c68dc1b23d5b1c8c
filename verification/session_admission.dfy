/** Gateway session lookups with a per-tick admission counter that is reset lazily, on the
    first admission of a tick. */
module SessionAdmission {
  import opened MachineInts
  import opened RoundRobin

  datatype SessionRecord = SessionRecord(
    station: nat,
    generation: word,
    routeEpoch: word,
    lastSequence: word,
    commandTick: nat,
    commandsThisTick: word,
    lastSeen: word)

  datatype Config = Config(sessions: nat, operationsPerTick: nat, ticks: nat)

  /** The state the operations share: the session map and the admission checksum. */
  datatype State = State(sessions: map<nat, SessionRecord>, checksum: word, admissions: word)

  function SessionIndex(config: Config, operation: nat, tick: nat): (session: nat)
    requires config.sessions > 0
    ensures session < config.sessions
  {
    SatAdd(SatMul(operation, 17), SatMul(tick, 31)) % config.sessions
  }

  /** Short of saturation an operation addresses the session 17 further than the one before it,
      and a tick starts 31 further than the one before it. */
  lemma IndexAdvances(config: Config, operation: nat, tick: nat)
    requires config.sessions > 0 && (operation + 1) * 17 + (tick + 1) * 31 <= U64_MAX
    ensures SessionIndex(config, 0, 0) == 0
    ensures SessionIndex(config, operation + 1, tick)
            == (SessionIndex(config, operation, tick) + 17) % config.sessions
    ensures SessionIndex(config, operation, tick + 1)
            == (SessionIndex(config, operation, tick) + 31) % config.sessions
  {
    ShortIndex(config, 0, 0, 0);
    IndexMoves(config, operation, tick, operation + 1, tick, 17);
    IndexMoves(config, operation, tick, operation, tick + 1, 31);
    hide SessionIndex;
  }

  lemma IndexMoves(config: Config, operation: nat, tick: nat, nextOperation: nat, nextTick: nat, step: nat)
    requires config.sessions > 0
    requires operation * 17 + tick * 31 + step == nextOperation * 17 + nextTick * 31 <= U64_MAX
    ensures SessionIndex(config, nextOperation, nextTick)
            == (SessionIndex(config, operation, tick) + step) % config.sessions
  {
    var index := operation * 17 + tick * 31;
    ShortIndex(config, operation, tick, index);
    ShortIndex(config, nextOperation, nextTick, index + step);
    hide SessionIndex;
    SumMod(index, step, config.sessions);
  }

  lemma ShortIndex(config: Config, operation: nat, tick: nat, index: nat)
    requires config.sessions > 0 && index == operation * 17 + tick * 31 <= U64_MAX
    ensures SessionIndex(config, operation, tick) == index % config.sessions
  {
  }

  /** Unless 17 divides the number of sessions, the operations of a tick that address one session
      are exactly those a multiple of that number apart: all sessions take turns. */
  lemma SameSessionExactly(config: Config, operation: nat, later: nat, tick: nat)
    requires config.sessions % 17 != 0 && operation <= later && later * 17 + tick * 31 <= U64_MAX
    ensures SessionIndex(config, operation, tick) == SessionIndex(config, later, tick)
            <==> (later - operation) % config.sessions == 0
  {
    var base := operation * 17 + tick * 31;
    assert later * 17 + tick * 31 == base + (later - operation) * 17;
    SameRemainder(base, (later - operation) * 17, config.sessions);
    SeventeenTimes(later - operation, config.sessions);
  }

  lemma SameRemainder(x: nat, y: nat, n: nat)
    requires n > 0
    ensures x % n == (x + y) % n <==> y % n == 0
  {
    if y % n == 0 {
      SumMod(y, x, n);
    } else if x % n == (x + y) % n {
      var q := (x + y) / n - x / n;
      assert x == x / n * n + x % n && x + y == (x + y) / n * n + (x + y) % n;
      assert (x + y) / n * n - x / n * n == q * n;
      if q < 0 {
        ProductMonotone(q, -1, n);
      } else {
        DivModUnique(y, n, q, 0);
      }
    }
  }

  lemma SeventeenTimes(d: nat, n: nat)
    requires n % 17 != 0
    ensures d * 17 % n == 0 <==> d % n == 0
  {
    if d % n == 0 {
      assert d == d / n * n;
      assert d * 17 == d / n * 17 * n;
      DivModUnique(d * 17, n, d / n * 17, 0);
    } else if d * 17 % n == 0 {
      var k := d * 17 / n;
      assert d * 17 == k * n;
      Seventeen(k, n, d);
      DivModUnique(d, n, k / 17, 0);
    }
  }

  /** 17 is prime: it divides a product with a number that it does not divide only through the
      other factor. */
  lemma Seventeen(k: nat, n: nat, d: nat)
    requires k * n == d * 17 && n % 17 != 0
    ensures k % 17 == 0 && d == k / 17 * n
  {
    var r, s := k % 17, n % 17;
    var a, b := k / 17, n / 17;
    assert k == a * 17 + r && n == b * 17 + s;
    assert k * n == (a * n + r * b) * 17 + r * s;
    assert r * s == (d - (a * n + r * b)) * 17;
    ProductOfRemainders(r, s, d - (a * n + r * b));
    assert k == a * 17;
    assert k * n == a * n * 17;
  }

  lemma ProductOfRemainders(r: nat, s: nat, q: int)
    requires r < 17 && 0 < s < 17 && r * s == q * 17
    ensures r == 0
  {
    match s
    case 1 =>
    case 2 =>
    case 3 =>
    case 4 =>
    case 5 =>
    case 6 =>
    case 7 =>
    case 8 =>
    case 9 =>
    case 10 =>
    case 11 =>
    case 12 =>
    case 13 =>
    case 14 =>
    case 15 =>
    case _ =>
  }

  function NewSession(session: nat): SessionRecord {
    SessionRecord(session % 256, 1, 1, 0, 0, 0, 0)
  }

  function Initial(config: Config): State {
    State(map session | 0 <= session < config.sessions :: NewSession(session), 0, 0)
  }

  /** Admission of one command: the counter is reset when its tick is stale. */
  function Admit(record: SessionRecord, tick: nat): SessionRecord {
    var current :=
      if record.commandTick != tick then record.(commandTick := tick, commandsThisTick := 0)
      else record;
    current.(
      lastSequence := SatAdd(current.lastSequence, 1),
      commandsThisTick := SatAdd(current.commandsThisTick, 1),
      lastSeen := SatAdd(current.lastSeen, 1))
  }

  /** One operation: every eighth admits a command, the others only read the route. */
  function Operate(state: State, config: Config, operation: nat, tick: nat): State
    requires config.sessions > 0
    requires SessionIndex(config, operation, tick) in state.sessions
  {
    var session := SessionIndex(config, operation, tick);
    var record := state.sessions[session];
    if operation % 8 == 0 then
      var admitted := Admit(record, tick);
      State(
        state.sessions[session := admitted],
        WrapAdd(WrapAdd(state.checksum, admitted.lastSequence), admitted.lastSeen),
        SatAdd(state.admissions, 1))
    else
      state.(checksum := WrapAdd(
        WrapAdd(WrapAdd(state.checksum, record.station), record.generation), record.routeEpoch))
  }

  /** How many of the first `operations` operations of a tick admit a command of the session. */
  function AdmissionsInTick(config: Config, session: nat, operations: nat, tick: nat): nat
    requires config.sessions > 0
  {
    if operations == 0 then 0
    else AdmissionsInTick(config, session, operations - 1, tick)
         + if (operations - 1) % 8 == 0 && SessionIndex(config, operations - 1, tick) == session
           then 1 else 0
  }

  /** Admissions of the session over the first `ticks` whole ticks. */
  function AdmissionsBefore(config: Config, session: nat, ticks: nat): nat
    requires config.sessions > 0
  {
    if ticks == 0 then 0
    else AdmissionsBefore(config, session, ticks - 1)
         + AdmissionsInTick(config, session, config.operationsPerTick, ticks - 1)
  }

  /** The counter as an observer at `tick` must read it: a stale one counts as zero. */
  function CommandsAt(record: SessionRecord, tick: nat): nat {
    if record.commandTick == tick then record.commandsThisTick else 0
  }

  /** Exactly the configured sessions have a record. */
  ghost predicate Registered(state: State, config: Config) {
    forall session: nat :: session in state.sessions <==> session < config.sessions
  }

  /** The record tells the session's true history after `operations` operations of `tick`. */
  ghost predicate TrueCount(record: SessionRecord, config: Config, session: nat, operations: nat, tick: nat)
    requires config.sessions > 0
  {
    var current := AdmissionsInTick(config, session, operations, tick);
    && record.commandTick <= tick
    && CommandsAt(record, tick) == Min(current, U64_MAX)
    && record.lastSequence == record.lastSeen
       == Min(AdmissionsBefore(config, session, tick) + current, U64_MAX)
    && record.station == session % 256 && record.generation == record.routeEpoch == 1
  }

  ghost predicate TrueCounts(state: State, config: Config, operations: nat, tick: nat)
    requires config.sessions > 0
  {
    && Registered(state, config)
    && forall session | session in state.sessions ::
         TrueCount(state.sessions[session], config, session, operations, tick)
  }

  lemma InitialCounts(config: Config)
    requires config.sessions > 0
    ensures TrueCounts(Initial(config), config, 0, 0)
  {
  }

  /** Main step: after an operation the lazily reset counters still tell the truth. */
  lemma OperateKeepsCounts(state: State, config: Config, operations: nat, tick: nat)
    requires config.sessions > 0 && TrueCounts(state, config, operations, tick)
    ensures TrueCounts(Operate(state, config, operations, tick), config, operations + 1, tick)
  {
    var after := Operate(state, config, operations, tick);
    forall session | session in after.sessions
      ensures TrueCount(after.sessions[session], config, session, operations + 1, tick)
    {
      assert TrueCount(state.sessions[session], config, session, operations, tick);
    }
  }

  /** At the end of a tick nothing is written, yet every counter reads zero for the next tick. */
  lemma NextTickKeepsCounts(state: State, config: Config, tick: nat)
    requires config.sessions > 0 && TrueCounts(state, config, config.operationsPerTick, tick)
    ensures TrueCounts(state, config, 0, tick + 1)
  {
  }

  /** Sum of the sessions' admissions. */
  function TotalInTick(config: Config, sessions: nat, operations: nat, tick: nat): nat
    requires config.sessions > 0
  {
    if sessions == 0 then 0
    else TotalInTick(config, sessions - 1, operations, tick)
         + AdmissionsInTick(config, sessions - 1, operations, tick)
  }

  lemma {:induction false} TotalInTickStep(config: Config, sessions: nat, operations: nat, tick: nat)
    requires config.sessions > 0
    ensures TotalInTick(config, sessions, operations + 1, tick)
            == TotalInTick(config, sessions, operations, tick)
               + if operations % 8 == 0 && SessionIndex(config, operations, tick) < sessions then 1 else 0
  {
    if sessions > 0 {
      TotalInTickStep(config, sessions - 1, operations, tick);
    }
  }

  lemma {:induction false} TotalInTickStart(config: Config, sessions: nat, tick: nat)
    requires config.sessions > 0
    ensures TotalInTick(config, sessions, 0, tick) == 0
  {
    if sessions > 0 {
      TotalInTickStart(config, sessions - 1, tick);
    }
  }

  /** Conservation within a tick: every eighth operation is admitted by exactly one session. */
  lemma {:induction false} TickAdmissions(config: Config, operations: nat, tick: nat)
    requires config.sessions > 0
    ensures TotalInTick(config, config.sessions, operations, tick) == DivCeil(operations, 8)
  {
    if operations == 0 {
      TotalInTickStart(config, config.sessions, tick);
    } else {
      TickAdmissions(config, operations - 1, tick);
      TotalInTickStep(config, config.sessions, operations - 1, tick);
      SlotStep(operations - 1, 8, 0);
    }
  }

  function TotalBefore(config: Config, sessions: nat, ticks: nat): nat
    requires config.sessions > 0
  {
    if sessions == 0 then 0
    else TotalBefore(config, sessions - 1, ticks) + AdmissionsBefore(config, sessions - 1, ticks)
  }

  lemma {:induction false} TotalBeforeStep(config: Config, sessions: nat, ticks: nat)
    requires config.sessions > 0
    ensures TotalBefore(config, sessions, ticks + 1)
            == TotalBefore(config, sessions, ticks)
               + TotalInTick(config, sessions, config.operationsPerTick, ticks)
    ensures TotalBefore(config, sessions, 0) == 0
  {
    if sessions > 0 {
      TotalBeforeStep(config, sessions - 1, ticks);
    }
  }

  /** Conservation over a run: the sessions' admissions add up to one per started group of
      eight operations, tick by tick. */
  lemma {:induction false} RunAdmissions(config: Config, ticks: nat)
    requires config.sessions > 0
    ensures TotalBefore(config, config.sessions, ticks) == ticks * DivCeil(config.operationsPerTick, 8)
  {
    hide DivCeil, TotalBefore;
    var perTick := DivCeil(config.operationsPerTick, 8);
    if ticks == 0 {
      TotalBeforeStep(config, config.sessions, 0);
    } else {
      TotalBeforeStep(config, config.sessions, ticks - 1);
      RunAdmissions(config, ticks - 1);
      TickAdmissions(config, config.operationsPerTick, ticks - 1);
      assert ticks * perTick == (ticks - 1) * perTick + perTick;
    }
  }

  /** Sum of the last sequence numbers of the first sessions. */
  function SequenceSum(state: State, sessions: nat): nat
    requires forall session | 0 <= session < sessions :: session in state.sessions
  {
    if sessions == 0 then 0
    else SequenceSum(state, sessions - 1) + state.sessions[sessions - 1].lastSequence
  }

  lemma {:induction false} SequenceSumIsTotal(state: State, config: Config, sessions: nat, ticks: nat)
    requires config.sessions > 0 && sessions <= config.sessions
    requires TrueCounts(state, config, 0, ticks)
    requires TotalBefore(config, sessions, ticks) <= U64_MAX
    ensures SequenceSum(state, sessions) == TotalBefore(config, sessions, ticks)
  {
    if sessions > 0 {
      SequenceSumIsTotal(state, config, sessions - 1, ticks);
    }
  }

  /** After whole ticks the last sequence numbers add up to all admissions. */
  lemma SequencesAccountForAdmissions(state: State, config: Config, ticks: nat)
    requires config.sessions > 0 && TrueCounts(state, config, 0, ticks)
    requires ticks * DivCeil(config.operationsPerTick, 8) <= U64_MAX
    ensures SequenceSum(state, config.sessions) == ticks * DivCeil(config.operationsPerTick, 8)
  {
    RunAdmissions(config, ticks);
    SequenceSumIsTotal(state, config, config.sessions, ticks);
  }

  /** State after the first `operations` operations of a tick. */
  function TickUpTo(state: State, config: Config, operations: nat, tick: nat): (after: State)
    requires config.sessions > 0 && Registered(state, config)
    ensures Registered(after, config)
  {
    if operations == 0 then state
    else Operate(TickUpTo(state, config, operations - 1, tick), config, operations - 1, tick)
  }

  function RunUpTo(config: Config, ticks: nat): (after: State)
    requires config.sessions > 0
    ensures Registered(after, config)
  {
    if ticks == 0 then Initial(config)
    else TickUpTo(RunUpTo(config, ticks - 1), config, config.operationsPerTick, ticks - 1)
  }

  lemma TickStep(state: State, config: Config, operations: nat, tick: nat)
    requires config.sessions > 0 && Registered(state, config)
    ensures TickUpTo(state, config, operations + 1, tick)
            == Operate(TickUpTo(state, config, operations, tick), config, operations, tick)
  {
    hide Operate;
  }

  lemma {:induction false} TickCounts(state: State, config: Config, operations: nat, tick: nat)
    requires config.sessions > 0 && TrueCounts(state, config, 0, tick)
    ensures TrueCounts(TickUpTo(state, config, operations, tick), config, operations, tick)
  {
    assert Registered(state, config);
    hide TrueCounts, Registered, Operate;
    if operations > 0 {
      TickCounts(state, config, operations - 1, tick);
      OperateKeepsCounts(TickUpTo(state, config, operations - 1, tick), config, operations - 1, tick);
      TickStep(state, config, operations - 1, tick);
    }
  }

  lemma {:induction false} TickAdmitted(state: State, config: Config, operations: nat, tick: nat)
    requires config.sessions > 0 && Registered(state, config)
    ensures TickUpTo(state, config, operations, tick).admissions
            == Min(state.admissions + SlotSize(operations, 8, 0), U64_MAX)
  {
    if operations > 0 {
      TickAdmitted(state, config, operations - 1, tick);
      SlotStep(operations - 1, 8, 0);
    }
  }

  /** Over every run: at each tick boundary every lazily reset counter tells the truth. */
  lemma {:induction false} RunCounts(config: Config, ticks: nat)
    requires config.sessions > 0
    ensures TrueCounts(RunUpTo(config, ticks), config, 0, ticks)
  {
    hide TrueCounts, TickUpTo;
    if ticks == 0 {
      InitialCounts(config);
    } else {
      var before := RunUpTo(config, ticks - 1);
      RunCounts(config, ticks - 1);
      TickCounts(before, config, config.operationsPerTick, ticks - 1);
      NextTickKeepsCounts(
        TickUpTo(before, config, config.operationsPerTick, ticks - 1), config, ticks - 1);
    }
  }

  /** Over every run: the reported admissions are one per started group of eight operations. */
  lemma {:induction false} RunAdmitted(config: Config, ticks: nat)
    requires config.sessions > 0
    ensures RunUpTo(config, ticks).admissions
            == Min(ticks * DivCeil(config.operationsPerTick, 8), U64_MAX)
  {
    hide TickUpTo;
    if ticks > 0 {
      var perTick := SlotSize(config.operationsPerTick, 8, 0);
      RunAdmitted(config, ticks - 1);
      TickAdmitted(RunUpTo(config, ticks - 1), config, config.operationsPerTick, ticks - 1);
      assert ticks * perTick == (ticks - 1) * perTick + perTick;
    }
  }

  /** What an operation adds to the checksum, told by the history: an admission twice the number of
      the session's admissions so far, a read the session's route. */
  function Contribution(config: Config, operation: nat, tick: nat): nat
    requires config.sessions > 0
  {
    var session := SessionIndex(config, operation, tick);
    if operation % 8 == 0 then
      2 * Min(AdmissionsBefore(config, session, tick) + AdmissionsInTick(config, session, operation + 1, tick), U64_MAX)
    else session % 256 + 2
  }

  function ContributionsInTick(config: Config, operations: nat, tick: nat): nat
    requires config.sessions > 0
  {
    if operations == 0 then 0
    else ContributionsInTick(config, operations - 1, tick) + Contribution(config, operations - 1, tick)
  }

  function ContributionsBefore(config: Config, ticks: nat): nat
    requires config.sessions > 0
  {
    if ticks == 0 then 0
    else ContributionsBefore(config, ticks - 1) + ContributionsInTick(config, config.operationsPerTick, ticks - 1)
  }

  lemma OperateAdds(state: State, config: Config, operation: nat, tick: nat)
    requires config.sessions > 0 && TrueCounts(state, config, operation, tick)
    ensures Operate(state, config, operation, tick).checksum
            == (state.checksum + Contribution(config, operation, tick)) % U64_LIMIT
  {
    var session := SessionIndex(config, operation, tick);
    assert TrueCount(state.sessions[session], config, session, operation, tick);
    OperateKeepsCounts(state, config, operation, tick);
    var after := Operate(state, config, operation, tick);
    assert TrueCount(after.sessions[session], config, session, operation + 1, tick);
    hide TrueCounts, TrueCount, AdmissionsInTick, AdmissionsBefore;
    var record := after.sessions[session];
    if operation % 8 == 0 {
      WrapAddMod(state.checksum + record.lastSequence, record.lastSeen);
    } else {
      WrapAddMod(state.checksum + record.station, record.generation);
      WrapAddMod(state.checksum + record.station + record.generation, record.routeEpoch);
    }
  }

  /** A wrapping checksum after adding `sum` to `start`. */
  predicate Adds(checksum: nat, start: nat, sum: nat) { checksum == (start + sum) % U64_LIMIT }

  lemma {:induction false} TickChecksum(state: State, config: Config, operations: nat, tick: nat)
    requires config.sessions > 0 && TrueCounts(state, config, 0, tick)
    ensures Adds(
              TickUpTo(state, config, operations, tick).checksum, state.checksum,
              ContributionsInTick(config, operations, tick))
  {
    hide TrueCounts, Registered, Contribution, TickUpTo, ContributionsInTick, Adds;
    CountsRegistered(state, config, tick);
    if operations == 0 {
      EmptyTick(state, config, tick);
    } else {
      TickChecksum(state, config, operations - 1, tick);
      ChecksumStep(state, config, operations - 1, tick);
      AddsCompose(
        TickUpTo(state, config, operations, tick).checksum,
        TickUpTo(state, config, operations - 1, tick).checksum, state.checksum,
        ContributionsInTick(config, operations - 1, tick), Contribution(config, operations - 1, tick));
    }
  }

  lemma ChecksumStep(state: State, config: Config, operations: nat, tick: nat)
    requires config.sessions > 0 && TrueCounts(state, config, 0, tick)
    ensures Adds(
              TickUpTo(state, config, operations + 1, tick).checksum,
              TickUpTo(state, config, operations, tick).checksum, Contribution(config, operations, tick))
    ensures ContributionsInTick(config, operations + 1, tick)
            == ContributionsInTick(config, operations, tick) + Contribution(config, operations, tick)
  {
    assert Registered(state, config);
    TickCounts(state, config, operations, tick);
    TickStep(state, config, operations, tick);
    hide TrueCounts, Registered, Operate, Contribution, TickUpTo;
    OperateAdds(TickUpTo(state, config, operations, tick), config, operations, tick);
  }

  lemma CountsRegistered(state: State, config: Config, tick: nat)
    requires config.sessions > 0 && TrueCounts(state, config, 0, tick)
    ensures Registered(state, config)
  {
  }

  lemma EmptyTick(state: State, config: Config, tick: nat)
    requires config.sessions > 0 && Registered(state, config)
    ensures Adds(
              TickUpTo(state, config, 0, tick).checksum, state.checksum,
              ContributionsInTick(config, 0, tick))
  {
  }

  lemma AddsCompose(last: nat, checksum: nat, start: nat, sum: nat, more: nat)
    requires Adds(checksum, start, sum) && Adds(last, checksum, more)
    ensures Adds(last, start, sum + more)
  {
    SumMod(start + sum, more, U64_LIMIT);
  }

  /** Over every run the checksum is the sum of all contributions, reduced once. */
  lemma {:induction false} RunChecksum(config: Config, ticks: nat)
    requires config.sessions > 0
    ensures RunUpTo(config, ticks).checksum == ContributionsBefore(config, ticks) % U64_LIMIT
  {
    hide TrueCounts, TickUpTo, ContributionsInTick;
    if ticks > 0 {
      RunChecksum(config, ticks - 1);
      RunCounts(config, ticks - 1);
      TickChecksum(RunUpTo(config, ticks - 1), config, config.operationsPerTick, ticks - 1);
      SumMod(
        ContributionsBefore(config, ticks - 1),
        ContributionsInTick(config, config.operationsPerTick, ticks - 1), U64_LIMIT);
    }
  }

  /** Map probes made by `operations` operations. */
  function Probes(operations: nat, doubleLookup: bool): nat {
    if doubleLookup then operations + operations else operations
  }

  /** The benchmark. A double lookup only adds probes: the sessions, the checksum and the
      admissions are those of a single lookup. */
  method Run(config: Config, doubleLookup: bool, allowedTicks: nat)
    returns (completed: nat, state: State, operations: word, mapProbes: word, exhausted: bool)
    requires config.sessions > 0
    ensures completed == Min(config.ticks, allowedTicks) && (exhausted <==> allowedTicks < config.ticks)
    ensures state == RunUpTo(config, completed)
    ensures operations == Min(completed * config.operationsPerTick, U64_MAX)
    ensures mapProbes == Min(Probes(completed * config.operationsPerTick, doubleLookup), U64_MAX)
  {
    state := Initial(config);
    completed, operations, mapProbes, exhausted := 0, 0, 0, false;
    ghost var done := 0;
    while completed < config.ticks
      invariant completed <= Min(config.ticks, allowedTicks) && !exhausted
      invariant done == completed * config.operationsPerTick
      invariant state == RunUpTo(config, completed)
      invariant operations == Min(done, U64_MAX)
      invariant mapProbes == Min(Probes(done, doubleLookup), U64_MAX)
    {
      if completed >= allowedTicks {
        exhausted := true;
        break;
      }
      state, operations, mapProbes :=
        RunTick(config, doubleLookup, completed, state, operations, mapProbes, done);
      assert (completed + 1) * config.operationsPerTick == done + config.operationsPerTick;
      done := done + config.operationsPerTick;
      completed := completed + 1;
    }
  }

  method RunTick(
      config: Config, doubleLookup: bool, tick: nat, before: State, operationsBefore: word,
      probesBefore: word, ghost done: nat)
    returns (state: State, operations: word, mapProbes: word)
    requires config.sessions > 0 && Registered(before, config)
    requires operationsBefore == Min(done, U64_MAX)
    requires probesBefore == Min(Probes(done, doubleLookup), U64_MAX)
    ensures state == TickUpTo(before, config, config.operationsPerTick, tick)
    ensures operations == Min(done + config.operationsPerTick, U64_MAX)
    ensures mapProbes == Min(Probes(done + config.operationsPerTick, doubleLookup), U64_MAX)
  {
    hide Operate;
    state, operations, mapProbes := before, operationsBefore, probesBefore;
    for operation := 0 to config.operationsPerTick
      invariant state == TickUpTo(before, config, operation, tick)
      invariant operations == Min(done + operation, U64_MAX)
      invariant mapProbes == Min(Probes(done + operation, doubleLookup), U64_MAX)
    {
      if doubleLookup {
        mapProbes := SatAdd(mapProbes, 1);
      }
      state := Operate(state, config, operation, tick);
      mapProbes := SatAdd(mapProbes, 1);
      operations := SatAdd(operations, 1);
    }
  }

  // ----- the guard and the verdict -----

  const GUARD_MAX_SESSIONS: nat := 65_536
  const GUARD_MAX_OPERATIONS_PER_TICK: nat := 200_000
  const GUARD_MAX_TICKS: nat := 20
  const GUARD_MAX_OPERATIONS: nat := 2_000_000

  predicate Positive(config: Config) {
    config.sessions >= 1 && config.operationsPerTick >= 1 && config.ticks >= 1
  }

  predicate WithinGuard(config: Config) {
    && config.sessions <= GUARD_MAX_SESSIONS && config.operationsPerTick <= GUARD_MAX_OPERATIONS_PER_TICK
    && config.ticks <= GUARD_MAX_TICKS
    && config.operationsPerTick * config.ticks <= GUARD_MAX_OPERATIONS
  }

  /** The sizes a run may use: positive, and without the heavy flag within the guard. Exactly the
      requests that are not so already are changed and reported, and operations are only lowered to
      the largest number that fits. */
  method ParseConfig(requested: Config, allowHeavy: bool) returns (config: Config, guardApplied: bool)
    ensures Positive(config) && (allowHeavy || WithinGuard(config))
    ensures guardApplied <==> !Positive(requested) || (!allowHeavy && !WithinGuard(requested))
    ensures !guardApplied ==> config == requested
    ensures config.sessions == if allowHeavy then Max(requested.sessions, 1)
                               else Min(Max(requested.sessions, 1), GUARD_MAX_SESSIONS)
    ensures config.ticks == if allowHeavy then Max(requested.ticks, 1)
                            else Min(Max(requested.ticks, 1), GUARD_MAX_TICKS)
    ensures config.operationsPerTick <= Max(requested.operationsPerTick, 1)
    ensures config.operationsPerTick < Max(requested.operationsPerTick, 1) ==>
              !allowHeavy && !WithinGuard(config.(operationsPerTick := config.operationsPerTick + 1))
  {
    var sessions := Max(requested.sessions, 1);
    var operations := Max(requested.operationsPerTick, 1);
    var ticks := Max(requested.ticks, 1);
    if !allowHeavy {
      sessions := Min(sessions, GUARD_MAX_SESSIONS);
      operations := Min(operations, GUARD_MAX_OPERATIONS_PER_TICK);
      ticks := Min(ticks, GUARD_MAX_TICKS);
      ProductMonotone(operations, GUARD_MAX_OPERATIONS_PER_TICK, ticks);
      LargestFactor(GUARD_MAX_OPERATIONS, ticks, operations);
      if SatMul(operations, ticks) > GUARD_MAX_OPERATIONS {
        operations := Max(GUARD_MAX_OPERATIONS / ticks, 1);
      }
    }
    config := Config(sessions, operations, ticks);
    guardApplied := requested != config;
  }

  lemma ExpectedCounts(config: Config, doubleLookup: bool)
    ensures var operations := SatMul(config.operationsPerTick, config.ticks);
            && operations == Min(config.ticks * config.operationsPerTick, U64_MAX)
            && SatMul(operations, if doubleLookup then 2 else 1)
               == Min(Probes(config.ticks * config.operationsPerTick, doubleLookup), U64_MAX)
    ensures SatMul(DivCeil(config.operationsPerTick, 8), config.ticks)
            == Min(config.ticks * DivCeil(config.operationsPerTick, 8), U64_MAX)
  {
    assert config.operationsPerTick * config.ticks == config.ticks * config.operationsPerTick;
  }

  /** The verdict, exactly: workload, admissions and probes are as expected whenever all ticks ran,
      saturation included, so for every request only the time budget can fail it. */
  method Benchmark(requested: Config, allowHeavy: bool, doubleLookup: bool, allowedTicks: nat)
    returns (ok: bool, config: Config)
    ensures Positive(config) && (allowHeavy || WithinGuard(config))
    ensures Positive(requested) && (allowHeavy || WithinGuard(requested)) ==> config == requested
    ensures ok <==> config.ticks <= allowedTicks
  {
    hide RunUpTo, WithinGuard;
    var guardApplied;
    config, guardApplied := ParseConfig(requested, allowHeavy);
    var completed, state, operations, mapProbes, exhausted := Run(config, doubleLookup, allowedTicks);
    var expectedOperations := SatMul(config.operationsPerTick, config.ticks);
    var expectedAdmissions := SatMul(DivCeil(config.operationsPerTick, 8), config.ticks);
    var expectedProbes := SatMul(expectedOperations, if doubleLookup then 2 else 1);
    RunAdmitted(config, completed);
    ExpectedCounts(config, doubleLookup);
    hide Probes, SatMul;
    ok := completed == config.ticks && operations == expectedOperations
      && state.admissions == expectedAdmissions && mapProbes == expectedProbes && !exhausted;
  }
}
