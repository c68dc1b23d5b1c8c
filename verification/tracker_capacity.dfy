/** Replication tracker capacity: the cheap conservative precheck against the exact scan. */
module TrackerCapacity {
  import opened Collections
  import opened MachineInts

  const MAX_ENTRIES: nat := 65_536

  /** Records of one client: entity to the tick at which it was last sent. */
  type Records = map<nat, word>

  function MissingUpTo(keys: set<nat>, plan: seq<nat>, n: nat): nat
    requires n <= |plan|
  {
    if n == 0 then 0
    else MissingUpTo(keys, plan, n - 1) + if plan[n - 1] in keys then 0 else 1
  }

  function PlanKeys(plan: seq<nat>): set<nat> { set entity | entity in plan }

  ghost predicate ConservativeAdmits(records: Records, plan: seq<nat>) {
    SatAdd(|records|, |plan|) <= MAX_ENTRIES
  }

  ghost predicate ExactAdmits(records: Records, plan: seq<nat>) {
    SatAdd(|records|, MissingUpTo(records.Keys, plan, |plan|)) <= MAX_ENTRIES
  }

  lemma PlanKeysStep(plan: seq<nat>, n: nat)
    requires n < |plan|
    ensures PlanKeys(plan[..n + 1]) == PlanKeys(plan[..n]) + {plan[n]}
    ensures (forall i | 0 <= i < n :: plan[i] != plan[n]) ==> plan[n] !in PlanKeys(plan[..n])
  {
    assert plan[..n + 1] == plan[..n] + [plan[n]];
  }

  lemma UnionGrows(keys: set<nat>, others: set<nat>, x: nat)
    ensures |keys + (others + {x})| <= |keys + others| + if x in keys then 0 else 1
  {
    assert keys + (others + {x}) == (keys + others) + {x};
    InsertSize(keys + others, x);
  }

  lemma NothingPlanned(keys: set<nat>, plan: seq<nat>)
    ensures keys + PlanKeys(plan[..0]) == keys
  {
  }

  lemma {:induction false} MissingBounds(keys: set<nat>, plan: seq<nat>, n: nat)
    requires n <= |plan|
    ensures |keys + PlanKeys(plan[..n])| <= |keys| + MissingUpTo(keys, plan, n)
    ensures MissingUpTo(keys, plan, n) <= n
  {
    hide PlanKeys;
    if n == 0 {
      NothingPlanned(keys, plan);
    } else {
      MissingBounds(keys, plan, n - 1);
      PlanKeysStep(plan, n - 1);
      UnionGrows(keys, PlanKeys(plan[..n - 1]), plan[n - 1]);
    }
  }

  /** A plan without repetitions misses exactly the entries it adds. */
  lemma {:induction false} MissingExact(keys: set<nat>, plan: seq<nat>, n: nat)
    requires n <= |plan|
    requires forall i, j | 0 <= i < j < |plan| :: plan[i] != plan[j]
    ensures |keys + PlanKeys(plan[..n])| == |keys| + MissingUpTo(keys, plan, n)
  {
    hide PlanKeys;
    if n == 0 {
      NothingPlanned(keys, plan);
    } else {
      var before := keys + PlanKeys(plan[..n - 1]);
      MissingExact(keys, plan, n - 1);
      PlanKeysStep(plan, n - 1);
      InsertSize(before, plan[n - 1]);
      assert keys + PlanKeys(plan[..n]) == before + {plan[n - 1]};
    }
  }

  /** The precheck is sound: whatever it admits the exact scan admits, and the records that
      result fit, for every record set and every plan, repetitions included. */
  lemma ConservativeIsSound(records: Records, plan: seq<nat>)
    requires ConservativeAdmits(records, plan)
    ensures ExactAdmits(records, plan)
    ensures |records.Keys + PlanKeys(plan)| <= MAX_ENTRIES
  {
    MissingBounds(records.Keys, plan, |plan|);
    assert plan[..|plan|] == plan;
  }

  /** The exact scan is complete for plans without repetitions: it admits a plan exactly when
      the resulting records fit. */
  lemma ExactIsComplete(records: Records, plan: seq<nat>)
    requires forall i, j | 0 <= i < j < |plan| :: plan[i] != plan[j]
    ensures ExactAdmits(records, plan) <==> |records.Keys + PlanKeys(plan)| <= MAX_ENTRIES
  {
    MissingExact(records.Keys, plan, |plan|);
    assert plan[..|plan|] == plan;
  }

  /** The precheck does reject plans that fit: a full tracker refuses to refresh an entry. */
  lemma ConservativeRejectsRefresh(records: Records, entity: nat)
    requires |records| == MAX_ENTRIES && entity in records
    ensures !ConservativeAdmits(records, [entity]) && ExactAdmits(records, [entity])
  {
  }

  method CountMissing(records: Records, plan: seq<nat>) returns (needed: word, probes: word)
    ensures needed == Min(MissingUpTo(records.Keys, plan, |plan|), U64_MAX)
    ensures probes == Min(|plan|, U64_MAX)
  {
    needed, probes := 0, 0;
    for i := 0 to |plan|
      invariant needed == Min(MissingUpTo(records.Keys, plan, i), U64_MAX)
      invariant probes == Min(i, U64_MAX)
    {
      if plan[i] !in records {
        needed := SatAdd(needed, 1);
      }
      probes := SatAdd(probes, 1);
    }
  }

  /** Records after the plan was sent at `sentAt`. */
  function Upserted(records: Records, plan: seq<nat>, sentAt: word): Records {
    map entity | entity in records.Keys + PlanKeys(plan) ::
      if entity in plan then sentAt else records[entity]
  }

  method Upsert(records: Records, plan: seq<nat>, sentAt: word) returns (after: Records)
    ensures after == Upserted(records, plan, sentAt)
    ensures forall entity :: entity in after <==> entity in records || entity in plan
    ensures forall entity | entity in after ::
              after[entity] == if entity in plan then sentAt else records[entity]
  {
    after := records;
    for i := 0 to |plan|
      invariant after == Upserted(records, plan[..i], sentAt)
    {
      assert plan[..i + 1] == plan[..i] + [plan[i]];
      after := after[plan[i] := sentAt];
    }
    assert plan[..|plan|] == plan;
  }

  datatype Config = Config(records: nat, planEntities: nat, callsPerTick: nat, ticks: nat, exactScan: bool)

  function Consecutive(n: nat): seq<nat> { seq(n, i requires i >= 0 => i) }

  function Below(n: nat): set<nat> { PlanKeys(Consecutive(n)) }

  lemma {:induction false} BelowSize(n: nat)
    ensures |Below(n)| == n
  {
    if n > 0 {
      BelowSize(n - 1);
      assert Consecutive(n) == Consecutive(n - 1) + [n - 1];
      assert Below(n) == Below(n - 1) + {n - 1};
    }
  }

  lemma BelowUnion(m: nat, n: nat)
    ensures Below(m) + Below(n) == Below(Max(m, n))
  {
    forall k: nat ensures k in Below(m) <==> k < m { MemberOfBelow(m, k); }
    forall k: nat ensures k in Below(n) <==> k < n { MemberOfBelow(n, k); }
    forall k: nat ensures k in Below(Max(m, n)) <==> k < Max(m, n) { MemberOfBelow(Max(m, n), k); }
  }

  lemma MemberOfBelow(n: nat, k: nat)
    ensures k in Below(n) <==> k < n
  {
    if k < n {
      assert Consecutive(n)[k] == k;
    }
  }

  /** Records before call `call`: the initial ones, then those every call leaves behind. */
  function RecordsBefore(config: Config, call: nat): Records {
    if call == 0 then map entity | entity in Below(config.records) :: 0
    else Upserted(
      RecordsBefore(config, call - 1), Consecutive(config.planEntities), Min(call - 1, U64_MAX))
  }

  /** Every call after the first finds max(records, plan) entries. */
  lemma {:induction false} RecordsKeys(config: Config, call: nat)
    ensures RecordsBefore(config, call).Keys
            == Below(if call == 0 then config.records else Max(config.records, config.planEntities))
    ensures |RecordsBefore(config, call)|
            == if call == 0 then config.records else Max(config.records, config.planEntities)
  {
    var size := if call == 0 then config.records else Max(config.records, config.planEntities);
    var records := RecordsBefore(config, call);
    if call == 0 {
      assert records.Keys == Below(size);
    } else {
      RecordsKeys(config, call - 1);
      UpsertedKeys(
        RecordsBefore(config, call - 1), Consecutive(config.planEntities), Min(call - 1, U64_MAX));
      hide Upserted, Consecutive, PlanKeys;
      BelowUnion(if call == 1 then config.records else size, config.planEntities);
      assert records.Keys == Below(size);
    }
    hide *;
    BelowSize(size);
    assert |records| == |records.Keys|;
  }

  lemma UpsertedKeys(records: Records, plan: seq<nat>, sentAt: word)
    ensures Upserted(records, plan, sentAt).Keys == records.Keys + PlanKeys(plan)
  {
  }

  /** Every record tells which call sent it last: the planned entities the latest one, the others
      none since the start. */
  lemma {:induction false} RecordsSentAt(config: Config, call: nat, entity: nat)
    requires entity in RecordsBefore(config, call)
    ensures RecordsBefore(config, call)[entity]
            == if call > 0 && entity < config.planEntities then Min(call - 1, U64_MAX) else 0
  {
    if call > 0 {
      MemberOfBelow(config.planEntities, entity);
      if entity < config.planEntities {
        assert Consecutive(config.planEntities)[entity] == entity;
      } else {
        RecordsSentAt(config, call - 1, entity);
      }
    }
  }

  /** The check each mode makes before call `call`, in terms of the configuration alone. */
  predicate CallAdmitted(config: Config, call: nat) {
    var size := if call == 0 then config.records else Max(config.records, config.planEntities);
    if config.exactScan then Max(config.records, config.planEntities) <= MAX_ENTRIES
    else size + config.planEntities <= MAX_ENTRIES
  }

  /** Exact characterisation of the two prechecks over a run of the generated workload. */
  lemma CallAdmittedExactly(config: Config, call: nat)
    ensures var records, plan := RecordsBefore(config, call), Consecutive(config.planEntities);
            CallAdmitted(config, call)
            <==> if config.exactScan then ExactAdmits(records, plan) else ConservativeAdmits(records, plan)
  {
    var records, plan := RecordsBefore(config, call), Consecutive(config.planEntities);
    RecordsKeys(config, call);
    BelowUnion(if call == 0 then config.records else Max(config.records, config.planEntities),
               config.planEntities);
    BelowSize(Max(config.records, config.planEntities));
    ExactIsComplete(records, plan);
  }

  /** Counters of a run. */
  datatype Summary = Summary(calls: word, updates: word, capacityProbes: word, records: Records)

  datatype Outcome = Completed(summary: Summary) | CapacityPanic(call: nat)

  /** Between two call numbers the first refused call is `call`. */
  ghost predicate StopsAt(config: Config, call: nat, first: nat, last: nat) {
    && first <= call < last && !CallAdmitted(config, call)
    && forall earlier | 0 <= earlier < call :: CallAdmitted(config, earlier)
  }

  /** After `call` calls: all were admitted, and records and counters are as predicted. */
  ghost predicate Progress(config: Config, summary: Summary, call: nat) {
    && (forall earlier | 0 <= earlier < call :: CallAdmitted(config, earlier))
    && summary.records == RecordsBefore(config, call)
    && summary.calls == Min(call, U64_MAX)
    && summary.updates == Min(call * config.planEntities, U64_MAX)
    && summary.capacityProbes == if config.exactScan then summary.updates else 0
  }

  /** Calls made when `ticks` ticks start: the benchmark stops at the first failed check. */
  method Run(config: Config, allowedTicks: nat) returns (outcome: Outcome, completed: nat)
    ensures outcome.CapacityPanic? ==>
              StopsAt(config, outcome.call, 0, Min(config.ticks, allowedTicks) * config.callsPerTick)
    ensures outcome.Completed? ==>
              && completed == Min(config.ticks, allowedTicks)
              && Progress(config, outcome.summary, completed * config.callsPerTick)
  {
    var summary := Summary(0, 0, 0, map entity | entity in Below(config.records) :: 0);
    var plan := Consecutive(config.planEntities);
    completed := 0;
    ghost var call := 0;
    while completed < config.ticks
      invariant completed <= Min(config.ticks, allowedTicks)
      invariant call == completed * config.callsPerTick
      invariant Progress(config, summary, call)
    {
      if completed >= allowedTicks {
        break;
      }
      ProductMonotone(completed + 1, Min(config.ticks, allowedTicks), config.callsPerTick);
      assert (completed + 1) * config.callsPerTick == call + config.callsPerTick;
      outcome := RunTick(config, completed, summary, plan, call);
      if outcome.CapacityPanic? {
        return;
      }
      summary := outcome.summary;
      completed := completed + 1;
      call := call + config.callsPerTick;
    }
    outcome := Completed(summary);
  }

  method RunTick(config: Config, tick: nat, before: Summary, plan: seq<nat>, ghost done: nat)
    returns (outcome: Outcome)
    requires plan == Consecutive(config.planEntities)
    requires done == tick * config.callsPerTick && Progress(config, before, done)
    ensures outcome.CapacityPanic? ==>
              StopsAt(config, outcome.call, done, done + config.callsPerTick)
    ensures outcome.Completed? ==> Progress(config, outcome.summary, done + config.callsPerTick)
  {
    var summary := before;
    for call := 0 to config.callsPerTick
      invariant Progress(config, summary, done + call)
    {
      var sentAt := SatAdd(SatMul(tick, config.callsPerTick), call);
      outcome := RunCall(config, tick * config.callsPerTick + call, sentAt, summary, plan);
      if outcome.CapacityPanic? {
        return;
      }
      summary := outcome.summary;
    }
    outcome := Completed(summary);
  }

  method RunCall(config: Config, call: nat, sentAt: word, before: Summary, plan: seq<nat>)
    returns (outcome: Outcome)
    requires plan == Consecutive(config.planEntities)
    requires sentAt == Min(call, U64_MAX) && Progress(config, before, call)
    ensures outcome == CapacityPanic(call) <==> !CallAdmitted(config, call)
    ensures outcome.CapacityPanic? ==> outcome == CapacityPanic(call)
    ensures outcome.Completed? ==> Progress(config, outcome.summary, call + 1)
  {
    CallAdmittedExactly(config, call);
    var admitted, probes := Precheck(config, before.records, plan);
    if !admitted {
      return CapacityPanic(call);
    }
    var records := Upsert(before.records, plan, sentAt);
    var summary := Summary(
      SatAdd(before.calls, 1),
      SatAdd(before.updates, |plan|),
      SatAdd(before.capacityProbes, probes),
      records);
    ProgressStep(config, before, summary, call, probes);
    outcome := Completed(summary);
  }

  lemma ProgressStep(config: Config, before: Summary, after: Summary, call: nat, probes: word)
    requires Progress(config, before, call) && CallAdmitted(config, call)
    requires probes == if config.exactScan then Min(config.planEntities, U64_MAX) else 0
    requires after == Summary(
                        SatAdd(before.calls, 1),
                        SatAdd(before.updates, config.planEntities),
                        SatAdd(before.capacityProbes, probes),
                        RecordsBefore(config, call + 1))
    ensures Progress(config, after, call + 1)
  {
    hide RecordsBefore, CallAdmitted;
    assert (call + 1) * config.planEntities == call * config.planEntities + config.planEntities;
    SatAddCap(call * config.planEntities, config.planEntities);
  }

  method Precheck(config: Config, records: Records, plan: seq<nat>) returns (admitted: bool, probes: word)
    ensures admitted
            <==> if config.exactScan then ExactAdmits(records, plan) else ConservativeAdmits(records, plan)
    ensures probes == if config.exactScan then Min(|plan|, U64_MAX) else 0
  {
    if config.exactScan {
      var needed;
      needed, probes := CountMissing(records, plan);
      admitted := SatAdd(|records|, needed) <= MAX_ENTRIES;
    } else {
      probes := 0;
      admitted := SatAdd(|records|, |plan|) <= MAX_ENTRIES;
    }
  }

  /** Both modes end with the same records whenever both complete; and the final number of
      records is max(records, plan), within the limit. */
  lemma ModesAgree(exact: Config, conservative: Config, calls: nat)
    requires exact == conservative.(exactScan := true) && !conservative.exactScan
    requires calls > 0 && forall call | 0 <= call < calls :: CallAdmitted(conservative, call)
    ensures forall call | 0 <= call < calls :: CallAdmitted(exact, call)
    ensures RecordsBefore(exact, calls) == RecordsBefore(conservative, calls)
    ensures |RecordsBefore(exact, calls)| == Max(exact.records, exact.planEntities) <= MAX_ENTRIES
  {
    assert CallAdmitted(conservative, 0);
    RecordsIgnoreMode(exact, conservative, calls);
    RecordsKeys(exact, calls);
  }

  lemma {:induction false} RecordsIgnoreMode(exact: Config, conservative: Config, calls: nat)
    requires exact == conservative.(exactScan := true)
    ensures RecordsBefore(exact, calls) == RecordsBefore(conservative, calls)
  {
    if calls > 0 {
      RecordsIgnoreMode(exact, conservative, calls - 1);
    }
  }

  // ----- the guard and the verdict -----

  const GUARD_MAX_RECORDS: nat := 20_000
  const GUARD_MAX_PLAN_ENTITIES: nat := 1_000
  const GUARD_MAX_CALLS_PER_TICK: nat := 1_000
  const GUARD_MAX_TICKS: nat := 20
  const GUARD_MAX_UPDATES: nat := 2_000_000

  predicate Positive(config: Config) {
    config.records >= 1 && config.planEntities >= 1 && config.callsPerTick >= 1 && config.ticks >= 1
  }

  predicate WithinGuard(config: Config) {
    && config.records <= GUARD_MAX_RECORDS && config.planEntities <= GUARD_MAX_PLAN_ENTITIES
    && config.callsPerTick <= GUARD_MAX_CALLS_PER_TICK && config.ticks <= GUARD_MAX_TICKS
    && config.callsPerTick * config.ticks * config.planEntities <= GUARD_MAX_UPDATES
  }

  /** The sizes for which no check of the first `calls` calls fails. */
  predicate CapacitySuffices(config: Config, calls: nat) {
    if calls == 0 then true
    else if config.exactScan then Max(config.records, config.planEntities) <= MAX_ENTRIES
    else if calls == 1 then config.records + config.planEntities <= MAX_ENTRIES
    else Max(config.records, config.planEntities) + config.planEntities <= MAX_ENTRIES
  }

  lemma NeverRefusedExactly(config: Config, calls: nat)
    ensures (forall call | 0 <= call < calls :: CallAdmitted(config, call)) <==> CapacitySuffices(config, calls)
  {
    if calls >= 2 && !CapacitySuffices(config, calls) {
      assert !CallAdmitted(config, 1);
    } else if calls == 1 && !CapacitySuffices(config, calls) {
      assert !CallAdmitted(config, 0);
    }
  }

  /** Within the guard no check ever fails, in either mode and however many calls are made. */
  lemma GuardedNeverPanics(config: Config, calls: nat)
    requires WithinGuard(config)
    ensures CapacitySuffices(config, calls)
    ensures forall call | 0 <= call < calls :: CallAdmitted(config, call)
  {
    NeverRefusedExactly(config, calls);
  }

  /** The sizes a run may use: positive, and without the heavy flag within the guard. Exactly the
      requests that are so already are left alone, and calls are only lowered to the largest
      number that fits. */
  method ParseConfig(requested: Config, allowHeavy: bool) returns (config: Config, guardApplied: bool)
    ensures Positive(config) && (allowHeavy || WithinGuard(config))
    ensures guardApplied <==> !Positive(requested) || (!allowHeavy && !WithinGuard(requested))
    ensures !guardApplied ==> config == requested
    ensures config.exactScan == requested.exactScan
    ensures config.records == if allowHeavy then Max(requested.records, 1)
                              else Min(Max(requested.records, 1), GUARD_MAX_RECORDS)
    ensures config.planEntities == if allowHeavy then Max(requested.planEntities, 1)
                                   else Min(Max(requested.planEntities, 1), GUARD_MAX_PLAN_ENTITIES)
    ensures config.ticks == if allowHeavy then Max(requested.ticks, 1)
                            else Min(Max(requested.ticks, 1), GUARD_MAX_TICKS)
    ensures config.callsPerTick <= Max(requested.callsPerTick, 1)
    ensures config.callsPerTick < Max(requested.callsPerTick, 1) ==>
              !allowHeavy && !WithinGuard(config.(callsPerTick := config.callsPerTick + 1))
  {
    var records, planEntities := Max(requested.records, 1), Max(requested.planEntities, 1);
    var callsPerTick, ticks := Max(requested.callsPerTick, 1), Max(requested.ticks, 1);
    if !allowHeavy {
      records := Min(records, GUARD_MAX_RECORDS);
      planEntities := Min(planEntities, GUARD_MAX_PLAN_ENTITIES);
      callsPerTick := Min(callsPerTick, GUARD_MAX_CALLS_PER_TICK);
      ticks := Min(ticks, GUARD_MAX_TICKS);
      CallsFit(callsPerTick, ticks, planEntities);
      if SatMul(SatMul(callsPerTick, ticks), planEntities) > GUARD_MAX_UPDATES {
        callsPerTick := Max(GUARD_MAX_UPDATES / ticks / planEntities, 1);
      }
    }
    config := Config(records, planEntities, callsPerTick, ticks, requested.exactScan);
    guardApplied := requested != config;
  }

  lemma CallsFit(calls: nat, ticks: nat, plan: nat)
    requires calls <= GUARD_MAX_CALLS_PER_TICK
    requires 1 <= ticks <= GUARD_MAX_TICKS && 1 <= plan <= GUARD_MAX_PLAN_ENTITIES
    ensures calls * ticks * plan <= U64_MAX
    ensures var fit := GUARD_MAX_UPDATES / ticks / plan;
            && 1 <= fit && fit * ticks * plan <= GUARD_MAX_UPDATES < (fit + 1) * ticks * plan
            && (calls * ticks * plan > GUARD_MAX_UPDATES ==> fit < calls)
  {
    CallsWithin(1, ticks, plan);
    CallsWithin(calls, ticks, plan);
    CallsWithin(GUARD_MAX_UPDATES / ticks / plan, ticks, plan);
    CallsWithin(GUARD_MAX_UPDATES / ticks / plan + 1, ticks, plan);
    ProductMonotone(calls, GUARD_MAX_CALLS_PER_TICK, ticks);
    ProductMonotone(calls * ticks, GUARD_MAX_CALLS_PER_TICK * GUARD_MAX_TICKS, plan);
    ProductMonotone(ticks, GUARD_MAX_TICKS, plan);
  }

  lemma CallsWithin(calls: nat, ticks: nat, plan: nat)
    requires 1 <= ticks && 1 <= plan
    ensures calls <= GUARD_MAX_UPDATES / ticks / plan <==> calls * ticks * plan <= GUARD_MAX_UPDATES
  {
    DivFits(GUARD_MAX_UPDATES / ticks, plan, calls);
    DivFits(GUARD_MAX_UPDATES, ticks, calls * plan);
    assert calls * plan * ticks == calls * ticks * plan;
  }

  /** The verdict, exactly: the run passes if and only if the time budget sufficed and no check of
      its mode fails. A guarded run never fails a check. */
  method Benchmark(requested: Config, allowHeavy: bool, allowedTicks: nat)
    returns (outcome: Outcome, ok: bool, config: Config)
    ensures Positive(config) && (allowHeavy || WithinGuard(config))
    ensures var calls := Min(config.ticks, allowedTicks) * config.callsPerTick;
            && (outcome.Completed? <==> CapacitySuffices(config, calls))
            && (ok <==> config.ticks <= allowedTicks && CapacitySuffices(config, calls))
    ensures !allowHeavy ==> outcome.Completed? && (ok <==> config.ticks <= allowedTicks)
  {
    hide Progress, WithinGuard, RecordsBefore, CapacitySuffices;
    var guardApplied, completed;
    config, guardApplied := ParseConfig(requested, allowHeavy);
    outcome, completed := Run(config, allowedTicks);
    ghost var calls := Min(config.ticks, allowedTicks) * config.callsPerTick;
    NeverRefusedExactly(config, calls);
    if !allowHeavy {
      GuardedNeverPanics(config, calls);
    }
    ok := false;
    if outcome.Completed? {
      ok := CompletedOk(config, outcome.summary, completed, allowedTicks < config.ticks);
    }
  }

  /** The checks on a run that was not stopped by a capacity check: only the time budget can
      fail them. */
  method CompletedOk(config: Config, summary: Summary, completed: nat, exhausted: bool) returns (ok: bool)
    requires Positive(config) && completed <= config.ticks && (exhausted <==> completed < config.ticks)
    requires Progress(config, summary, completed * config.callsPerTick)
    ensures Progress(config, summary, completed * config.callsPerTick)
    ensures ok <==> !exhausted
  {
    var expectedCalls := SatMul(config.callsPerTick, config.ticks);
    var expectedUpdates := SatMul(expectedCalls, config.planEntities);
    var expectedProbes := if config.exactScan then expectedUpdates else 0;
    var workloadOk := completed == config.ticks && summary.calls == expectedCalls
      && summary.updates == expectedUpdates;
    var capacityOk := |summary.records| == Max(config.records, config.planEntities)
      && |summary.records| <= MAX_ENTRIES && summary.capacityProbes == expectedProbes;
    ok := workloadOk && capacityOk && !exhausted;
    if !exhausted {
      AllCallsCounted(config, summary);
    }
  }

  lemma AllCallsCounted(config: Config, summary: Summary)
    requires Positive(config) && Progress(config, summary, config.ticks * config.callsPerTick)
    ensures summary.calls == SatMul(config.callsPerTick, config.ticks)
    ensures summary.updates == SatMul(SatMul(config.callsPerTick, config.ticks), config.planEntities)
    ensures |summary.records| == Max(config.records, config.planEntities) <= MAX_ENTRIES
  {
    hide RecordsBefore;
    var calls := config.ticks * config.callsPerTick;
    ProductMonotone(1, config.ticks, config.callsPerTick);
    assert calls == config.callsPerTick * config.ticks >= 1;
    RecordsKeys(config, calls);
    assert CallAdmitted(config, 0);
    if calls > U64_MAX {
      ProductMonotone(1, config.planEntities, calls);
      ProductMonotone(1, config.planEntities, U64_MAX);
    }
  }
}
