/** The replication work digest of the main benchmark: what a run accumulates tick by tick
    equals what the cached per-phase digests predict, in whatever order updates arrive. */
module WorkDigest {
  import opened MachineInts
  import opened ViewerSchedule

  /** One viewer's work: the number of updates and their checksum. */
  datatype Work = Work(updates: word, checksum: word)

  datatype Digest = Digest(viewers: word, updates: word, checksum: word) {
    /** Adds one viewer, as `ReplicationWorkDigest::record`. */
    function Record(work: Work): Digest {
      Digest(SatAdd(viewers, 1), SatAdd(updates, work.updates), WrapAdd(checksum, work.checksum))
    }

    /** Adds a whole digest, as `ReplicationWorkDigest::add`. */
    function Add(other: Digest): Digest {
      Digest(
        SatAdd(viewers, other.viewers),
        SatAdd(updates, other.updates),
        WrapAdd(checksum, other.checksum))
    }
  }

  const EMPTY := Digest(0, 0, 0)

  function SumUpdates(work: seq<Work>): nat {
    if work == [] then 0 else SumUpdates(work[..|work| - 1]) + work[|work| - 1].updates
  }

  function SumChecksums(work: seq<Work>): nat {
    if work == [] then 0 else SumChecksums(work[..|work| - 1]) + work[|work| - 1].checksum
  }

  /** The digest of a list of work: exact totals, capped or reduced once at the end. */
  function DigestOf(work: seq<Work>): Digest {
    Digest(Min(|work|, U64_MAX), Min(SumUpdates(work), U64_MAX), SumChecksums(work) % U64_LIMIT)
  }

  lemma RecordAppends(work: seq<Work>, next: Work)
    ensures DigestOf(work).Record(next) == DigestOf(work + [next])
  {
    assert (work + [next])[..|work|] == work;
  }

  lemma {:induction false} SumsConcat(left: seq<Work>, right: seq<Work>)
    ensures SumUpdates(left + right) == SumUpdates(left) + SumUpdates(right)
    ensures SumChecksums(left + right) == SumChecksums(left) + SumChecksums(right)
  {
    if right == [] {
      assert left + right == left;
    } else {
      var rest := right[..|right| - 1];
      SumsConcat(left, rest);
      assert (left + right)[..|left + right| - 1] == left + rest;
    }
  }

  /** Adding digests is concatenating the work they stand for, saturation included. */
  lemma AddConcatenates(left: seq<Work>, right: seq<Work>)
    ensures DigestOf(left).Add(DigestOf(right)) == DigestOf(left + right)
  {
    SumsConcat(left, right);
    SatAddCap(SumUpdates(left), SumUpdates(right));
    WrapAddMod(SumChecksums(left), SumChecksums(right));
  }

  /** The order of the updates does not matter: only the multiset of work does. */
  lemma {:induction false} DigestIgnoresOrder(left: seq<Work>, right: seq<Work>)
    requires multiset(left) == multiset(right)
    ensures DigestOf(left) == DigestOf(right)
  {
    SumsIgnoreOrder(left, right);
  }

  lemma {:induction false} SumsIgnoreOrder(left: seq<Work>, right: seq<Work>)
    requires multiset(left) == multiset(right)
    ensures |left| == |right|
    ensures SumUpdates(left) == SumUpdates(right)
    ensures SumChecksums(left) == SumChecksums(right)
    decreases |left|
  {
    if left == [] {
      assert |multiset(right)| == 0;
    } else {
      var front, last := left[..|left| - 1], left[|left| - 1];
      SumsLast(left);
      hide SumUpdates, SumChecksums;
      assert left == front + [last];
      assert last in multiset(right);
      var k :| 0 <= k < |right| && right[k] == last;
      var before, after := right[..k], right[k + 1..];
      assert right == before + [last] + after;
      WithoutMultiset(before, last, after);
      SumsIgnoreOrder(front, before + after);
      SumsWithout(before, last, after);
    }
  }

  lemma SumsLast(work: seq<Work>)
    requires work != []
    ensures SumUpdates(work) == SumUpdates(work[..|work| - 1]) + work[|work| - 1].updates
    ensures SumChecksums(work) == SumChecksums(work[..|work| - 1]) + work[|work| - 1].checksum
  {
  }

  lemma WithoutMultiset(before: seq<Work>, work: Work, after: seq<Work>)
    ensures multiset(before + after) == multiset(before + [work] + after) - multiset{work}
  {
  }

  lemma SumsWithout(before: seq<Work>, work: Work, after: seq<Work>)
    ensures SumUpdates(before + [work] + after) == SumUpdates(before + after) + work.updates
    ensures SumChecksums(before + [work] + after) == SumChecksums(before + after) + work.checksum
  {
    SumsLast(before + [work]);
    assert (before + [work])[..|before|] == before;
    hide SumUpdates, SumChecksums;
    SumsConcat(before, after);
    SumsConcat(before + [work], after);
  }

  /** The baselines that select without the interest planner. */
  datatype Baseline = FullBroadcast | RoomBroadcast | NaiveGrid

  /** What the baselines read of the world: it does not change during a run. `inRange` answers
      the radius query of a station's index for one client; `checksum` mixes a client and its
      update count, and may be any function of the two. */
  datatype World = World(
    entities: word,
    stationLen: nat -> word,
    inRange: (nat, nat) -> word,
    checksum: (nat, word) -> word)

  function Updates(world: World, baseline: Baseline, station: nat, client: nat): word {
    match baseline
    case FullBroadcast => world.entities
    case RoomBroadcast => world.stationLen(station)
    case NaiveGrid => world.inRange(station, client)
  }

  function ClientWork(world: World, baseline: Baseline, station: nat, client: nat): Work {
    var updates := Updates(world, baseline, station, client);
    Work(updates, world.checksum(client, updates))
  }

  function BatchWork(world: World, baseline: Baseline, station: nat, clients: seq<nat>): seq<Work> {
    seq(|clients|, i requires 0 <= i < |clients| => ClientWork(world, baseline, station, clients[i]))
  }

  /** The work of one phase, station by station. */
  function PhaseWork(world: World, baseline: Baseline, batches: seq<seq<nat>>): seq<Work> {
    if batches == [] then []
    else PhaseWork(world, baseline, batches[..|batches| - 1])
         + BatchWork(world, baseline, |batches| - 1, batches[|batches| - 1])
  }

  /** The work of the first `ticks` ticks. */
  function RunWork(world: World, baseline: Baseline, schedule: Schedule, ticks: nat): seq<Work>
    requires |schedule| > 0
  {
    if ticks == 0 then []
    else RunWork(world, baseline, schedule, ticks - 1)
         + PhaseWork(world, baseline, BatchesAt(schedule, ticks - 1))
  }

  lemma PhaseWorkStep(world: World, baseline: Baseline, batches: seq<seq<nat>>, station: nat)
    requires station < |batches|
    ensures PhaseWork(world, baseline, batches[..station + 1])
            == PhaseWork(world, baseline, batches[..station])
               + BatchWork(world, baseline, station, batches[station])
  {
    assert batches[..station + 1][..station] == batches[..station];
  }

  /** The batches replicated at one tick. */
  function BatchesAt(schedule: Schedule, tick: nat): seq<seq<nat>>
    requires |schedule| > 0
  {
    schedule[tick % |schedule|]
  }

  method RecordBatch(expected: Digest, world: World, baseline: Baseline, station: nat, viewers: seq<nat>,
      ghost done: seq<Work>)
    returns (digest: Digest)
    requires expected == DigestOf(done)
    ensures digest == DigestOf(done + BatchWork(world, baseline, station, viewers))
  {
    digest := expected;
    ghost var added := BatchWork(world, baseline, station, viewers);
    assert done + added[..0] == done;
    for i := 0 to |viewers|
      invariant digest == DigestOf(done + added[..i])
    {
      RecordAppends(done + added[..i], added[i]);
      assert done + added[..i + 1] == done + added[..i] + [added[i]];
      digest := digest.Record(ClientWork(world, baseline, station, viewers[i]));
    }
    assert added[..|viewers|] == added;
  }

  method ExpectedReplicationPhase(world: World, baseline: Baseline, batches: seq<seq<nat>>)
    returns (expected: Digest)
    ensures expected == DigestOf(PhaseWork(world, baseline, batches))
  {
    expected := EMPTY;
    ghost var done: seq<Work> := [];
    for station := 0 to |batches|
      invariant done == PhaseWork(world, baseline, batches[..station])
      invariant expected == DigestOf(done)
    {
      PhaseWorkStep(world, baseline, batches, station);
      expected := RecordBatch(expected, world, baseline, station, batches[station], done);
      done := done + BatchWork(world, baseline, station, batches[station]);
    }
    assert batches[..|batches|] == batches;
  }

  /** The prediction: one digest per phase is computed once and added per tick. */
  method ExpectedReplicationWork(world: World, baseline: Baseline, schedule: Schedule, ticks: nat)
    returns (expected: Digest)
    requires |schedule| > 0
    ensures expected == DigestOf(RunWork(world, baseline, schedule, ticks))
  {
    var phaseDigests: seq<Digest> := [];
    for phase := 0 to |schedule|
      invariant |phaseDigests| == phase
      invariant forall p | 0 <= p < phase ::
                  phaseDigests[p] == DigestOf(PhaseWork(world, baseline, schedule[p]))
    {
      var digest := ExpectedReplicationPhase(world, baseline, schedule[phase]);
      phaseDigests := phaseDigests + [digest];
    }
    expected := EMPTY;
    ghost var done: seq<Work> := [];
    assert DigestOf(done) == EMPTY;
    hide DigestOf, PhaseWork;
    for tick := 0 to ticks
      invariant done == RunWork(world, baseline, schedule, tick)
      invariant expected == DigestOf(done)
    {
      ghost var added := PhaseWork(world, baseline, BatchesAt(schedule, tick));
      AddConcatenates(done, added);
      expected := expected.Add(phaseDigests[tick % |phaseDigests|]);
      done := done + added;
    }
  }

  /** The counters of a run that submitted updates feed. */
  class BenchStats {
    var replicationViewers: word
    var replicationWorkChecksum: word
    var updates: word
    var replicationCandidatesSelected: word

    constructor ()
      ensures Accumulated() == EMPTY && replicationCandidatesSelected == 0
    {
      replicationViewers, replicationWorkChecksum := 0, 0;
      updates, replicationCandidatesSelected := 0, 0;
    }

    function Accumulated(): Digest
      reads this
    {
      Digest(replicationViewers, updates, replicationWorkChecksum)
    }

    /** Accounts encoded updates, which carry their viewer's work, in the order given. */
    method SubmitEncodedUpdates(encoded: seq<Work>, ghost done: seq<Work>)
      requires Accumulated() == DigestOf(done)
      requires replicationCandidatesSelected == updates
      modifies this
      ensures Accumulated() == DigestOf(done + encoded)
      ensures replicationCandidatesSelected == updates
    {
      assert done + encoded[..0] == done;
      for i := 0 to |encoded|
        invariant Accumulated() == DigestOf(done + encoded[..i])
        invariant replicationCandidatesSelected == updates
      {
        var update := encoded[i];
        RecordAppends(done + encoded[..i], update);
        assert done + encoded[..i + 1] == done + encoded[..i] + [update];
        replicationViewers := SatAdd(replicationViewers, 1);
        replicationWorkChecksum := WrapAdd(replicationWorkChecksum, update.checksum);
        updates := SatAdd(updates, update.updates);
        replicationCandidatesSelected := SatAdd(replicationCandidatesSelected, update.updates);
      }
      assert encoded[..|encoded|] == encoded;
    }
  }

  /** Plans one tick of a baseline: the batches of every station, flattened in order. */
  method PlanTick(world: World, baseline: Baseline, batches: seq<seq<nat>>) returns (work: seq<Work>)
    ensures work == PhaseWork(world, baseline, batches)
  {
    work := [];
    for station := 0 to |batches|
      invariant work == PhaseWork(world, baseline, batches[..station])
    {
      PhaseWorkStep(world, baseline, batches, station);
      work := work + BatchWork(world, baseline, station, batches[station]);
    }
    assert batches[..|batches|] == batches;
  }

  /** A run of the benchmark over a baseline. `allowedTicks` is how many ticks start before the
      time budget ends the run. The ticks that ran accumulate exactly the work of the schedule,
      and a run that completes accumulates the predicted digest. */
  method Run(world: World, baseline: Baseline, schedule: Schedule, ticks: nat, allowedTicks: nat)
    returns (stats: BenchStats, expected: Digest, completed: nat)
    requires |schedule| > 0
    ensures completed == Min(ticks, allowedTicks)
    ensures stats.Accumulated() == DigestOf(RunWork(world, baseline, schedule, completed))
    ensures expected == DigestOf(RunWork(world, baseline, schedule, ticks))
    ensures completed == ticks ==> stats.Accumulated() == expected
    ensures stats.replicationCandidatesSelected == stats.updates
  {
    expected := ExpectedReplicationWork(world, baseline, schedule, ticks);
    stats := new BenchStats();
    completed := 0;
    ghost var done: seq<Work> := [];
    while completed < ticks
      invariant completed <= Min(ticks, allowedTicks)
      invariant fresh(stats)
      invariant done == RunWork(world, baseline, schedule, completed)
      invariant stats.Accumulated() == DigestOf(done)
      invariant stats.replicationCandidatesSelected == stats.updates
    {
      if completed >= allowedTicks {
        break;
      }
      var work := PlanTick(world, baseline, BatchesAt(schedule, completed));
      stats.SubmitEncodedUpdates(work, done);
      done := done + work;
      completed := completed + 1;
    }
  }

  // ----- totals of a run -----

  /** What one service of a client adds to the updates, and to the checksums. */
  function UpdatesOf(world: World, baseline: Baseline, stations: nat): Weight
    requires stations > 0
  {
    (client: nat) => ClientWork(world, baseline, client % stations, client).updates
  }

  function ChecksumOf(world: World, baseline: Baseline, stations: nat): Weight
    requires stations > 0
  {
    (client: nat) => ClientWork(world, baseline, client % stations, client).checksum
  }

  lemma {:induction false} BatchSums(
      world: World, baseline: Baseline, stations: nat, station: nat, served: seq<nat>)
    requires stations > 0 && forall i | 0 <= i < |served| :: served[i] % stations == station
    ensures SumUpdates(BatchWork(world, baseline, station, served))
            == ListSum(served, UpdatesOf(world, baseline, stations))
    ensures SumChecksums(BatchWork(world, baseline, station, served))
            == ListSum(served, ChecksumOf(world, baseline, stations))
  {
    if served != [] {
      var front := served[..|served| - 1];
      BatchSums(world, baseline, stations, station, front);
      var work := BatchWork(world, baseline, station, served);
      assert work[..|work| - 1] == BatchWork(world, baseline, station, front);
    }
  }

  lemma BatchOfStation(
      schedule: Schedule, clients: nat, stations: nat, phases: nat, phase: nat, station: nat)
    requires station < stations && phase < phases && IsSchedule(schedule, clients, stations, phases)
    ensures var batch := schedule[phase][station];
            forall i | 0 <= i < |batch| :: batch[i] % stations == station
  {
    var batch := schedule[phase][station];
    forall i | 0 <= i < |batch| ensures batch[i] % stations == station {
      assert batch[i] in batch;
      ClientInOneBatch(schedule, clients, stations, phases, batch[i], phase, station);
    }
  }

  lemma {:induction false} PhaseWorkSums(
      world: World, baseline: Baseline, schedule: Schedule, clients: nat, stations: nat, phases: nat,
      phase: nat, upTo: nat)
    requires stations > 0 && phase < phases && upTo <= stations
    requires IsSchedule(schedule, clients, stations, phases)
    ensures var work := PhaseWork(world, baseline, schedule[phase][..upTo]);
            && |work| == PhaseLoad(clients, stations, phases, phase, upTo, _ => 1)
            && SumUpdates(work)
               == PhaseLoad(clients, stations, phases, phase, upTo, UpdatesOf(world, baseline, stations))
            && SumChecksums(work)
               == PhaseLoad(clients, stations, phases, phase, upTo, ChecksumOf(world, baseline, stations))
  {
    hide Batch, ListSum, SumUpdates, SumChecksums, UpdatesOf, ChecksumOf, BatchWork;
    if upTo == 0 {
      EmptySums();
    } else {
      PhaseWorkSums(world, baseline, schedule, clients, stations, phases, phase, upTo - 1);
      PhaseWorkStep(world, baseline, schedule[phase], upTo - 1);
      var batch := schedule[phase][upTo - 1];
      BatchOfStation(schedule, clients, stations, phases, phase, upTo - 1);
      BatchSums(world, baseline, stations, upTo - 1, batch);
      BatchSize(world, baseline, upTo - 1, batch);
      SumsConcat(
        PhaseWork(world, baseline, schedule[phase][..upTo - 1]), BatchWork(world, baseline, upTo - 1, batch));
    }
  }

  lemma EmptySums()
    ensures SumUpdates([]) == 0 && SumChecksums([]) == 0
  {
  }

  lemma {:induction false} BatchSize(world: World, baseline: Baseline, station: nat, served: seq<nat>)
    ensures |BatchWork(world, baseline, station, served)| == |served| == ListSum(served, _ => 1)
  {
    if served != [] {
      BatchSize(world, baseline, station, served[..|served| - 1]);
    }
  }

  /** The work of a tick is what the services promised up to it grow by. */
  lemma TickWorkSums(
      world: World, baseline: Baseline, schedule: Schedule, clients: nat, stations: nat, phases: nat, tick: nat)
    requires stations > 0 && phases > 0
    requires IsSchedule(schedule, clients, stations, phases)
    ensures var work := PhaseWork(world, baseline, BatchesAt(schedule, tick));
            && TotalServices(tick + 1, clients, stations, phases, _ => 1)
               == TotalServices(tick, clients, stations, phases, _ => 1) + |work|
            && TotalServices(tick + 1, clients, stations, phases, UpdatesOf(world, baseline, stations))
               == TotalServices(tick, clients, stations, phases, UpdatesOf(world, baseline, stations))
                  + SumUpdates(work)
            && TotalServices(tick + 1, clients, stations, phases, ChecksumOf(world, baseline, stations))
               == TotalServices(tick, clients, stations, phases, ChecksumOf(world, baseline, stations))
                  + SumChecksums(work)
  {
    hide SumUpdates, SumChecksums, UpdatesOf, ChecksumOf, PhaseWork, PhaseLoad, TotalServices;
    var phase := tick % phases;
    PhaseWorkSums(world, baseline, schedule, clients, stations, phases, phase, stations);
    assert schedule[phase][..stations] == schedule[phase];
    TickLoad(tick, clients, stations, phases, _ => 1);
    TickLoad(tick, clients, stations, phases, UpdatesOf(world, baseline, stations));
    TickLoad(tick, clients, stations, phases, ChecksumOf(world, baseline, stations));
  }

  /** The work of a run is that of the services its schedule promises. */
  lemma {:induction false} RunWorkSums(
      world: World, baseline: Baseline, schedule: Schedule, clients: nat, stations: nat, phases: nat, ticks: nat)
    requires stations > 0 && phases > 0
    requires IsSchedule(schedule, clients, stations, phases)
    ensures var work := RunWork(world, baseline, schedule, ticks);
            && |work| == TotalServices(ticks, clients, stations, phases, _ => 1)
            && SumUpdates(work)
               == TotalServices(ticks, clients, stations, phases, UpdatesOf(world, baseline, stations))
            && SumChecksums(work)
               == TotalServices(ticks, clients, stations, phases, ChecksumOf(world, baseline, stations))
  {
    hide TotalServices, SumUpdates, SumChecksums, UpdatesOf, ChecksumOf, PhaseWork, RunWork;
    var updates, checksum := UpdatesOf(world, baseline, stations), ChecksumOf(world, baseline, stations);
    if ticks == 0 {
      EmptySums();
      RunWorkStep(world, baseline, schedule, 0);
      TotalServicesStart(clients, stations, phases, _ => 1);
      TotalServicesStart(clients, stations, phases, updates);
      TotalServicesStart(clients, stations, phases, checksum);
    } else {
      RunWorkSums(world, baseline, schedule, clients, stations, phases, ticks - 1);
      TickWorkSums(world, baseline, schedule, clients, stations, phases, ticks - 1);
      RunWorkStep(world, baseline, schedule, ticks - 1);
      SumsConcat(
        RunWork(world, baseline, schedule, ticks - 1),
        PhaseWork(world, baseline, BatchesAt(schedule, ticks - 1)));
    }
  }

  lemma RunWorkStep(world: World, baseline: Baseline, schedule: Schedule, ticks: nat)
    requires |schedule| > 0
    ensures RunWork(world, baseline, schedule, 0) == []
    ensures RunWork(world, baseline, schedule, ticks + 1)
            == RunWork(world, baseline, schedule, ticks)
               + PhaseWork(world, baseline, BatchesAt(schedule, ticks))
  {
  }

  /** A digest of `windows` times as much as `viewers`, `updates` and `checksum`. */
  predicate IsDigest(digest: Digest, windows: nat, viewers: nat, updates: nat, checksum: nat) {
    && digest.viewers == Min(windows * viewers, U64_MAX)
    && digest.updates == Min(windows * updates, U64_MAX)
    && digest.checksum == windows * checksum % U64_LIMIT
  }

  lemma WindowDigest(
      world: World, baseline: Baseline, schedule: Schedule, clients: nat, stations: nat, phases: nat,
      windows: nat)
    requires stations > 0 && phases > 0
    requires IsSchedule(schedule, clients, stations, phases)
    ensures IsDigest(
              DigestOf(RunWork(world, baseline, schedule, windows * phases)), windows, clients,
              ClientSum(clients, UpdatesOf(world, baseline, stations)),
              ClientSum(clients, ChecksumOf(world, baseline, stations)))
  {
    hide TotalServices, SumUpdates, SumChecksums, ClientSum, UpdatesOf, ChecksumOf;
    RunWorkSums(world, baseline, schedule, clients, stations, phases, windows * phases);
    TotalServicesWholeWindows(windows, clients, stations, phases, _ => 1);
    TotalServicesWholeWindows(windows, clients, stations, phases, UpdatesOf(world, baseline, stations));
    TotalServicesWholeWindows(windows, clients, stations, phases, ChecksumOf(world, baseline, stations));
    EqualClients(clients, _ => 1, 1);
  }

  /** After whole windows of `phases` ticks every client was counted once per window, with all
      entities of the world. */
  lemma FullBroadcastTotals(
      world: World, schedule: Schedule, clients: nat, stations: nat, phases: nat, windows: nat)
    requires stations > 0 && phases > 0
    requires IsSchedule(schedule, clients, stations, phases)
    ensures IsDigest(
              DigestOf(RunWork(world, FullBroadcast, schedule, windows * phases)), windows, clients,
              clients * world.entities,
              ClientSum(clients, (client: nat) => world.checksum(client, world.entities)))
  {
    hide DigestOf, RunWork, IsSchedule;
    WindowDigest(world, FullBroadcast, schedule, clients, stations, phases, windows);
    EqualClients(clients, UpdatesOf(world, FullBroadcast, stations), world.entities);
    SameWeights(
      clients, ChecksumOf(world, FullBroadcast, stations), (client: nat) => world.checksum(client, world.entities));
  }

  /** With this baseline every client was counted once per window, with the entities of its station. */
  lemma RoomBroadcastTotals(
      world: World, schedule: Schedule, clients: nat, stations: nat, phases: nat, windows: nat)
    requires stations > 0 && phases > 0
    requires IsSchedule(schedule, clients, stations, phases)
    ensures IsDigest(
              DigestOf(RunWork(world, RoomBroadcast, schedule, windows * phases)), windows, clients,
              StationSum(clients, stations, (station: nat) => world.stationLen(station), stations),
              ClientSum(clients, (client: nat) => world.checksum(client, world.stationLen(client % stations))))
  {
    hide DigestOf, RunWork, IsSchedule;
    WindowDigest(world, RoomBroadcast, schedule, clients, stations, phases, windows);
    ClientsByStation(
      clients, stations, (station: nat) => world.stationLen(station), UpdatesOf(world, RoomBroadcast, stations));
    SameWeights(
      clients, ChecksumOf(world, RoomBroadcast, stations),
      (client: nat) => world.checksum(client, world.stationLen(client % stations)));
  }

  /** With this baseline every client was counted once per window, with what its station's index finds
      in its range. */
  lemma NaiveGridTotals(
      world: World, schedule: Schedule, clients: nat, stations: nat, phases: nat, windows: nat)
    requires stations > 0 && phases > 0
    requires IsSchedule(schedule, clients, stations, phases)
    ensures IsDigest(
              DigestOf(RunWork(world, NaiveGrid, schedule, windows * phases)), windows, clients,
              ClientSum(clients, (client: nat) => world.inRange(client % stations, client)),
              ClientSum(clients, (client: nat) => world.checksum(client, world.inRange(client % stations, client))))
  {
    hide DigestOf, RunWork, IsSchedule;
    WindowDigest(world, NaiveGrid, schedule, clients, stations, phases, windows);
    SameWeights(
      clients, UpdatesOf(world, NaiveGrid, stations), (client: nat) => world.inRange(client % stations, client));
    SameWeights(
      clients, ChecksumOf(world, NaiveGrid, stations),
      (client: nat) => world.checksum(client, world.inRange(client % stations, client)));
  }
}
