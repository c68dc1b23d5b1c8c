/** Whole runs of the multi-room benchmark: every tick succeeds, every invariant holds at every
    tick boundary, and the counters are closed forms. */
module GameplayRun {
  import opened MachineInts
  import opened Options
  import opened StationTable
  import opened Components
  import opened FrameEncoding
  import opened RoomSpec
  import opened RoomAccounts
  import opened RoomGrowth
  import opened RoomInvariants
  import opened RoomProjectiles
  import opened RoomFrames
  import opened RoomReplication
  import opened RoomCreation
  import opened GameplaySpec
  import opened GameplayPhases
  import opened GameplayWorld

  // ----- counters over a run -----

  /** Commands issued over the first `n` ticks. */
  function TotalCommands(config: Config, n: nat): nat {
    if n == 0 then 0 else TotalCommands(config, n - 1) + CommandSum(n - 1, config.rooms)
  }

  function TotalEvents(config: Config, n: nat): nat {
    if n == 0 then 0 else TotalEvents(config, n - 1) + EventSum(n - 1, config.rooms)
  }

  /** Entities moved over the first `n` ticks: players by their commands, and non-players. */
  function TotalMovements(config: Config, n: nat): nat {
    TotalCommands(config, n) + n * NpcSum(config, config.rooms)
  }

  ghost predicate LifecycleCounted(stats: Stats, config: Config, recreations: nat)
    requires config.rooms > 0
  {
    && stats.roomsDestroyed == Min(recreations, U64_MAX)
    && stats.roomsCreated == Min(config.rooms + recreations, U64_MAX)
    && stats.endpointsUnregistered == Min(ExpectedEndpoints(config, recreations), U64_MAX)
    && stats.teardownQueuedPackets == stats.teardownQueuedEvents == 0
  }

  ghost predicate GameplayCounted(stats: Stats, config: Config, n: nat) {
    && stats.commandsAdmitted == stats.commandsApplied == Min(TotalCommands(config, n), U64_MAX)
    && stats.eventsRouted == stats.eventsDrained == Min(TotalEvents(config, n), U64_MAX)
    && stats.entitiesSpawned == Min(n * RateSum(config.rooms), U64_MAX)
    && stats.movementUpdates == Min(TotalMovements(config, n), U64_MAX)
    && stats.componentUpdates == Min(TotalMovements(config, n) + TotalEvents(config, n), U64_MAX)
  }

  ghost predicate TransportCounted(stats: Stats, config: Config, n: nat) {
    && Balanced(stats)
    && stats.viewerPlans == Min(n * PlayerSum(config.rooms), U64_MAX)
    && (n > 0 <==> stats.encodedEntities > 0)
  }

  /** The counters after `n` ticks: the conservation laws and closed forms that the benchmark's
      verdict checks. */
  ghost predicate Counted(stats: Stats, config: Config, n: nat)
    requires config.rooms > 0
  {
    && stats.ticksCompleted == Min(n, U64_MAX)
    && LifecycleCounted(stats, config, Recreations(n))
    && GameplayCounted(stats, config, n)
    && TransportCounted(stats, config, n)
  }

  /** Every room has the age that the trace gives it. */
  ghost predicate AllAged(rooms: seq<RoomState>, config: Config, n: nat)
    requires config.rooms > 0
  {
    forall i | 0 <= i < |rooms| :: rooms[i].station.tick == AgeOf(config, i, n)
  }

  /** Everything that holds between ticks. */
  ghost predicate RunInvariant(world: World, config: Config, n: nat)
    requires config.rooms > 0
  {
    && AllAtBoundary(world, config, n) && RouterIdle(world) && AllAged(world.rooms, config, n)
    && Counted(world.stats, config, n)
    && (n == 0 ==> EntityHandle(0, 0) in world.rooms[0].dirtyHandles)
  }

  // ----- one tick -----

  /** The rooms a tick works on: a recreated room starts afresh. */
  ghost predicate RoomsRecreated(before: World, after: World, config: Config, tick: nat)
    requires config.rooms > 0
  {
    match RecreatedRoom(config, tick)
    case None => after == before
    case Some(id) =>
      && id < |before.rooms| == |after.rooms| && JustCreated(after.rooms[id])
      && after.rooms == before.rooms[id := after.rooms[id]]
  }

  lemma RecreateDueSucceeds(world: World, config: Config, tick: nat)
    requires Sized(config) && RunInvariant(world, config, tick)
    ensures var done := RecreateDue(world, config, tick);
            && done.Some? && AllAtBoundary(done.value, config, tick) && RouterIdle(done.value)
            && RoomsRecreated(world, done.value, config, tick)
            && LifecycleCounted(done.value.stats, config, Recreations(tick + 1))
            && done.value.stats == world.stats.(
                 endpointsUnregistered := done.value.stats.endpointsUnregistered,
                 roomsDestroyed := done.value.stats.roomsDestroyed,
                 roomsCreated := done.value.stats.roomsCreated)
  {
    hide RecreateRoom, AllAtBoundary, RouterIdle, RecreatedRoom, PlayerCount, Recreations,
      GameplayCounted, TransportCounted, JustCreated, AllAged;
    TraceIsPeriodic(config, tick);
    match RecreatedRoom(config, tick) {
      case None =>
      case Some(id) =>
        BoundarySize(world, config, tick);
        RecreateSucceeds(world, config, tick, id);
    }
  }

  lemma BoundarySize(world: World, config: Config, tick: nat)
    requires AllAtBoundary(world, config, tick)
    ensures |world.rooms| == config.rooms
  {
  }

  /** A tick up to its replication, taken apart: the rooms after recreation, and before
      replication. */
  ghost predicate SimulationParts(world: World, config: Config, tick: nat, recreated: World, simulated: World)
    requires config.rooms > 0
  {
    && |world.rooms| == |recreated.rooms| == |simulated.rooms| == config.rooms
    && RecreateDue(world, config, tick) == Some(recreated)
    && RoomsRecreated(world, recreated, config, tick)
    && SimulateTick(world, config, tick) == Some(simulated)
    && AllSimulated(simulated, config, tick, 0, config.rooms)
    && RouterHolds(simulated, tick, config.rooms, config.rooms)
    && RoomsAged(recreated.rooms, simulated.rooms) && AllAged(simulated.rooms, config, tick + 1)
    && AllNpcsListed(simulated.rooms, tick, config.rooms)
    && SimulationDone(
         recreated.stats, simulated.stats, config, tick,
         VanishedSum(recreated.rooms, simulated.rooms, config.rooms))
  }

  /** And its replication. */
  ghost predicate TickParts(
      world: World, config: Config, queries: Queries, tick: nat,
      recreated: World, simulated: World, replicated: World)
    requires config.rooms > 0
  {
    && SimulationParts(world, config, tick, recreated, simulated)
    && |replicated.rooms| == config.rooms
    && ReplicateUpTo(simulated, queries, tick, config.rooms) == Some(replicated)
    && RunTick(world, config, tick, queries) == Some(replicated.(stats := replicated.stats.(
         ticksCompleted := SatAdd(replicated.stats.ticksCompleted, 1))))
    && AllReplicated(replicated, config, tick, config.rooms) && RouterIdle(replicated)
    && AllSameProjectiles(simulated.rooms, replicated.rooms)
    && ReplicationCounted(simulated.stats, replicated.stats, PlayerSum(config.rooms))
    && (tick == 0 ==> replicated.stats.encodedEntities > 0)
  }

  /** What recreation changes in the counters. */
  ghost predicate LifecycleOnly(before: Stats, after: Stats) {
    after == before.(
      endpointsUnregistered := after.endpointsUnregistered,
      roomsDestroyed := after.roomsDestroyed, roomsCreated := after.roomsCreated)
  }

  lemma SimulationTakenApart(world: World, config: Config, tick: nat)
    returns (recreated: World, simulated: World)
    requires Sized(config) && tick < U32_MAX && RunInvariant(world, config, tick)
    ensures SimulationParts(world, config, tick, recreated, simulated)
    ensures LifecycleCounted(recreated.stats, config, Recreations(tick + 1))
    ensures LifecycleOnly(world.stats, recreated.stats)
  {
    hide AdvanceUpTo, CommandsUpTo, SimulateUpTo, DrainUpTo, RecreateDue, AtBoundary,
      RouterIdle, RouterHolds, Counted, LifecycleCounted, RoomsAged,
      RoomsRecreated, SimulationDone, AllSimulated, AllAged;
    RecreateDueSucceeds(world, config, tick);
    recreated := RecreateDue(world, config, tick).value;
    var commanded, routed;
    BoundarySize(world, config, tick);
    BoundarySize(recreated, config, tick);
    commanded, routed, simulated := SimulationSucceeds(recreated, config, tick);
    AgesAdvance(world, recreated, simulated, config, tick);
  }

  lemma AgesAdvance(world: World, recreated: World, simulated: World, config: Config, tick: nat)
    requires config.rooms > 0 && |world.rooms| == |recreated.rooms|
    requires AllAged(world.rooms, config, tick) && RoomsRecreated(world, recreated, config, tick)
    requires RoomsAged(recreated.rooms, simulated.rooms)
    ensures AllAged(simulated.rooms, config, tick + 1)
  {
    hide RecreatedRoom, RateOf;
    forall i | 0 <= i < |simulated.rooms|
      ensures simulated.rooms[i].station.tick == AgeOf(config, i, tick + 1)
    {
      assert simulated.rooms[i].station.tick == recreated.rooms[i].station.tick + 1;
      assert RecreatedRoom(config, tick) != Some(i) ==> recreated.rooms[i] == world.rooms[i];
    }
  }

  /** The first room has something to send in the first tick. */
  lemma FirstTickListed(world: World, recreated: World, simulated: World, config: Config)
    requires config.rooms > 0 && |world.rooms| == config.rooms
    requires SimulationParts(world, config, 0, recreated, simulated) && RunInvariant(world, config, 0)
    ensures EntityHandle(0, 0) in simulated.rooms[0].dirtyHandles
  {
    hide AllAtBoundary, RouterIdle, Counted, AllSimulated, SimulationDone, RateOf, RouterHolds, AllAged,
      SimulateTick, RecreateDue, VanishedSum, RunTick;
    assert recreated == world;
    assert Grows(recreated.rooms[0], simulated.rooms[0]);
  }

  lemma TickTakenApart(world: World, config: Config, queries: Queries, tick: nat)
    returns (recreated: World, simulated: World, replicated: World)
    requires Admissible(config, tick + 1) && RunInvariant(world, config, tick)
    ensures TickParts(world, config, queries, tick, recreated, simulated, replicated)
    ensures LifecycleCounted(recreated.stats, config, Recreations(tick + 1))
    ensures LifecycleOnly(world.stats, recreated.stats)
  {
    hide ReplicateUpTo, SimulateTick, RecreateDue, RunInvariant, RouterIdle, RouterHolds, LifecycleCounted,
      RoomsRecreated, RoomsAged, SimulationDone, AllSimulated, AllReplicated, AllSameProjectiles,
      ReplicationCounted, RateOf, LifecycleOnly, VanishedSum, PlayerSum, AgeOf;
    recreated, simulated := SimulationTakenApart(world, config, tick);
    if tick == 0 {
      FirstTickListed(world, recreated, simulated, config);
    }
    forall i | 0 <= i < |simulated.rooms| ensures RateOf(i) * simulated.rooms[i].station.tick <= TRACKED_SPARE {
      AgeWithinTracker(config, i, tick + 1);
    }
    ReplicateAll(simulated, config, queries, tick, config.rooms);
    replicated := ReplicateUpTo(simulated, queries, tick, config.rooms).value;
    RouterIdleAgain(simulated, replicated, config, tick);
  }

  /** Counters over the phases of one tick. */
  lemma TickCounted(
      s: Stats, s0: Stats, s1: Stats, s2: Stats, config: Config, tick: nat, vanished: nat)
    requires config.rooms > 0 && Counted(s, config, tick)
    requires LifecycleCounted(s0, config, Recreations(tick + 1)) && LifecycleOnly(s, s0)
    requires SimulationDone(s0, s1, config, tick, vanished)
    requires ReplicationCounted(s1, s2, PlayerSum(config.rooms))
    requires tick == 0 ==> s2.encodedEntities > 0
    ensures Counted(s2.(ticksCompleted := SatAdd(s2.ticksCompleted, 1)), config, tick + 1)
  {
    hide RateSum, PlayerSum, CommandSum, EventSum, NpcSum, ExpectedEndpoints, Recreations,
      GameplayCounted, TransportCounted;
    GameplayCountedNext(s, s0, s1, config, tick, vanished);
    TransportCountedNext(s, s1, s2, config, tick);
    GameplayCountedKept(s1, s2, config, tick + 1);
  }

  lemma GameplayCountedNext(s: Stats, s0: Stats, s1: Stats, config: Config, tick: nat, vanished: nat)
    requires GameplayCounted(s, config, tick) && SimulationDone(s0, s1, config, tick, vanished)
    requires LifecycleOnly(s, s0)
    ensures GameplayCounted(s1, config, tick + 1)
  {
    hide RateSum, CommandSum, EventSum, NpcSum;
    assert (tick + 1) * RateSum(config.rooms) == tick * RateSum(config.rooms) + RateSum(config.rooms);
    var npcs := NpcSum(config, config.rooms);
    assert (tick + 1) * npcs == tick * npcs + npcs;
  }

  lemma GameplayCountedKept(s1: Stats, s2: Stats, config: Config, n: nat)
    requires GameplayCounted(s1, config, n)
    requires s2.commandsAdmitted == s1.commandsAdmitted && s2.commandsApplied == s1.commandsApplied
    requires s2.eventsRouted == s1.eventsRouted && s2.eventsDrained == s1.eventsDrained
    requires s2.entitiesSpawned == s1.entitiesSpawned && s2.movementUpdates == s1.movementUpdates
    requires s2.componentUpdates == s1.componentUpdates
    ensures GameplayCounted(s2.(ticksCompleted := SatAdd(s2.ticksCompleted, 1)), config, n)
  {
  }

  lemma TransportCountedNext(s: Stats, s1: Stats, s2: Stats, config: Config, tick: nat)
    requires TransportCounted(s, config, tick)
    requires s1.viewerPlans == s.viewerPlans && s1.packetOversize == s.packetOversize
    requires s1.packetsSent == s.packetsSent && s1.packetsReceived == s.packetsReceived
    requires s1.encodedBytes == s.encodedBytes && s1.decodedBytes == s.decodedBytes
    requires s1.selectedEntities == s.selectedEntities && s1.encodedEntities == s.encodedEntities
    requires s1.encodedComponents == s.encodedComponents && s1.skippedEntities == s.skippedEntities
    requires ReplicationCounted(s1, s2, PlayerSum(config.rooms))
    requires tick == 0 ==> s2.encodedEntities > 0
    ensures TransportCounted(s2.(ticksCompleted := SatAdd(s2.ticksCompleted, 1)), config, tick + 1)
  {
    hide PlayerSum;
    assert (tick + 1) * PlayerSum(config.rooms) == tick * PlayerSum(config.rooms) + PlayerSum(config.rooms);
  }

  /** After replication nothing is dirty anywhere. */
  ghost predicate AllClean(world: World) {
    forall i | 0 <= i < |world.rooms| :: NothingDirty(world.rooms[i])
  }

  /** Main step: from every state between ticks the next tick succeeds, keeps every invariant,
      and leaves nothing dirty. */
  lemma TickSucceeds(world: World, config: Config, queries: Queries, tick: nat)
    requires Admissible(config, tick + 1) && RunInvariant(world, config, tick)
    ensures var done := RunTick(world, config, tick, queries);
            done.Some? && RunInvariant(done.value, config, tick + 1) && AllClean(done.value)
  {
    hide RunTick, SimulateTick, RecreateDue, ReplicateUpTo, AtBoundary, RouterIdle, Counted,
      LifecycleCounted, NothingDirty, AllSimulated, RoomsAged, RoomsRecreated, SimulationDone,
      ReplicationCounted, AllAged, LifecycleOnly, SameProjectiles;
    var recreated, simulated, replicated := TickTakenApart(world, config, queries, tick);
    TickCounted(
      world.stats, recreated.stats, simulated.stats, replicated.stats, config, tick,
      VanishedSum(recreated.rooms, simulated.rooms, config.rooms));
    SameRouter(replicated, RunTick(world, config, tick, queries).value);
    SameAges(simulated.rooms, replicated.rooms, config, tick + 1);
  }

  lemma SameRouter(before: World, after: World)
    requires RouterIdle(before) && after == before.(stats := after.stats)
    ensures RouterIdle(after)
  {
  }

  lemma SameAges(before: seq<RoomState>, after: seq<RoomState>, config: Config, n: nat)
    requires config.rooms > 0 && AllAged(before, config, n) && AllSameProjectiles(before, after)
    ensures AllAged(after, config, n)
  {
    hide AgeOf;
    forall i | 0 <= i < |after| ensures after[i].station.tick == AgeOf(config, i, n) {
      assert SameProjectiles(before[i], after[i]);
    }
  }

  /** Main result: every run of admissible length succeeds, whatever the spatial index reports:
      no expectation of the modelled steps fails, and at every tick boundary all invariants hold
      and all counters are as predicted. */
  lemma {:induction false} RunSucceeds(config: Config, queries: Queries, n: nat)
    requires Admissible(config, n)
    ensures var world := RunUpTo(config, queries, n);
            && world.Some? && RunInvariant(world.value, config, n)
            && (n > 0 ==> AllClean(world.value))
  {
    hide RunTick, RunInvariant, AllClean, Start;
    if n == 0 {
      StartSucceeds(config);
      StartCounted(Start(config).value, config);
    } else {
      RunSucceeds(config, queries, n - 1);
      TickSucceeds(RunUpTo(config, queries, n - 1).value, config, queries, n - 1);
    }
  }

  lemma StartCounted(world: World, config: Config)
    requires Sized(config) && AllAtBoundary(world, config, 0) && RouterIdle(world)
    requires world.stats == NO_STATS.(roomsCreated := Min(config.rooms, U64_MAX))
    requires forall i | 0 <= i < |world.rooms| :: JustCreated(world.rooms[i])
    ensures RunInvariant(world, config, 0)
  {
    hide RouterIdle;
    assert JustCreated(world.rooms[0]) && AtBoundary(world.rooms[0], 0, config.entitiesPerRoom, 0);
    FirstEntity(world.rooms[0], config.entitiesPerRoom);
    hide AtBoundary;
  }

  lemma FirstEntity(room: RoomState, entitiesPerRoom: nat)
    requires AtBoundary(room, 0, entitiesPerRoom, 0) && room.dirtyHandles == room.entities
    ensures EntityHandle(0, 0) in room.dirtyHandles
  {
    hide Accounts, Coherent, Population, DirtyTracked, DirtyLive, NextIdFresh, GenerationsBounded, HubIdle,
      Timeline;
    assert room.entities[0] == EntityHandle(0, 0);
  }

  // ----- replication in every run -----

  /** Some component of the entity is dirty. */
  ghost predicate AnyDirty(room: RoomState, handle: EntityHandle) {
    exists key :: key in room.components.blobs && key.handle == handle && room.components.blobs[key].dirty
  }

  /** In every run, whenever a room replicates, the lookup array tells for every live handle
      exactly whether a component of the entity is dirty: it neither misses a change nor names an
      entity without one. The array keeps the size it was created with. */
  lemma ReplicationSeesExactlyDirty(
      config: Config, queries: Queries, tick: nat, i: nat, handle: EntityHandle)
    requires Admissible(config, tick) && tick + 1 < U32_MAX && i < config.rooms
    ensures RunUpTo(config, queries, tick).Some?
    ensures var simulated := SimulateTick(RunUpTo(config, queries, tick).value, config, tick);
            && simulated.Some? && |simulated.value.rooms| == config.rooms
            && var room := simulated.value.rooms[i];
               && DirtyLive(room)
               && (room.station.IsLive(handle) ==>
                     (DirtyLookup(PrepareDirtyGenerations(room).dirtyGenerations, handle)
                      <==> AnyDirty(room, handle)))
               && |PrepareDirtyGenerations(room).dirtyGenerations| == Capacity(config.entitiesPerRoom)
  {
    hide RunTick, SimulateTick, RecreateDue, ReplicateUpTo, AtBoundary, RouterIdle, Counted,
      RunInvariant, RunUpTo, LifecycleCounted, RoomsAged, RoomsRecreated, SimulationDone,
      PrepareDirtyGenerations, RouterHolds, AllAged, AnyDirty;
    RunSucceeds(config, queries, tick);
    var world := RunUpTo(config, queries, tick).value;
    var recreated, simulated := SimulationTakenApart(world, config, tick);
    SimulatedSeesExactlyDirty(simulated.rooms[i], i, config.entitiesPerRoom, tick, handle);
  }

  lemma SimulatedSeesExactlyDirty(
      room: RoomState, id: nat, entitiesPerRoom: nat, tick: nat, handle: EntityHandle)
    requires Simulated(room, id, entitiesPerRoom, tick) && tick + 1 < U32_MAX
    requires entitiesPerRoom <= U32_MAX - SPARE_SLOTS
    ensures DirtyLive(room)
    ensures |PrepareDirtyGenerations(room).dirtyGenerations| == Capacity(entitiesPerRoom)
    ensures room.station.IsLive(handle) ==>
              (DirtyLookup(PrepareDirtyGenerations(room).dirtyGenerations, handle)
               <==> AnyDirty(room, handle))
  {
    hide DirtyLookup, PrepareDirtyGenerations, BlobsTyped, IndexCounted, HandlesCounted, TrackerSound;
    SlotsReserved(room, id, entitiesPerRoom, tick);
    LookupArrayKeepsSize(room);
    if room.station.IsLive(handle) {
      DirtyLookupIsMembership(room, handle);
      ListedIffDirty(room, handle);
    }
  }

  /** In every run, whatever is dirty when a room replicates reaches every viewer to whom the index
      reports its entity, unless that viewer's plan is full: the frame carries the component with
      the version and the payload it has in the room. */
  lemma ChangeReachesViewer(
      config: Config, queries: Queries, tick: nat, i: nat, viewer: nat, key: BlobKey)
    requires Admissible(config, tick) && tick + 1 < U32_MAX && i < config.rooms
    requires viewer < PlayerCount(i)
    ensures RunUpTo(config, queries, tick).Some?
    ensures var simulated := SimulateTick(RunUpTo(config, queries, tick).value, config, tick);
            && simulated.Some? && |simulated.value.rooms| == config.rooms
            && var room := simulated.value.rooms[i];
               && |room.players| == PlayerCount(i)
               && var query := queries(tick, i, viewer);
                  var plan := PlanFor(PrepareDirtyGenerations(room), viewer, query);
                  && plan == PlansOf(room, RoomQueries(queries, tick, i))[viewer]
                  && (key in room.components.blobs && room.components.blobs[key].dirty
                      && key.handle in Candidates(query, room.players[viewer].handle)
                      ==> key.handle in plan || |plan| == PLAN_LIMIT)
                  && CarriesDirty(room, plan)
  {
    hide RunTick, SimulateTick, RecreateDue, ReplicateUpTo, AtBoundary, RouterIdle, Counted,
      RunInvariant, RunUpTo, LifecycleCounted, RoomsAged, RoomsRecreated, SimulationDone,
      PrepareDirtyGenerations, RouterHolds, AllAged, CarriesDirty, PlanFor, PlayerCount;
    RunSucceeds(config, queries, tick);
    var world := RunUpTo(config, queries, tick).value;
    var recreated, simulated := SimulationTakenApart(world, config, tick);
    SimulatedReachesViewer(simulated.rooms[i], i, config.entitiesPerRoom, tick, viewer, queries(tick, i, viewer), key);
    PlanOfViewer(simulated.rooms[i], RoomQueries(queries, tick, i), viewer);
  }

  lemma PlanOfViewer(room: RoomState, queries: nat -> Query, viewer: nat)
    requires viewer < |room.players|
    ensures PlansOf(room, queries)[viewer] == PlanFor(PrepareDirtyGenerations(room), viewer, queries(viewer))
  {
    hide PrepareDirtyGenerations, PlanFor;
    PrepareKeepsRest(room);
    PlansAre(PrepareDirtyGenerations(room), queries, |room.players|);
  }

  /** The frame of a plan holds of each planned entity exactly what is dirty. */
  ghost predicate CarriesDirty(room: RoomState, plan: seq<EntityHandle>) {
    var frame := FrameOf(room, plan);
    && |frame.deltas| == |plan|
    && forall n | 0 <= n < |plan| ::
         && room.station.IsLive(plan[n])
         && frame.deltas[n].entity == room.station.Get(plan[n]).value.id
         && forall part :: part in frame.deltas[n].parts <==> IsDirtyPart(room, plan[n], part)
  }

  ghost predicate IsDirtyPart(room: RoomState, handle: EntityHandle, part: Part) {
    var key := BlobKey(part.component, handle);
    key in room.components.blobs && room.components.blobs[key] == Blob(part.version, true, part.payload)
  }

  lemma SimulatedReachesViewer(
      room: RoomState, id: nat, entitiesPerRoom: nat, tick: nat, viewer: nat, query: Query, key: BlobKey)
    requires Simulated(room, id, entitiesPerRoom, tick) && tick + 1 < U32_MAX && viewer < PlayerCount(id)
    ensures |room.players| == PlayerCount(id)
    ensures var plan := PlanFor(PrepareDirtyGenerations(room), viewer, query);
            && (key in room.components.blobs && room.components.blobs[key].dirty
                && key.handle in Candidates(query, room.players[viewer].handle)
                ==> key.handle in plan || |plan| == PLAN_LIMIT)
            && CarriesDirty(room, plan)
  {
    hide PrepareDirtyGenerations, Coherent, NextIdFresh, GenerationsBounded, Population, HasDirty, BlobsTyped,
      Timeline, IndexCounted, HandlesCounted, TrackerSound, LookupExact, PlanUpTo, PlanSound, CarriesDirty;
    var prepared := PrepareDirtyGenerations(room);
    PrepareKeepsRest(room);
    PreparedLookupExact(room);
    PlanForSound(prepared, viewer, query);
    var candidates := Candidates(query, room.players[viewer].handle);
    PlanIsComplete(prepared, candidates, |candidates|);
    assert candidates[..|candidates|] == candidates;
    var plan := PlanFor(prepared, viewer, query);
    SameStoresSamePlan(prepared, room, plan);
    FrameCarries(room, plan);
  }

  lemma SameStoresSamePlan(a: RoomState, b: RoomState, plan: seq<EntityHandle>)
    requires PlanSound(a, plan) && a.station == b.station && a.components == b.components
    ensures PlanSound(b, plan)
  {
  }

  lemma FrameCarries(room: RoomState, plan: seq<EntityHandle>)
    requires BlobsTyped(room.components) && PlanSound(room, plan)
    ensures CarriesDirty(room, plan)
  {
    FrameFits(room, plan);
    hide FrameOf, PlanSound, BlobsTyped;
    forall n | 0 <= n < |plan|
      ensures room.station.IsLive(plan[n])
      ensures FrameOf(room, plan).deltas[n].entity == room.station.Get(plan[n]).value.id
      ensures forall part :: part in FrameOf(room, plan).deltas[n].parts <==> IsDirtyPart(room, plan[n], part)
    {
      forall part ensures part in FrameOf(room, plan).deltas[n].parts <==> IsDirtyPart(room, plan[n], part) {
        FrameCarriesExactlyDirty(room, plan, n, part);
      }
    }
  }

  /** Dirty tracking is complete and exact. */
  lemma ListedIffDirty(room: RoomState, handle: EntityHandle)
    requires DirtyTracked(room) && ListedDirty(room)
    ensures handle in room.dirtyHandles <==> AnyDirty(room, handle)
  {
  }
}
