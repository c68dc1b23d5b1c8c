/** What each phase of a tick does to one room, from one tick boundary to the next. */
module GameplayPhases {
  import opened MachineInts
  import opened StationTable
  import opened RoomSpec
  import opened RoomAccounts
  import opened RoomInvariants
  import opened RoomGrowth
  import opened RoomSteps
  import opened RoomProjectiles
  import opened RoomFrames
  import opened RoomReplication
  import opened RoomCreation
  import opened GameplaySpec
  import Commands = CommandQueues
  import Events = EventRouter

  /** Parts of the invariant that no phase before replication disturbs. */
  ghost predicate InTick(room: RoomState, id: nat, entitiesPerRoom: nat, tick: nat) {
    && room.id == id && |room.entities| == entitiesPerRoom
    && Core(room) && 1 <= room.station.tick <= tick + 1 && room.station.free == []
    && room.commands == Commands.EMPTY && HubIdle(room)
    && |room.dirtyGenerations| == Capacity(entitiesPerRoom)
  }

  /** Projectiles as the previous tick left them. */
  ghost predicate ProjectilesPending(room: RoomState, id: nat, entitiesPerRoom: nat) {
    && room.station.tick >= 1 && DirtyPermanent(room) && ProjectilesOlder(room)
    && Timeline(room.projectiles, room.station.tick - 1, RateOf(id))
    && room.nextEntityLocal == entitiesPerRoom + RateOf(id) * (room.station.tick - 1)
  }

  /** Projectiles as this tick leaves them. */
  ghost predicate ProjectilesCurrent(room: RoomState, id: nat, entitiesPerRoom: nat) {
    && Timeline(room.projectiles, room.station.tick, RateOf(id))
    && room.nextEntityLocal == entitiesPerRoom + RateOf(id) * room.station.tick
  }

  ghost predicate Advanced(room: RoomState, id: nat, entitiesPerRoom: nat, tick: nat) {
    && InTick(room, id, entitiesPerRoom, tick) && ProjectilesPending(room, id, entitiesPerRoom)
    && SessionsReady(room, SatMul(tick, MAX_PLAYERS), 0)
  }

  ghost predicate Commanded(room: RoomState, id: nat, entitiesPerRoom: nat, tick: nat) {
    && InTick(room, id, entitiesPerRoom, tick) && ProjectilesPending(room, id, entitiesPerRoom)
    && SessionsBounded(room, SatMul(tick + 1, MAX_PLAYERS))
  }

  ghost predicate Simulated(room: RoomState, id: nat, entitiesPerRoom: nat, tick: nat) {
    && InTick(room, id, entitiesPerRoom, tick) && ProjectilesCurrent(room, id, entitiesPerRoom)
    && SessionsBounded(room, SatMul(tick + 1, MAX_PLAYERS))
  }

  /** What only the projectile phase and the clock change. */
  ghost predicate SameProjectiles(before: RoomState, after: RoomState) {
    after.projectiles == before.projectiles && after.station.tick == before.station.tick
  }

  /** A phase before replication that leaves the projectiles alone. */
  ghost predicate Quiet(before: RoomState, after: RoomState) {
    SameProjectiles(before, after) && Grows(before, after)
  }

  ghost predicate TickPassed(before: RoomState, after: RoomState) {
    && after.projectiles == before.projectiles && after.station.tick == before.station.tick + 1
    && Grows(before, after)
  }

  lemma AdvancePhase(room: RoomState, id: nat, entitiesPerRoom: nat, tick: nat)
    requires AtBoundary(room, id, entitiesPerRoom, tick) && tick < U32_MAX
    ensures Advanced(AdvanceRoom(room), id, entitiesPerRoom, tick) && TickPassed(room, AdvanceRoom(room))
  {
    hide Accounts;
    var after := AdvanceRoom(room);
    AdvanceKeepsCore(room);
    StaysSame(room, after);
    OlderAfterAdvance(room);
    assert after.station.tick == room.station.tick + 1;
  }

  lemma OlderAfterAdvance(room: RoomState)
    requires Core(room) && room.station.tick < U32_MAX
    ensures ProjectilesOlder(AdvanceRoom(room))
  {
    forall j | 0 <= j < |room.projectiles|
      ensures room.projectiles[j].handle.generation <= room.station.tick
    {
      assert room.station.IsLive(room.projectiles[j].handle);
    }
  }

  /** Counters of the command phase of one room. */
  ghost predicate CommandsCounted(before: Stats, after: Stats, count: nat) {
    after == before.(
      commandsAdmitted := SatAdd(before.commandsAdmitted, count),
      commandsApplied := SatAdd(before.commandsApplied, count),
      movementUpdates := SatAdd(before.movementUpdates, count),
      componentUpdates := SatAdd(before.componentUpdates, count))
  }

  /** Commands of a room at a tick of the run: one per player when the room is due. */
  function CommandsDue(id: nat, tick: nat): nat {
    if tick % ClassOf(id).CommandInterval() == 0 then PlayerCount(id) else 0
  }

  lemma CommandPhase(sim: Sim, id: nat, entitiesPerRoom: nat, tick: nat)
    requires Advanced(sim.room, id, entitiesPerRoom, tick) && id <= MAX_ROOM && tick < U32_MAX
    ensures var done := EnqueueAndApplyCommands(sim, tick);
            && done.Some? && Commanded(done.value.room, id, entitiesPerRoom, tick)
            && Quiet(sim.room, done.value.room)
            && CommandsCounted(sim.stats, done.value.stats, CommandsDue(id, tick))
  {
    hide EnqueueAndApplyCommands, Grows;
    CommandsSucceed(sim, tick);
    CommandsGrow(sim, tick);
    var done := EnqueueAndApplyCommands(sim, tick).value;
    CommandsKeepRest(sim, done, id, entitiesPerRoom, tick);
  }

  lemma CommandsKeepRest(before: Sim, after: Sim, id: nat, entitiesPerRoom: nat, tick: nat)
    requires Advanced(before.room, id, entitiesPerRoom, tick)
    requires Core(after.room) && DirtyPermanent(after.room) && CommandsDone(before, after, tick)
    ensures Commanded(after.room, id, entitiesPerRoom, tick) && SameProjectiles(before.room, after.room)
    ensures CommandsCounted(before.stats, after.stats, CommandsDue(id, tick))
  {
    hide Accounts, Coherent, Population, DirtyTracked, DirtyLive, NextIdFresh, GenerationsBounded;
  }

  /** Counters of the simulation phase of one room. */
  ghost predicate SimulationCounted(
      before: Stats, after: Stats, moved: nat, spawned: nat, despawned: nat, routed: nat)
  {
    after == before.(
      entitiesSpawned := SatAdd(before.entitiesSpawned, spawned),
      entitiesDespawned := SatAdd(before.entitiesDespawned, despawned),
      eventsRouted := SatAdd(before.eventsRouted, routed),
      movementUpdates := SatAdd(before.movementUpdates, moved),
      componentUpdates := SatAdd(before.componentUpdates, moved))
  }

  function EventsDue(id: nat, tick: nat): (count: nat)
    ensures count <= 1
  {
    if RoutesEvent(id, tick) then 1 else 0
  }

  /** Entities other than players that a room moves in a tick. */
  function NpcsDue(id: nat, entitiesPerRoom: nat): nat {
    Min(ClassOf(id).NpcUpdates(), SatSub(entitiesPerRoom, PlayerCount(id)))
  }

  lemma NpcPhase(sim: Sim, id: nat, entitiesPerRoom: nat, tick: nat)
    requires Commanded(sim.room, id, entitiesPerRoom, tick)
    ensures var moved := UpdateNpcs(sim, tick);
            && moved.Some? && Commanded(moved.value.room, id, entitiesPerRoom, tick)
            && Quiet(sim.room, moved.value.room) && NpcsListed(moved.value.room, tick)
            && SimulationCounted(sim.stats, moved.value.stats, NpcsDue(id, entitiesPerRoom), 0, 0, 0)
  {
    hide UpdateNpcsUpTo, Grows;
    var n := Min(ClassOf(sim.room.id).NpcUpdates(), NpcCount(sim.room));
    NpcsSucceed(sim, tick, n);
    NpcsGrow(sim, tick, n);
    MovedAreListed(sim, UpdateNpcsUpTo(sim, tick, n).value, tick, n);
    NpcsKeepRest(sim, UpdateNpcsUpTo(sim, tick, n).value, id, entitiesPerRoom, tick, n);
  }

  lemma GrowthKeepsListed(before: RoomState, after: RoomState, tick: nat)
    requires Grows(before, after) && NpcsListed(before, tick)
    ensures NpcsListed(after, tick)
  {
    forall offset: nat | offset < Min(ClassOf(before.id).NpcUpdates(), NpcCount(before))
      ensures EntityHandle(NpcIndex(after, tick, offset), 0) in after.dirtyHandles
    {
      assert EntityHandle(NpcIndex(before, tick, offset), 0) in before.dirtyHandles;
    }
  }

  lemma NpcsKeepRest(before: Sim, after: Sim, id: nat, entitiesPerRoom: nat, tick: nat, n: nat)
    requires Commanded(before.room, id, entitiesPerRoom, tick)
    requires Core(after.room) && DirtyPermanent(after.room) && NpcsMoved(before, after, tick, n)
    ensures Commanded(after.room, id, entitiesPerRoom, tick) && SameProjectiles(before.room, after.room)
    ensures SimulationCounted(before.stats, after.stats, n, 0, 0, 0)
  {
    hide Accounts, Coherent, Population, DirtyTracked, DirtyLive, NextIdFresh, GenerationsBounded;
  }

  /** Projectiles that expired when `rate` were launched between the two states. */
  function Vanished(before: RoomState, after: RoomState, rate: nat): nat {
    SatSub(|before.projectiles| + rate, |after.projectiles|)
  }

  /** Launched and expired projectiles account for the change in their number. */
  ghost predicate ProjectilesBalance(before: RoomState, after: RoomState, id: nat) {
    && after.station.tick == before.station.tick && Grows(before, after)
    && |after.projectiles| <= |before.projectiles| + RateOf(id)
  }

  lemma ProjectilePhase(sim: Sim, id: nat, entitiesPerRoom: nat, tick: nat)
    requires Commanded(sim.room, id, entitiesPerRoom, tick) && id <= MAX_ROOM
    requires entitiesPerRoom <= U32_MAX - SPARE_SLOTS && tick < U32_MAX
    ensures var updated := UpdateProjectiles(sim);
            && updated.Some? && Simulated(updated.value.room, id, entitiesPerRoom, tick)
            && ProjectilesBalance(sim.room, updated.value.room, id)
            && SimulationCounted(
                 sim.stats, updated.value.stats, 0, RateOf(id),
                 Vanished(sim.room, updated.value.room, RateOf(id)), 0)
  {
    hide UpdateProjectiles;
    var age := sim.room.station.tick - 1;
    SpareRoom(sim.room, id, entitiesPerRoom, tick);
    ProjectilesSucceed(sim, age);
    ProjectilesGrow(sim);
    ProjectilesKeepRest(sim, UpdateProjectiles(sim).value, id, entitiesPerRoom, tick);
  }

  lemma SpareRoom(room: RoomState, id: nat, entitiesPerRoom: nat, tick: nat)
    requires Commanded(room, id, entitiesPerRoom, tick) && id <= MAX_ROOM
    requires entitiesPerRoom <= U32_MAX - SPARE_SLOTS && tick < U32_MAX
    ensures RoomToSpawn(room, 2)
  {
    hide Accounts, Coherent, Population, DirtyTracked, DirtyLive, NextIdFresh, GenerationsBounded;
    ProductMonotone(RateOf(id), 2, room.station.tick - 1);
  }

  lemma ProjectilesKeepRest(before: Sim, after: Sim, id: nat, entitiesPerRoom: nat, tick: nat)
    requires Commanded(before.room, id, entitiesPerRoom, tick)
    requires Core(after.room) && ProjectilesDone(before, after, before.room.station.tick - 1)
    requires Grows(before.room, after.room)
    ensures Simulated(after.room, id, entitiesPerRoom, tick)
    ensures ProjectilesBalance(before.room, after.room, id)
    ensures SimulationCounted(
              before.stats, after.stats, 0, RateOf(id), Vanished(before.room, after.room, RateOf(id)), 0)
  {
    hide Accounts, Coherent, Population, DirtyTracked, DirtyLive, NextIdFresh, GenerationsBounded, Timeline;
    LengthsAdvance(
      before.room.projectiles, after.room.projectiles, before.room.station.tick - 1, RateOf(id));
    assert RateOf(id) * before.room.station.tick
        == RateOf(id) * (before.room.station.tick - 1) + RateOf(id);
  }

  lemma LengthsAdvance(before: seq<Projectile>, after: seq<Projectile>, age: nat, rate: nat)
    requires Timeline(before, age, rate) && Timeline(after, age + 1, rate)
    ensures |after| == |before| + rate - if age >= PROJECTILE_TICKS then rate else 0
  {
    if age < PROJECTILE_TICKS {
      assert rate * (age + 1) == rate * age + rate;
    }
  }

  /** Events a room has queued at the router during a tick: only due ones. */
  ghost predicate Queued(router: Events.Router, room: RoomState, count: nat) {
    var station := StationIdOf(room.id);
    && station in router.queues && |router.queues[station]| == count
    && AllDue(router.queues[station], room.station.tick)
  }

  /** A due room routes one event to itself, for the current tick; events of different rooms or
      ticks have different ids. */
  lemma RoutePhase(room: RoomState, tick: nat, router: Events.Router, stats: Stats)
    requires Queued(router, room, 0)
    ensures var routed := RouteGameplayEvent(room, tick, router, stats);
            && routed.Some? && Queued(routed.value.router, room, EventsDue(room.id, tick))
            && routed.value.router.queues.Keys == router.queues.Keys
            && (EventsDue(room.id, tick) == 1 ==>
                  routed.value.router.queues[StationIdOf(room.id)]
                  == [Events.Event(EventId(room.id, tick), StationIdOf(room.id), room.station.tick)])
            && (forall other | other in router.queues && other != StationIdOf(room.id) ::
                  routed.value.router.queues[other] == router.queues[other])
            && SimulationCounted(stats, routed.value.stats, 0, 0, 0, EventsDue(room.id, tick))
  {
  }

  lemma EventPhase(sim: Sim, router: Events.Router, id: nat, entitiesPerRoom: nat, tick: nat, count: nat)
    requires Simulated(sim.room, id, entitiesPerRoom, tick) && Queued(router, sim.room, count)
    ensures var drain := DrainGameplayEvents(sim, router);
            && drain.Some? && Simulated(drain.value.sim.room, id, entitiesPerRoom, tick)
            && Quiet(sim.room, drain.value.sim.room)
            && drain.value.router == Events.Router(router.queues[StationIdOf(id) := []])
            && EventsCounted(sim.stats, drain.value.sim.stats, count, Min(count, 1))
  {
    hide DrainGameplayEvents, Grows;
    EventsSucceed(sim, router);
    DrainGrows(sim, router);
    EventsKeepRest(sim, router, DrainGameplayEvents(sim, router).value, id, entitiesPerRoom, tick);
  }

  ghost predicate EventsCounted(before: Stats, after: Stats, drained: nat, written: nat) {
    after == before.(
      eventsDrained := SatAdd(before.eventsDrained, drained),
      componentUpdates := SatAdd(before.componentUpdates, written))
  }

  lemma EventsKeepRest(
      before: Sim, router: Events.Router, drain: EventDrain, id: nat, entitiesPerRoom: nat, tick: nat)
    requires Simulated(before.room, id, entitiesPerRoom, tick)
    requires Core(drain.sim.room) && EventsDone(before, router, drain)
    ensures Simulated(drain.sim.room, id, entitiesPerRoom, tick)
    ensures SameProjectiles(before.room, drain.sim.room)
    ensures var count := |router.queues[StationIdOf(id)]|;
            EventsCounted(before.stats, drain.sim.stats, count, Min(count, 1))
  {
    hide Accounts, Coherent, Population, DirtyTracked, DirtyLive, NextIdFresh, GenerationsBounded;
  }

  /** Everything selected was encoded, sent and received; nothing was skipped or too large. */
  ghost predicate Balanced(stats: Stats) {
    && stats.viewerPlans == stats.packetsSent == stats.packetsReceived
    && stats.encodedBytes == stats.decodedBytes
    && stats.selectedEntities == stats.encodedEntities <= stats.encodedComponents
    && stats.skippedEntities == stats.packetOversize == 0
  }

  /** Counters of replication. */
  ghost predicate ReplicationCounted(before: Stats, after: Stats, plans: nat) {
    && after == before.(
         viewerPlans := SatAdd(before.viewerPlans, plans),
         packetsSent := SatAdd(before.packetsSent, plans),
         packetsReceived := SatAdd(before.packetsReceived, plans),
         selectedEntities := after.selectedEntities, encodedEntities := after.encodedEntities,
         encodedComponents := after.encodedComponents,
         encodedBytes := after.encodedBytes, decodedBytes := after.decodedBytes)
    && (Balanced(before) ==> Balanced(after))
    && before.encodedEntities <= after.encodedEntities
  }

  /** Handles a room may issue beyond its entities before its tracker is full. */
  const TRACKED_SPARE: nat := SPARE_SLOTS + TRACKER_SPARE

  /** Replication, while the room is young enough for its tracker. */
  lemma ReplicationPhase(sim: Sim, queries: nat -> Query, id: nat, entitiesPerRoom: nat, tick: nat)
    requires Simulated(sim.room, id, entitiesPerRoom, tick) && id <= MAX_ROOM
    requires entitiesPerRoom <= U32_MAX - SPARE_SLOTS && tick + 1 < U32_MAX
    requires RateOf(id) * sim.room.station.tick <= TRACKED_SPARE
    ensures var done := ReplicateRoom(sim, queries);
            && done.Some? && AtBoundary(done.value.room, id, entitiesPerRoom, tick + 1)
            && NothingDirty(done.value.room) && SameProjectiles(sim.room, done.value.room)
            && ReplicationCounted(sim.stats, done.value.stats, PlayerCount(id))
            && (EntityHandle(0, 0) in sim.room.dirtyHandles ==> done.value.stats.encodedEntities > 0)
            && Replicated(sim, done.value, queries)
  {
    hide ReplicateRoom, Core, TrackerRoom, PlansOf, NothingDirty, HubIdle;
    SlotsReserved(sim.room, id, entitiesPerRoom, tick);
    YoungTrackerHasRoom(sim.room, id, entitiesPerRoom, tick);
    ReplicationSucceeds(sim, queries);
    if EntityHandle(0, 0) in sim.room.dirtyHandles {
      OwnEntityPlanned(sim.room, queries, id, entitiesPerRoom, tick);
    }
    var done := ReplicateRoom(sim, queries).value;
    ReplicationKeepsRest(sim, done, queries, id, entitiesPerRoom, tick);
  }

  /** A player whose own entity is listed is sent something. */
  lemma OwnEntityPlanned(room: RoomState, queries: nat -> Query, id: nat, entitiesPerRoom: nat, tick: nat)
    requires Simulated(room, id, entitiesPerRoom, tick) && tick + 1 < U32_MAX
    requires EntityHandle(0, 0) in room.dirtyHandles
    ensures SelectedUpTo(PlansOf(room, queries), |room.players|) > 0
  {
    hide Accounts, Coherent, NextIdFresh, GenerationsBounded, DirtyTracked, Population, Timeline, PlanFor,
      DirtyLookup, LookupExact, HubIdle, PrepareDirtyGenerations;
    var prepared := PrepareDirtyGenerations(room);
    PrepareKeepsRest(room);
    PreparedLookupExact(room);
    PlayerCountBounded(id);
    FirstPlan(prepared, queries(0));
    PlansAre(prepared, queries, |room.players|);
    SelectedGrows(PlansOf(room, queries), 1, |room.players|);
  }

  lemma FirstPlan(room: RoomState, query: Query)
    requires LookupExact(room) && 0 < |room.players| && room.players[0].handle == EntityHandle(0, 0)
    requires room.station.IsLive(EntityHandle(0, 0)) && EntityHandle(0, 0) in room.dirtyHandles
    ensures |PlanFor(room, 0, query)| > 0
  {
    hide LookupExact;
    var candidates := Candidates(query, EntityHandle(0, 0));
    PlanIsComplete(room, candidates, |candidates|);
    assert candidates[..|candidates|] == candidates;
  }

  lemma {:induction false} PlansAre(room: RoomState, queries: nat -> Query, n: nat)
    requires n <= |room.players|
    ensures forall k | 0 <= k < n :: PlansUpTo(room, queries, n)[k] == PlanFor(room, k, queries(k))
  {
    hide PlanFor;
    if n > 0 {
      PlansAre(room, queries, n - 1);
    }
  }

  lemma {:induction false} SelectedGrows(plans: seq<seq<EntityHandle>>, m: nat, n: nat)
    requires m <= n <= |plans|
    ensures SelectedUpTo(plans, m) <= SelectedUpTo(plans, n)
  {
    if m < n {
      SelectedGrows(plans, m, n - 1);
    }
  }

  /** The tracker has room exactly while the projectiles issued fit its spare entries. */
  lemma TrackerRoomExactly(room: RoomState, id: nat, entitiesPerRoom: nat, tick: nat)
    requires Simulated(room, id, entitiesPerRoom, tick) && id <= MAX_ROOM
    requires entitiesPerRoom <= U32_MAX - SPARE_SLOTS
    ensures TrackerRoom(room) <==> RateOf(id) * room.station.tick <= TRACKED_SPARE
    ensures room.tracker.maxEntries == PlayerCount(id) * (entitiesPerRoom + TRACKED_SPARE) < U64_MAX
    ensures IssuedSum(room.station.generations, |room.station.generations|)
            == entitiesPerRoom + RateOf(id) * room.station.tick
  {
    hide Coherent, Population, DirtyTracked, DirtyLive, NextIdFresh, GenerationsBounded, Timeline,
      HubIdle, ListedDirty, BlobsTyped, IndexCounted, Layout, IssuedSum, RateOf, SessionsBounded;
    var players := PlayerCount(id);
    var spawned := RateOf(id) * room.station.tick;
    PlayerCountBounded(id);
    ProductMonotone(players, MAX_PLAYERS, entitiesPerRoom + TRACKED_SPARE);
    hide PlayerCount;
    ProductOrder(players, entitiesPerRoom + spawned, entitiesPerRoom + TRACKED_SPARE);
  }

  lemma ProductOrder(factor: nat, x: nat, y: nat)
    requires factor > 0
    ensures factor * x <= factor * y <==> x <= y
  {
    if x <= y {
      ProductMonotone(x, y, factor);
    } else {
      ProductMonotone(y + 1, x, factor);
      assert factor * (y + 1) == factor * y + factor;
    }
  }

  lemma YoungTrackerHasRoom(room: RoomState, id: nat, entitiesPerRoom: nat, tick: nat)
    requires Simulated(room, id, entitiesPerRoom, tick) && id <= MAX_ROOM
    requires entitiesPerRoom <= U32_MAX - SPARE_SLOTS
    requires RateOf(id) * room.station.tick <= TRACKED_SPARE
    ensures TrackerRoom(room)
  {
    hide Simulated, TrackerRoom;
    TrackerRoomExactly(room, id, entitiesPerRoom, tick);
  }

  lemma SlotsReserved(room: RoomState, id: nat, entitiesPerRoom: nat, tick: nat)
    requires Simulated(room, id, entitiesPerRoom, tick) && entitiesPerRoom <= U32_MAX - SPARE_SLOTS
    ensures |room.station.records| <= |room.dirtyGenerations|
  {
    hide Accounts, Coherent, Population, DirtyTracked, DirtyLive, NextIdFresh, GenerationsBounded;
    SlotsWithinCapacity(room, room.station.tick);
  }

  lemma ReplicationKeepsRest(
      before: Sim, after: Sim, queries: nat -> Query, id: nat, entitiesPerRoom: nat, tick: nat)
    requires Simulated(before.room, id, entitiesPerRoom, tick)
    requires Core(after.room) && Replicated(before, after, queries)
    ensures AtBoundary(after.room, id, entitiesPerRoom, tick + 1)
    ensures SameProjectiles(before.room, after.room)
    ensures NothingDirty(after.room)
    ensures ReplicationCounted(before.stats, after.stats, PlayerCount(id))
  {
    hide Accounts, Coherent, Population, DirtyTracked, DirtyLive, NextIdFresh, GenerationsBounded;
  }
}
