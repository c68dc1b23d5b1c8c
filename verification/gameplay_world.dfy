/** The phases of a tick over all rooms: each succeeds, takes every room to the next phase and
    counts what it did. */
module GameplayWorld {
  import opened MachineInts
  import opened Options
  import opened StationTable
  import opened RoomSpec
  import opened RoomGrowth
  import opened RoomInvariants
  import opened RoomSteps
  import opened RoomProjectiles
  import opened RoomReplication
  import opened RoomCreation
  import opened GameplaySpec
  import opened GameplayPhases
  import Events = EventRouter

  // ----- how long a run may be -----

  /** A room that launches two projectiles a tick fills its tracker's spare entries at this age. */
  const FULL_TRACKER_AGE: nat := TRACKED_SPARE / 2

  /** No room of the first `n` ticks grows older than its tracker allows: the run is short, or
      the rooms are recreated soon enough. */
  predicate TrackersLast(config: Config, n: nat) {
    Min(n, RECREATE_TICKS * config.rooms) <= FULL_TRACKER_AGE
  }

  /** Sizes for which the first `n` ticks of a run succeed, whatever the index reports. */
  predicate Admissible(config: Config, n: nat) {
    Sized(config) && n < U32_MAX && TrackersLast(config, n)
  }

  predicate Sized(config: Config) { GuardedSizes(config.rooms, config.entitiesPerRoom) }

  /** Ticks since a room was created, after the first `n` ticks. */
  function AgeOf(config: Config, room: nat, n: nat): nat
    requires config.rooms > 0
  {
    if n == 0 then 0
    else 1 + if RecreatedRoom(config, n - 1) == Some(room) then 0 else AgeOf(config, room, n - 1)
  }

  /** Recreations until a room's turn, after the first `count` recreations. */
  function TurnsLeft(config: Config, room: nat, count: nat): nat
    requires room < config.rooms
  {
    if count == 0 then if room == 0 then config.rooms else room
    else if TurnsLeft(config, room, count - 1) == 1 then config.rooms
    else SatSub(TurnsLeft(config, room, count - 1), 1)
  }

  lemma {:induction false} TurnsLeftAre(config: Config, room: nat, count: nat)
    requires room < config.rooms
    ensures 1 <= TurnsLeft(config, room, count) <= config.rooms
    ensures (count + TurnsLeft(config, room, count)) % config.rooms == room
    ensures TurnsLeft(config, room, count) == 1 <==> (count + 1) % config.rooms == room
  {
    if count > 0 {
      TurnsLeftAre(config, room, count - 1);
      if TurnsLeft(config, room, count - 1) == 1 {
        RemainderOfSum(count, config.rooms);
      }
    } else if room == 0 {
      RemainderOfSum(0, config.rooms);
    } else {
      DivModUnique(room, config.rooms, 0, room);
    }
    if (count + 1) % config.rooms == room {
      SameRemainder(count + TurnsLeft(config, room, count), count + 1, config.rooms);
    }
  }

  lemma RemainderOfSum(x: nat, m: nat)
    requires m > 0
    ensures (x + m) % m == x % m
  {
    DivModUnique(x + m, m, x / m + 1, x % m);
  }

  /** A room is never older than the run, nor than one round of recreations. */
  lemma {:induction false} AgeBounded(config: Config, room: nat, n: nat)
    requires room < config.rooms
    ensures AgeOf(config, room, n) <= n
    ensures n > 0 ==>
              AgeOf(config, room, n)
              <= RECREATE_TICKS * (config.rooms - TurnsLeft(config, room, Recreations(n)))
               + (n - 1) % RECREATE_TICKS + 1
    ensures AgeOf(config, room, n) <= RECREATE_TICKS * config.rooms
  {
    if n > 0 {
      AgeBounded(config, room, n - 1);
      TurnsLeftAre(config, room, Recreations(n));
      if n > 1 {
        TraceIsPeriodic(config, n - 1);
        TurnsLeftAre(config, room, Recreations(n - 1));
      }
    }
  }

  /** The first room is the last to be recreated. */
  lemma {:induction false} FirstRoomAges(config: Config, n: nat)
    requires 0 < config.rooms && n <= RECREATE_TICKS * config.rooms
    ensures AgeOf(config, 0, n) == n
  {
    if n > 0 {
      FirstRoomAges(config, n - 1);
      if RecreatedRoom(config, n - 1).Some? {
        DivModUnique((n - 1) / RECREATE_TICKS, config.rooms, 0, (n - 1) / RECREATE_TICKS);
      }
    }
  }

  lemma AgeWithinTracker(config: Config, room: nat, n: nat)
    requires Admissible(config, n) && room < config.rooms
    ensures RateOf(room) * AgeOf(config, room, n) <= TRACKED_SPARE
  {
    AgeBounded(config, room, n);
    ProductMonotone(AgeOf(config, room, n), FULL_TRACKER_AGE, RateOf(room));
  }

  // ----- sums over rooms -----

  function RateSum(n: nat): nat { if n == 0 then 0 else RateSum(n - 1) + RateOf(n - 1) }

  function PlayerSum(n: nat): nat { if n == 0 then 0 else PlayerSum(n - 1) + PlayerCount(n - 1) }

  function CommandSum(tick: nat, n: nat): nat {
    if n == 0 then 0 else CommandSum(tick, n - 1) + CommandsDue(n - 1, tick)
  }

  /** Non-players that the first `n` rooms move in a tick. */
  function NpcSum(config: Config, n: nat): nat {
    if n == 0 then 0 else NpcSum(config, n - 1) + NpcsDue(n - 1, config.entitiesPerRoom)
  }

  function EventSum(tick: nat, n: nat): nat {
    if n == 0 then 0 else EventSum(tick, n - 1) + EventsDue(n - 1, tick)
  }

  /** Projectiles that expired between two states of the first `n` rooms. */
  function VanishedSum(before: seq<RoomState>, after: seq<RoomState>, n: nat): nat
    requires n <= |before| && n <= |after|
  {
    if n == 0 then 0
    else VanishedSum(before, after, n - 1) + Vanished(before[n - 1], after[n - 1], RateOf(n - 1))
  }

  lemma {:induction false} VanishedDepends(
      before1: seq<RoomState>, before2: seq<RoomState>, after1: seq<RoomState>, after2: seq<RoomState>,
      n: nat)
    requires n <= |before1| && n <= |before2| && n <= |after1| && n <= |after2|
    requires forall i | 0 <= i < n :: before1[i].projectiles == before2[i].projectiles
    requires forall i | 0 <= i < n :: after1[i].projectiles == after2[i].projectiles
    ensures VanishedSum(before1, after1, n) == VanishedSum(before2, after2, n)
  {
    if n > 0 {
      VanishedDepends(before1, before2, after1, after2, n - 1);
    }
  }

  /** The phase left the rooms' projectiles and clocks alone. */
  ghost predicate AllSameProjectiles(before: seq<RoomState>, after: seq<RoomState>) {
    && |before| == |after|
    && forall i | 0 <= i < |after| :: SameProjectiles(before[i], after[i])
  }

  ghost predicate AllQuiet(before: seq<RoomState>, after: seq<RoomState>) {
    && |before| == |after|
    && forall i | 0 <= i < |after| :: Quiet(before[i], after[i])
  }

  /** The first `n` rooms launched and expired projectiles; the others did not. */
  ghost predicate AllBalanced(before: seq<RoomState>, after: seq<RoomState>, n: nat) {
    && n <= |before| == |after|
    && (forall i | 0 <= i < n :: ProjectilesBalance(before[i], after[i], i))
    && (forall i | n <= i < |after| :: after[i] == before[i])
  }

  /** The first `n` rooms listed the entities whose turn it was. */
  ghost predicate AllNpcsListed(rooms: seq<RoomState>, tick: nat, n: nat) {
    n <= |rooms| && forall i | 0 <= i < n :: NpcsListed(rooms[i], tick)
  }

  lemma QuietKeepsListed(before: seq<RoomState>, after: seq<RoomState>, tick: nat)
    requires AllQuiet(before, after) && AllNpcsListed(before, tick, |before|)
    ensures AllNpcsListed(after, tick, |after|)
  {
    hide NpcsListed, Grows;
    forall i | 0 <= i < |after| ensures NpcsListed(after[i], tick) {
      assert Quiet(before[i], after[i]) && NpcsListed(before[i], tick);
      GrowthKeepsListed(before[i], after[i], tick);
    }
  }

  // ----- phases over all rooms -----

  ghost predicate AllAtBoundary(world: World, config: Config, tick: nat) {
    && |world.rooms| == config.rooms
    && forall i | 0 <= i < |world.rooms| :: AtBoundary(world.rooms[i], i, config.entitiesPerRoom, tick)
  }

  ghost predicate AllAdvanced(world: World, config: Config, tick: nat, first: nat) {
    && |world.rooms| == config.rooms
    && forall i | first <= i < |world.rooms| :: Advanced(world.rooms[i], i, config.entitiesPerRoom, tick)
  }

  ghost predicate AllCommanded(world: World, config: Config, tick: nat, first: nat, last: nat) {
    && last <= |world.rooms| == config.rooms
    && forall i | first <= i < last :: Commanded(world.rooms[i], i, config.entitiesPerRoom, tick)
  }

  ghost predicate AllSimulated(world: World, config: Config, tick: nat, first: nat, last: nat) {
    && last <= |world.rooms| == config.rooms
    && forall i | first <= i < last :: Simulated(world.rooms[i], i, config.entitiesPerRoom, tick)
  }

  ghost predicate AllReplicated(world: World, config: Config, tick: nat, last: nat) {
    && last <= |world.rooms| == config.rooms
    && forall i | 0 <= i < last ::
         && AtBoundary(world.rooms[i], i, config.entitiesPerRoom, tick + 1)
         && NothingDirty(world.rooms[i])
  }

  lemma {:induction false} AdvanceAll(world: World, config: Config, tick: nat, n: nat)
    requires AllAtBoundary(world, config, tick) && tick < U32_MAX && n <= |world.rooms|
    ensures var after := AdvanceUpTo(world, n);
            && after.router == world.router && after.stats == world.stats
            && (forall i | 0 <= i < n :: Advanced(after.rooms[i], i, config.entitiesPerRoom, tick))
            && (forall i | 0 <= i < n :: TickPassed(world.rooms[i], after.rooms[i]))
            && (forall i | n <= i < |world.rooms| :: after.rooms[i] == world.rooms[i])
  {
    hide AtBoundary, Advanced, AdvanceRoom, TickPassed;
    if n > 0 {
      AdvanceAll(world, config, tick, n - 1);
      AdvancePhase(world.rooms[n - 1], n - 1, config.entitiesPerRoom, tick);
    }
  }

  lemma AllStayQuiet(rooms: seq<RoomState>)
    ensures AllQuiet(rooms, rooms)
  {
    forall i | 0 <= i < |rooms| ensures Quiet(rooms[i], rooms[i]) {
      StaysSame(rooms[i], rooms[i]);
    }
  }

  lemma OneMoreQuiet(start: seq<RoomState>, before: seq<RoomState>, after: seq<RoomState>, i: nat)
    requires AllQuiet(start, before) && i < |before| == |after|
    requires after == before[i := after[i]] && Quiet(before[i], after[i])
    ensures AllQuiet(start, after)
  {
    hide Grows;
    GrowsThrough(start[i], before[i], after[i]);
    assert Quiet(start[i], before[i]);
    forall k | 0 <= k < |after| ensures Quiet(start[k], after[k]) {
      assert Quiet(start[k], before[k]);
    }
  }

  lemma {:induction false} CommandAll(world: World, config: Config, tick: nat, n: nat)
    requires Sized(config) && tick < U32_MAX && n <= |world.rooms|
    requires AllAdvanced(world, config, tick, 0)
    ensures var done := CommandsUpTo(world, tick, n);
            && done.Some? && done.value.router == world.router
            && AllCommanded(done.value, config, tick, 0, n) && AllAdvanced(done.value, config, tick, n)
            && AllQuiet(world.rooms, done.value.rooms)
            && CommandsCounted(world.stats, done.value.stats, CommandSum(tick, n))
  {
    hide Quiet, Advanced, Commanded, EnqueueAndApplyCommands, CommandsDue;
    if n == 0 {
      AllStayQuiet(world.rooms);
    } else {
      CommandAll(world, config, tick, n - 1);
      var before := CommandsUpTo(world, tick, n - 1).value;
      CommandPhase(SimOf(before, n - 1), n - 1, config.entitiesPerRoom, tick);
      OneMoreQuiet(world.rooms, before.rooms, CommandsUpTo(world, tick, n).value.rooms, n - 1);
    }
  }

  /** Router contents: the first `routed` rooms have queued their due events. */
  ghost predicate RouterHolds(world: World, tick: nat, drained: nat, routed: nat) {
    forall i | 0 <= i < |world.rooms| ::
      && world.rooms[i].id == i
      && Queued(world.router, world.rooms[i], if drained <= i < routed then EventsDue(i, tick) else 0)
  }

  lemma RouterAfterRoute(before: World, after: World, tick: nat, i: nat)
    requires i < |before.rooms| == |after.rooms| && RouterHolds(before, tick, 0, i)
    requires after.rooms == before.rooms[i := after.rooms[i]] && after.rooms[i].id == i
    requires Queued(after.router, after.rooms[i], EventsDue(i, tick))
    requires forall other | other in before.router.queues && other != StationIdOf(i) ::
               other in after.router.queues && after.router.queues[other] == before.router.queues[other]
    ensures RouterHolds(after, tick, 0, i + 1)
  {
    hide EventsDue;
    forall k | 0 <= k < |after.rooms|
      ensures after.rooms[k].id == k
      ensures Queued(after.router, after.rooms[k], if 0 <= k < i + 1 then EventsDue(k, tick) else 0)
    {
      assert k != i ==> after.rooms[k] == before.rooms[k];
    }
  }

  lemma SimulateOne(world: World, config: Config, tick: nat, i: nat)
    requires Sized(config) && tick < U32_MAX && i < |world.rooms|
    requires AllSimulated(world, config, tick, 0, i) && AllCommanded(world, config, tick, i, |world.rooms|)
    requires RouterHolds(world, tick, 0, i)
    ensures var done := SimulateRoom(world, tick, i);
            && done.Some?
            && AllSimulated(done.value, config, tick, 0, i + 1)
            && AllCommanded(done.value, config, tick, i + 1, |world.rooms|)
            && RouterHolds(done.value, tick, 0, i + 1)
            && done.value.rooms == world.rooms[i := done.value.rooms[i]]
            && ProjectilesBalance(world.rooms[i], done.value.rooms[i], i)
            && NpcsListed(done.value.rooms[i], tick)
            && SimulationCounted(
                 world.stats, done.value.stats, NpcsDue(i, config.entitiesPerRoom), RateOf(i),
                 Vanished(world.rooms[i], done.value.rooms[i], RateOf(i)), EventsDue(i, tick))
  {
    hide Commanded, Simulated, UpdateNpcs, UpdateProjectiles, RouteGameplayEvent, EventsDue, NpcsDue, RateOf;
    var sim := SimOf(world, i);
    assert Commanded(sim.room, i, config.entitiesPerRoom, tick);
    NpcPhase(sim, i, config.entitiesPerRoom, tick);
    var moved := UpdateNpcs(sim, tick).value;
    ProjectilePhase(moved, i, config.entitiesPerRoom, tick);
    var updated := UpdateProjectiles(moved).value;
    GrowthKeepsListed(moved.room, updated.room, tick);
    hide NpcsListed;
    SimulatedId(updated.room, i, config.entitiesPerRoom, tick);
    RoutePhase(updated.room, tick, world.router, updated.stats);
    RouterAfterRoute(world, SimulateRoom(world, tick, i).value, tick, i);
  }

  lemma SimulatedId(room: RoomState, id: nat, entitiesPerRoom: nat, tick: nat)
    requires Simulated(room, id, entitiesPerRoom, tick)
    ensures room.id == id
  {
  }

  lemma {:induction false} SimulateAll(world: World, config: Config, tick: nat, n: nat)
    requires Sized(config) && tick < U32_MAX && n <= |world.rooms|
    requires AllCommanded(world, config, tick, 0, |world.rooms|) && RouterHolds(world, tick, 0, 0)
    ensures var done := SimulateUpTo(world, tick, n);
            && done.Some?
            && AllSimulated(done.value, config, tick, 0, n)
            && AllCommanded(done.value, config, tick, n, |world.rooms|)
            && RouterHolds(done.value, tick, 0, n)
            && AllBalanced(world.rooms, done.value.rooms, n) && AllNpcsListed(done.value.rooms, tick, n)
            && SimulationCounted(
                 world.stats, done.value.stats, NpcSum(config, n), RateSum(n),
                 VanishedSum(world.rooms, done.value.rooms, n), EventSum(tick, n))
  {
    hide Commanded, Simulated, SimulateRoom, EventsDue, NpcsDue, RateOf, RouterHolds, Vanished, ProjectilesBalance,
      NpcsListed;
    if n > 0 {
      SimulateAll(world, config, tick, n - 1);
      var before := SimulateUpTo(world, tick, n - 1).value;
      SimulateOne(before, config, tick, n - 1);
      VanishedDepends(
        world.rooms, world.rooms, before.rooms, SimulateUpTo(world, tick, n).value.rooms, n - 1);
    }
  }

  lemma DrainOne(world: World, config: Config, tick: nat, i: nat)
    requires i < |world.rooms| && AllSimulated(world, config, tick, 0, |world.rooms|)
    requires RouterHolds(world, tick, i, |world.rooms|)
    ensures var drain := DrainGameplayEvents(SimOf(world, i), world.router);
            && drain.Some?
            && var done := WithSim(world, i, drain.value.sim).(router := drain.value.router);
               && AllSimulated(done, config, tick, 0, |world.rooms|)
               && RouterHolds(done, tick, i + 1, |world.rooms|)
               && Quiet(world.rooms[i], done.rooms[i]) && done.rooms == world.rooms[i := done.rooms[i]]
               && EventsCounted(world.stats, done.stats, EventsDue(i, tick), EventsDue(i, tick))
  {
    hide Simulated, DrainGameplayEvents, EventsDue;
    var sim := SimOf(world, i);
    assert Simulated(sim.room, i, config.entitiesPerRoom, tick);
    EventPhase(sim, world.router, i, config.entitiesPerRoom, tick, EventsDue(i, tick));
    var drain := DrainGameplayEvents(sim, world.router).value;
    SimulatedId(drain.sim.room, i, config.entitiesPerRoom, tick);
  }

  lemma {:induction false} DrainAll(world: World, config: Config, tick: nat, n: nat)
    requires n <= |world.rooms| && AllSimulated(world, config, tick, 0, |world.rooms|)
    requires RouterHolds(world, tick, 0, |world.rooms|)
    ensures var done := DrainUpTo(world, n);
            && done.Some?
            && AllSimulated(done.value, config, tick, 0, |world.rooms|)
            && RouterHolds(done.value, tick, n, |world.rooms|)
            && AllQuiet(world.rooms, done.value.rooms)
            && EventsCounted(world.stats, done.value.stats, EventSum(tick, n), EventSum(tick, n))
  {
    hide Quiet, Simulated, DrainGameplayEvents, EventsDue, RouterHolds, AllSimulated;
    if n == 0 {
      AllStayQuiet(world.rooms);
    } else {
      DrainAll(world, config, tick, n - 1);
      var before := DrainUpTo(world, n - 1).value;
      DrainOne(before, config, tick, n - 1);
      OneMoreQuiet(world.rooms, before.rooms, DrainUpTo(world, n).value.rooms, n - 1);
    }
  }

  /** No event is queued for any room. */
  ghost predicate RouterIdle(world: World) {
    forall i | 0 <= i < |world.rooms| ::
      && world.rooms[i].id == i
      && StationIdOf(i) in world.router.queues && world.router.queues[StationIdOf(i)] == []
  }

  lemma {:induction false} ReplicateAll(world: World, config: Config, queries: Queries, tick: nat, n: nat)
    requires Sized(config) && tick + 1 < U32_MAX && n <= |world.rooms|
    requires AllSimulated(world, config, tick, 0, |world.rooms|)
    requires forall i | 0 <= i < |world.rooms| :: RateOf(i) * world.rooms[i].station.tick <= TRACKED_SPARE
    ensures var done := ReplicateUpTo(world, queries, tick, n);
            && done.Some? && done.value.router == world.router
            && AllReplicated(done.value, config, tick, n)
            && AllSimulated(done.value, config, tick, n, |world.rooms|)
            && AllSameProjectiles(world.rooms, done.value.rooms)
            && ReplicationCounted(world.stats, done.value.stats, PlayerSum(n))
            && (n > 0 && EntityHandle(0, 0) in world.rooms[0].dirtyHandles ==>
                  done.value.stats.encodedEntities > 0)
            && (forall i | n <= i < |world.rooms| :: done.value.rooms[i] == world.rooms[i])
  {
    hide Simulated, AtBoundary, ReplicateRoom, NothingDirty, PlayerCount, RoomQueries, RateOf, Balanced,
      Replicated;
    if n > 0 {
      ReplicateAll(world, config, queries, tick, n - 1);
      var before := ReplicateUpTo(world, queries, tick, n - 1).value;
      ReplicationPhase(
        SimOf(before, n - 1), RoomQueries(queries, tick, n - 1), n - 1, config.entitiesPerRoom, tick);
    }
  }

  // ----- recreation -----

  /** Recreations before tick `n`. */
  function Recreations(n: nat): nat { if n == 0 then 0 else (n - 1) / RECREATE_TICKS }

  /** Endpoints unregistered by the first `count` recreations, as the benchmark expects them. */
  function ExpectedEndpoints(config: Config, count: nat): nat
    requires config.rooms > 0
  {
    if count == 0 then 0
    else ExpectedEndpoints(config, count - 1) + PlayerCount(count % config.rooms) + 1
  }

  /** The trace recreates room `k % rooms` at tick `15 * k`, for every `k > 0`, and no other. */
  lemma TraceIsPeriodic(config: Config, tick: nat)
    requires config.rooms > 0
    ensures RecreatedRoom(config, tick).Some? <==> Recreations(tick + 1) == Recreations(tick) + 1
    ensures RecreatedRoom(config, tick).None? <==> Recreations(tick + 1) == Recreations(tick)
    ensures RecreatedRoom(config, tick).Some? ==>
              RecreatedRoom(config, tick).value == Recreations(tick + 1) % config.rooms
  {
  }

  /** Counters of recreating one room. */
  ghost predicate RecreationCounted(before: Stats, after: Stats, endpoints: nat) {
    after == before.(
      endpointsUnregistered := SatAdd(before.endpointsUnregistered, endpoints),
      roomsDestroyed := SatAdd(before.roomsDestroyed, 1),
      roomsCreated := SatAdd(before.roomsCreated, 1))
  }

  lemma RecreateSucceeds(world: World, config: Config, tick: nat, id: nat)
    requires Sized(config) && id < |world.rooms| && AllAtBoundary(world, config, tick)
    requires RouterIdle(world)
    ensures var done := RecreateRoom(world, config, id);
            && done.Some?
            && AllAtBoundary(done.value, config, tick) && RouterIdle(done.value)
            && done.value.rooms == world.rooms[id := done.value.rooms[id]]
            && JustCreated(done.value.rooms[id])
            && RecreationCounted(world.stats, done.value.stats, PlayerCount(id) + 1)
  {
    hide AtBoundary, CreateRoom, TeardownRoom;
    var room := world.rooms[id];
    assert AtBoundary(room, id, config.entitiesPerRoom, tick);
    TeardownFindsNothing(room, world.router, world.stats, id, config.entitiesPerRoom, tick);
    CreationSucceeds(id, config.entitiesPerRoom, tick);
    BoundaryId(CreateRoom(id, config.entitiesPerRoom).value, id, config.entitiesPerRoom, tick);
  }

  lemma BoundaryId(room: RoomState, id: nat, entitiesPerRoom: nat, tick: nat)
    requires AtBoundary(room, id, entitiesPerRoom, tick)
    ensures room.id == id
  {
  }

  /** A teardown between ticks finds no queued event and no queued packet, and releases one
      endpoint per player and one for the server. */
  lemma TeardownFindsNothing(
      room: RoomState, router: Events.Router, stats: Stats, id: nat, entitiesPerRoom: nat, tick: nat)
    requires AtBoundary(room, id, entitiesPerRoom, tick) && id <= MAX_ROOM
    requires StationIdOf(id) in router.queues && router.queues[StationIdOf(id)] == []
    ensures var torn := TeardownRoom(room, router, stats);
            && torn.Some?
            && torn.value.router == Events.Router(router.queues - {StationIdOf(id)})
            && torn.value.stats == stats.(
                 endpointsUnregistered := SatAdd(stats.endpointsUnregistered, PlayerCount(id) + 1))
  {
    hide UnregisterUpTo, Coherent, Population, DirtyTracked, DirtyLive, NextIdFresh, GenerationsBounded;
    TeardownSucceeds(
      room, stats.(teardownQueuedEvents := SatAdd(stats.teardownQueuedEvents, 0)), |EndpointIds(room)|);
  }

  // ----- start -----

  /** All entities of a new room are listed, and it has launched nothing. */
  ghost predicate JustCreated(room: RoomState) {
    room.station.tick == 0 && room.projectiles == [] && room.dirtyHandles == room.entities
  }

  lemma {:induction false} CreateAll(config: Config, n: nat)
    requires Sized(config) && n <= config.rooms
    ensures var created := CreateUpTo(config, n);
            && created.Some? && |created.value| == n
            && (forall i | 0 <= i < n :: AtBoundary(created.value[i], i, config.entitiesPerRoom, 0))
            && (forall i | 0 <= i < n :: JustCreated(created.value[i]))
  {
    hide AtBoundary, CreateRoom;
    if n > 0 {
      CreateAll(config, n - 1);
      CreationSucceeds(n - 1, config.entitiesPerRoom, 0);
    }
  }

  lemma {:induction false} RegisterAll(n: nat)
    ensures forall station :: station in RegisterUpTo(n).queues <==> 1 <= station <= n
    ensures forall station | station in RegisterUpTo(n).queues :: RegisterUpTo(n).queues[station] == []
  {
    if n > 0 {
      RegisterAll(n - 1);
    }
  }

  lemma StartSucceeds(config: Config)
    requires Sized(config)
    ensures var world := Start(config);
            && world.Some? && AllAtBoundary(world.value, config, 0) && RouterIdle(world.value)
            && world.value.stats == NO_STATS.(roomsCreated := Min(config.rooms, U64_MAX))
            && forall i | 0 <= i < |world.value.rooms| :: JustCreated(world.value.rooms[i])
  {
    hide AtBoundary, CreateUpTo, RegisterUpTo, JustCreated;
    CreateAll(config, config.rooms);
    RegisterAll(config.rooms);
    forall i | 0 <= i < config.rooms ensures CreateUpTo(config, config.rooms).value[i].id == i {
      BoundaryId(CreateUpTo(config, config.rooms).value[i], i, config.entitiesPerRoom, 0);
    }
  }

  // ----- one tick -----

  /** What a tick counts up to its replication. */
  ghost predicate SimulationDone(before: Stats, after: Stats, config: Config, tick: nat, vanished: nat) {
    after == before.(
      commandsAdmitted := SatAdd(before.commandsAdmitted, CommandSum(tick, config.rooms)),
      commandsApplied := SatAdd(before.commandsApplied, CommandSum(tick, config.rooms)),
      entitiesSpawned := SatAdd(before.entitiesSpawned, RateSum(config.rooms)),
      entitiesDespawned := SatAdd(before.entitiesDespawned, vanished),
      eventsRouted := SatAdd(before.eventsRouted, EventSum(tick, config.rooms)),
      eventsDrained := SatAdd(before.eventsDrained, EventSum(tick, config.rooms)),
      movementUpdates :=
        SatAdd(before.movementUpdates, CommandSum(tick, config.rooms) + NpcSum(config, config.rooms)),
      componentUpdates :=
        SatAdd(before.componentUpdates,
               CommandSum(tick, config.rooms) + NpcSum(config, config.rooms) + EventSum(tick, config.rooms)))
  }

  /** Every room grew one tick older, and launched and expired projectiles. */
  ghost predicate RoomsAged(before: seq<RoomState>, after: seq<RoomState>) {
    && |before| == |after|
    && forall i | 0 <= i < |after| ::
         && after[i].station.tick == before[i].station.tick + 1 && Grows(before[i], after[i])
         && |after[i].projectiles| <= |before[i].projectiles| + RateOf(i)
  }

  lemma AgedOverPhases(
      world: seq<RoomState>, advanced: seq<RoomState>, commanded: seq<RoomState>,
      simulated: seq<RoomState>, drained: seq<RoomState>)
    requires |world| == |advanced|
    requires forall i | 0 <= i < |advanced| :: TickPassed(world[i], advanced[i])
    requires AllQuiet(advanced, commanded) && AllBalanced(commanded, simulated, |simulated|)
    requires AllQuiet(simulated, drained)
    ensures RoomsAged(world, drained)
    ensures VanishedSum(commanded, simulated, |simulated|) == VanishedSum(world, drained, |world|)
  {
    hide RateOf, Grows;
    forall i | 0 <= i < |world|
      ensures Grows(world[i], drained[i])
      ensures commanded[i].projectiles == world[i].projectiles
      ensures simulated[i].projectiles == drained[i].projectiles
      ensures drained[i].station.tick == world[i].station.tick + 1
      ensures |drained[i].projectiles| <= |world[i].projectiles| + RateOf(i)
    {
      assert TickPassed(world[i], advanced[i]) && Quiet(advanced[i], commanded[i]);
      assert ProjectilesBalance(commanded[i], simulated[i], i) && Quiet(simulated[i], drained[i]);
      GrowsThrough(world[i], advanced[i], commanded[i]);
      GrowsThrough(world[i], commanded[i], simulated[i]);
      GrowsThrough(world[i], simulated[i], drained[i]);
    }
    VanishedDepends(commanded, world, simulated, drained, |world|);
  }

  /** All phases before replication succeed, and what they leave in the rooms, the router and the
      counters. */
  ghost predicate PhasesSucceed(
      world: World, config: Config, tick: nat, commanded: World, simulated: World, drained: World) {
    && |world.rooms| == |commanded.rooms| == |simulated.rooms| == |drained.rooms| == config.rooms
    && CommandsUpTo(AdvanceUpTo(world, |world.rooms|), tick, |world.rooms|) == Some(commanded)
    && SimulateUpTo(commanded, tick, |world.rooms|) == Some(simulated)
    && DrainUpTo(simulated, |world.rooms|) == Some(drained)
    && AllSimulated(drained, config, tick, 0, config.rooms)
    && RouterHolds(drained, tick, config.rooms, config.rooms)
    && RoomsAged(world.rooms, drained.rooms) && AllNpcsListed(drained.rooms, tick, config.rooms)
    && SimulationDone(
         world.stats, drained.stats, config, tick, VanishedSum(world.rooms, drained.rooms, config.rooms))
  }

  /** Rooms at a tick boundary pass through all phases before replication. */
  lemma SimulationSucceeds(world: World, config: Config, tick: nat)
    returns (commanded: World, simulated: World, drained: World)
    requires Sized(config) && tick < U32_MAX
    requires AllAtBoundary(world, config, tick) && RouterIdle(world)
    ensures PhasesSucceed(world, config, tick, commanded, simulated, drained)
  {
    hide AdvanceUpTo, CommandsUpTo, SimulateUpTo, DrainUpTo, AtBoundary, Advanced, Commanded, Simulated,
      RouterHolds, RouterIdle, AllQuiet, AllBalanced, RoomsAged, TickPassed, VanishedSum, AllNpcsListed,
      CommandSum, RateSum, EventSum, NpcSum;
    var n := |world.rooms|;
    AdvanceAll(world, config, tick, n);
    var advanced := AdvanceUpTo(world, n);
    CommandAll(advanced, config, tick, n);
    commanded := CommandsUpTo(advanced, tick, n).value;
    RouterStillIdle(world, commanded, config, tick);
    SimulateAll(commanded, config, tick, n);
    simulated := SimulateUpTo(commanded, tick, n).value;
    DrainAll(simulated, config, tick, n);
    drained := DrainUpTo(simulated, n).value;
    QuietKeepsListed(simulated.rooms, drained.rooms, tick);
    AgedOverPhases(world.rooms, advanced.rooms, commanded.rooms, simulated.rooms, drained.rooms);
  }

  lemma RouterStillIdle(before: World, after: World, config: Config, tick: nat)
    requires RouterIdle(before) && after.router == before.router && |after.rooms| == |before.rooms|
    requires AllCommanded(after, config, tick, 0, |after.rooms|)
    ensures RouterHolds(after, tick, 0, 0)
  {
    hide Core, HubIdle, ProjectilesPending;
    forall i | 0 <= i < |after.rooms| ensures after.rooms[i].id == i {
      assert Commanded(after.rooms[i], i, config.entitiesPerRoom, tick);
    }
  }

  lemma RouterIdleAgain(before: World, after: World, config: Config, tick: nat)
    requires |after.rooms| == |before.rooms| && after.router == before.router
    requires RouterHolds(before, tick, |before.rooms|, |before.rooms|)
    requires AllReplicated(after, config, tick, |after.rooms|)
    ensures RouterIdle(after)
  {
    hide Core, HubIdle, Timeline, AllDue;
    forall i | 0 <= i < |after.rooms|
      ensures after.rooms[i].id == i
      ensures StationIdOf(i) in after.router.queues && after.router.queues[StationIdOf(i)] == []
    {
      assert AtBoundary(after.rooms[i], i, config.entitiesPerRoom, tick + 1);
      assert before.rooms[i].id == i && Queued(before.router, before.rooms[i], 0);
    }
  }
}
