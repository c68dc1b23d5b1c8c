/** The multi-room run: which room is recreated when, what one tick does to all rooms, the event
    router and the counters, and the state after any number of ticks. */
module GameplaySpec {
  import opened MachineInts
  import opened Options
  import opened RoomSpec
  import Events = EventRouter

  const RECREATE_TICKS: nat := 15

  datatype Config = Config(rooms: nat, entitiesPerRoom: nat, ticks: nat)

  datatype World = World(rooms: seq<RoomState>, router: Events.Router, stats: Stats)

  /** What the spatial index reports, by tick, room and viewer. */
  type Queries = (nat, nat, nat) -> Query

  function RoomQueries(queries: Queries, tick: nat, room: nat): nat -> Query {
    viewer => queries(tick, room, viewer)
  }

  /** The room recreated at the start of a tick: every fifteenth tick one room in turn. */
  function RecreatedRoom(config: Config, tick: nat): (room: Option<nat>)
    requires config.rooms > 0
    ensures room.Some? ==> room.value < config.rooms
  {
    if tick != 0 && tick % RECREATE_TICKS == 0 then Some((tick / RECREATE_TICKS) % config.rooms) else None
  }

  /** The whole trace of a run. */
  function BuildTrace(config: Config): seq<Option<nat>>
    requires config.rooms > 0
  {
    seq(config.ticks, tick requires tick >= 0 => RecreatedRoom(config, tick))
  }

  function CreateUpTo(config: Config, n: nat): Option<seq<RoomState>> {
    if n == 0 then Some([])
    else
      var before :- CreateUpTo(config, n - 1);
      var room :- CreateRoom(n - 1, config.entitiesPerRoom);
      Some(before + [room])
  }

  function RegisterUpTo(n: nat): Events.Router {
    if n == 0 then Events.EMPTY else RegisterUpTo(n - 1).RegisterStation(StationIdOf(n - 1))
  }

  function Start(config: Config): Option<World> {
    var rooms :- CreateUpTo(config, config.rooms);
    Some(World(rooms, RegisterUpTo(config.rooms), NO_STATS.(roomsCreated := Min(|rooms|, U64_MAX))))
  }

  datatype Torn = Torn(router: Events.Router, stats: Stats)

  /** Drops a room's router queue and its endpoints, counting what was still queued. */
  function TeardownRoom(room: RoomState, router: Events.Router, stats: Stats): Option<Torn> {
    var dropped :- router.UnregisterStation(StationIdOf(room.id));
    var counted := stats.(teardownQueuedEvents := SatAdd(stats.teardownQueuedEvents, dropped.queued));
    var released :- UnregisterUpTo(room, counted, |EndpointIds(room)|);
    Some(Torn(dropped.router, released.stats))
  }

  function RecreateRoom(world: World, config: Config, id: nat): Option<World>
    requires id < |world.rooms|
  {
    var torn :- TeardownRoom(world.rooms[id], world.router, world.stats);
    var room :- CreateRoom(id, config.entitiesPerRoom);
    Some(World(
      world.rooms[id := room],
      torn.router.RegisterStation(StationIdOf(room.id)),
      torn.stats.(roomsDestroyed := SatAdd(torn.stats.roomsDestroyed, 1),
                  roomsCreated := SatAdd(torn.stats.roomsCreated, 1))))
  }

  function RecreateDue(world: World, config: Config, tick: nat): Option<World>
    requires 0 < config.rooms <= |world.rooms|
  {
    match RecreatedRoom(config, tick)
    case None => Some(world)
    case Some(id) => RecreateRoom(world, config, id)
  }

  function AdvanceRoom(room: RoomState): RoomState { room.(station := room.station.AdvanceTick()) }

  function AdvanceUpTo(world: World, n: nat): (advanced: World)
    requires n <= |world.rooms|
    ensures |advanced.rooms| == |world.rooms|
  {
    if n == 0 then world
    else
      var before := AdvanceUpTo(world, n - 1);
      before.(rooms := before.rooms[n - 1 := AdvanceRoom(before.rooms[n - 1])])
  }

  function SimOf(world: World, i: nat): Sim
    requires i < |world.rooms|
  {
    Sim(world.rooms[i], world.stats)
  }

  function WithSim(world: World, i: nat, sim: Sim): World
    requires i < |world.rooms|
  {
    world.(rooms := world.rooms[i := sim.room], stats := sim.stats)
  }

  function CommandsUpTo(world: World, tick: nat, n: nat): (after: Option<World>)
    requires n <= |world.rooms|
    ensures after.Some? ==> |after.value.rooms| == |world.rooms|
  {
    if n == 0 then Some(world)
    else
      var before :- CommandsUpTo(world, tick, n - 1);
      var sim :- EnqueueAndApplyCommands(SimOf(before, n - 1), tick);
      Some(WithSim(before, n - 1, sim))
  }

  function SimulateRoom(world: World, tick: nat, i: nat): (after: Option<World>)
    requires i < |world.rooms|
    ensures after.Some? ==> |after.value.rooms| == |world.rooms|
  {
    var moved :- UpdateNpcs(SimOf(world, i), tick);
    var updated :- UpdateProjectiles(moved);
    var routed :- RouteGameplayEvent(updated.room, tick, world.router, updated.stats);
    Some(WithSim(world, i, Sim(updated.room, routed.stats)).(router := routed.router))
  }

  function SimulateUpTo(world: World, tick: nat, n: nat): (after: Option<World>)
    requires n <= |world.rooms|
    ensures after.Some? ==> |after.value.rooms| == |world.rooms|
  {
    if n == 0 then Some(world)
    else
      var before :- SimulateUpTo(world, tick, n - 1);
      SimulateRoom(before, tick, n - 1)
  }

  function DrainUpTo(world: World, n: nat): (after: Option<World>)
    requires n <= |world.rooms|
    ensures after.Some? ==> |after.value.rooms| == |world.rooms|
  {
    if n == 0 then Some(world)
    else
      var before :- DrainUpTo(world, n - 1);
      var drain :- DrainGameplayEvents(SimOf(before, n - 1), before.router);
      Some(WithSim(before, n - 1, drain.sim).(router := drain.router))
  }

  function ReplicateUpTo(world: World, queries: Queries, tick: nat, n: nat): (after: Option<World>)
    requires n <= |world.rooms|
    ensures after.Some? ==> |after.value.rooms| == |world.rooms|
  {
    if n == 0 then Some(world)
    else
      var before :- ReplicateUpTo(world, queries, tick, n - 1);
      var sim :- ReplicateRoom(SimOf(before, n - 1), RoomQueries(queries, tick, n - 1));
      Some(WithSim(before, n - 1, sim))
  }

  /** A tick up to its replication: recreation, then the earlier phases over all rooms. */
  function SimulateTick(world: World, config: Config, tick: nat): Option<World>
    requires 0 < config.rooms
  {
    if |world.rooms| != config.rooms then None
    else
      var recreated :- RecreateDue(world, config, tick);
      var advanced := AdvanceUpTo(recreated, |recreated.rooms|);
      var commanded :- CommandsUpTo(advanced, tick, |advanced.rooms|);
      var simulated :- SimulateUpTo(commanded, tick, |commanded.rooms|);
      DrainUpTo(simulated, |simulated.rooms|)
  }

  /** One tick: recreation, then each phase over all rooms. */
  function RunTick(world: World, config: Config, tick: nat, queries: Queries): Option<World>
    requires 0 < config.rooms
  {
    var simulated :- SimulateTick(world, config, tick);
    var replicated :- ReplicateUpTo(simulated, queries, tick, |simulated.rooms|);
    Some(replicated.(stats := replicated.stats.(
      ticksCompleted := SatAdd(replicated.stats.ticksCompleted, 1))))
  }

  /** The world after the first `n` ticks. */
  function RunUpTo(config: Config, queries: Queries, n: nat): Option<World>
    requires config.rooms > 0
  {
    if n == 0 then Start(config)
    else
      var before :- RunUpTo(config, queries, n - 1);
      RunTick(before, config, n - 1, queries)
  }
}
