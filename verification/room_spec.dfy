/** The gameplay room of the multi-room benchmark: its state, and what each step of a tick does
    to it. A step yields `None` where the program would panic on an unmet expectation. */
module RoomSpec {
  import opened Collections
  import opened MachineInts
  import opened Options
  import opened StationTable
  import opened Components
  import opened GatewaySessions
  import opened FrameEncoding
  import opened ReplicationTracking
  import Commands = CommandQueues
  import Transport = TransportHub
  import Events = EventRouter

  const MIN_PLAYERS: nat := 4
  const MAX_PLAYERS: nat := 10
  const SPARE_SLOTS: nat := 16
  const PROJECTILE_TICKS: nat := 5
  /** The world is 192 units wide: 768 quarter units. */
  const WORLD: nat := 768
  const ID_STRIDE: nat := 1_000_000
  const CLIENT_STRIDE: nat := 32
  const SERVER_CLIENT_BASE: nat := 10_000_000
  const PORT_BASE: nat := 10_000
  const PORT_MAX: nat := 0xFFFF
  const TRACKER_SPARE: nat := 1024
  /** Entities of one plan: 256 per viewer and per budget, and 15 KiB at 96 bytes each. */
  const PLAN_LIMIT: nat := 160

  datatype RoomClass = Idle | Active | Hot {
    function CommandInterval(): (interval: nat)
      ensures interval > 0
    {
      match this case Idle => 10 case Active => 2 case Hot => 1
    }

    function NpcUpdates(): nat {
      match this case Idle => 0 case Active => 4 case Hot => 16
    }

    function ProjectilesPerTick(): (rate: nat)
      ensures rate <= 2
    {
      match this case Idle => 0 case Active => 1 case Hot => 2
    }
  }

  function ClassOf(room: nat): RoomClass {
    if room % 10 == 0 then Hot else if room % 10 <= 4 then Active else Idle
  }

  function PlayerCount(room: nat): nat { MIN_PLAYERS + room % (MAX_PLAYERS - MIN_PLAYERS + 1) }

  function StationIdOf(room: nat): nat { room + 1 }

  function RoomEntityId(room: nat, local: nat): nat { SatAdd(SatMul(room, ID_STRIDE), local + 1) }

  function RoomClientId(room: nat, player: nat): nat { SatAdd(SatMul(room, CLIENT_STRIDE), player + 1) }

  function ServerClientId(room: nat): nat { SatAdd(SERVER_CLIENT_BASE, room) }

  function BenchmarkPort(room: nat, endpoint: nat): nat {
    SatAdd(SatAdd(PORT_BASE, SatMul(room, MAX_PLAYERS + 1)), endpoint)
  }

  function EntityPosition(room: nat, local: nat): Position {
    Position(
      (SatMul(local, 17) + SatMul(room, 3)) % 192 * 4,
      (SatMul(local, 29) + SatMul(room, 5)) % 192 * 4)
  }

  /** Moves by 1.25 and 0.75 units; the low bits of the sequence choose the directions, and the
      world wraps around. */
  function MovedPosition(current: Position, sequence: nat): Position {
    Position(
      (current.x + if sequence % 2 == 0 then 5 else WORLD - 5) % WORLD,
      (current.z + if sequence / 2 % 2 == 0 then 3 else WORLD - 3) % WORLD)
  }

  /** Sequence number of a player's command at a tick of the run. */
  function CommandSequence(tickIndex: nat, player: nat): nat { SatMul(tickIndex, MAX_PLAYERS) + player + 1 }

  datatype Player = Player(client: nat, entity: nat, handle: EntityHandle)

  datatype Projectile = Projectile(handle: EntityHandle, expiresAt: nat)

  datatype RoomState = RoomState(
    id: nat,
    station: Station,
    index: map<EntityHandle, Position>,
    components: ComponentStore,
    entities: seq<EntityHandle>,
    players: seq<Player>,
    projectiles: seq<Projectile>,
    nextEntityLocal: nat,
    gateway: Gateway,
    commands: Commands.Queues,
    tracker: Tracker,
    hub: Transport.Hub,
    dirtyHandles: seq<EntityHandle>,
    dirtyGenerations: seq<nat>,
    readyEvents: seq<Events.Event>)

  datatype Stats = Stats(
    ticksCompleted: word,
    roomsCreated: word,
    roomsDestroyed: word,
    endpointsUnregistered: word,
    teardownQueuedPackets: word,
    teardownQueuedEvents: word,
    commandsAdmitted: word,
    commandsApplied: word,
    eventsRouted: word,
    eventsDrained: word,
    entitiesSpawned: word,
    entitiesDespawned: word,
    movementUpdates: word,
    componentUpdates: word,
    viewerPlans: word,
    selectedEntities: word,
    encodedEntities: word,
    encodedComponents: word,
    skippedEntities: word,
    packetsSent: word,
    packetsReceived: word,
    encodedBytes: word,
    decodedBytes: word,
    packetOversize: word)

  const NO_STATS := Stats(0, 0, 0, 0, 0, 0, 0, 0, 0, 0, 0, 0, 0, 0, 0, 0, 0, 0, 0, 0, 0, 0, 0, 0)

  /** A room together with the counters a step updates. */
  datatype Sim = Sim(room: RoomState, stats: Stats)

  // ----- creation -----

  function Capacity(entitiesPerRoom: nat): nat { SatAdd(entitiesPerRoom, SPARE_SLOTS) }

  /** A room before its entities are spawned: only the server endpoint is registered. */
  function EmptyRoom(id: nat, entitiesPerRoom: nat): RoomState {
    RoomState(
      id,
      StationTable.EMPTY,
      map[],
      ComponentStore({}, map[])
        .ReserveComponent(TRANSFORM).ReserveComponent(STATE).ReserveComponent(INVENTORY),
      [], [], [], entitiesPerRoom,
      Gateway(PlayerCount(id), 4, map[]),
      Commands.EMPTY,
      Tracker(SatMul(PlayerCount(id), SatAdd(Capacity(entitiesPerRoom), TRACKER_SPARE)), {}, 0, 0),
      Transport.EMPTY.Register(ServerClientId(id), BenchmarkPort(id, MAX_PLAYERS)),
      [],
      seq(Capacity(entitiesPerRoom), _ => U32_MAX),
      [])
  }

  /** Spawns an entity with its transform and state blobs, and enters it into the index. */
  function SpawnEntity(room: RoomState, local: nat, position: Position): Option<(RoomState, EntityHandle)> {
    var Spawned(station, handle) :- room.station.SpawnOwned(RoomEntityId(room.id, local), position);
    var version := room.station.tick;
    var placed :- room.components.SetBlob(TRANSFORM_DESCRIPTOR, handle, version, Transform(position));
    var stored :- placed.SetBlob(STATE_DESCRIPTOR, handle, version, State(local));
    Some((room.(station := station, index := room.index[handle := position], components := stored), handle))
  }

  /** Connects one player: inventory, gateway session, endpoint and player record. */
  function ConnectPlayer(room: RoomState, local: nat, handle: EntityHandle): Option<RoomState> {
    var components :- room.components.SetBlob(INVENTORY_DESCRIPTOR, handle, 0, Inventory);
    var client := RoomClientId(room.id, local);
    var gateway :- room.gateway.Connect(client, 0);
    var port := BenchmarkPort(room.id, local);
    if port > PORT_MAX then None
    else Some(room.(
      components := components,
      gateway := gateway,
      hub := room.hub.Register(client, port),
      players := room.players + [Player(client, RoomEntityId(room.id, local), handle)]))
  }

  function PopulateOne(room: RoomState, local: nat): Option<RoomState> {
    var (spawned, handle) :- SpawnEntity(room, local, EntityPosition(room.id, local));
    var listed := spawned.(entities := spawned.entities + [handle]);
    if local < PlayerCount(room.id) then ConnectPlayer(listed, local, handle) else Some(listed)
  }

  function PopulateUpTo(id: nat, entitiesPerRoom: nat, n: nat): Option<RoomState> {
    if n == 0 then
      if BenchmarkPort(id, MAX_PLAYERS) > PORT_MAX then None else Some(EmptyRoom(id, entitiesPerRoom))
    else
      var room :- PopulateUpTo(id, entitiesPerRoom, n - 1);
      PopulateOne(room, n - 1)
  }

  /** A new room: all its entities are dirty. */
  function CreateRoom(id: nat, entitiesPerRoom: nat): Option<RoomState> {
    var room :- PopulateUpTo(id, entitiesPerRoom, entitiesPerRoom);
    Some(room.(dirtyHandles := room.entities))
  }

  // ----- teardown -----

  /** Endpoints a room registered: its players', then its server's. */
  function EndpointIds(room: RoomState): seq<nat> {
    seq(|room.players|, i requires 0 <= i < |room.players| => room.players[i].client)
      + [ServerClientId(room.id)]
  }

  datatype Teardown = Teardown(hub: Transport.Hub, stats: Stats)

  function UnregisterUpTo(room: RoomState, stats: Stats, n: nat): Option<Teardown>
    requires n <= |EndpointIds(room)|
  {
    if n == 0 then Some(Teardown(room.hub, stats))
    else
      var before :- UnregisterUpTo(room, stats, n - 1);
      var released :- before.hub.Unregister(EndpointIds(room)[n - 1]);
      Some(Teardown(
        released.hub,
        before.stats.(
          endpointsUnregistered := SatAdd(before.stats.endpointsUnregistered, 1),
          teardownQueuedPackets := SatAdd(before.stats.teardownQueuedPackets, released.queuedPackets))))
  }

  // ----- one tick -----

  /** Moves an entity: station, index and transform blob change together, and the handle is
      listed as dirty. */
  function MoveEntity(sim: Sim, handle: EntityHandle, position: Position): Option<Sim> {
    var room := sim.room;
    var station :- room.station.MoveOwned(handle, position);
    var components :- room.components.SetBlob(
      TRANSFORM_DESCRIPTOR, handle, room.station.tick, Transform(position));
    Some(Sim(
      room.(station := station,
            index := room.index[handle := position],
            components := components,
            dirtyHandles := room.dirtyHandles + [handle]),
      sim.stats.(movementUpdates := SatAdd(sim.stats.movementUpdates, 1),
                 componentUpdates := SatAdd(sim.stats.componentUpdates, 1))))
  }

  function CommandOf(room: RoomState, tickIndex: nat, player: nat): Commands.Command
    requires player < |room.players|
  {
    Commands.Command(
      room.players[player].client, room.players[player].entity, CommandSequence(tickIndex, player),
      room.station.tick, if player == 0 then Commands.High else Commands.Normal)
  }

  function AdmitOne(sim: Sim, tickIndex: nat, player: nat): Option<Sim>
    requires player < |sim.room.players|
  {
    var command := CommandOf(sim.room, tickIndex, player);
    var gateway :- sim.room.gateway.AdmitSequence(command.client, command.sequence, sim.room.station.tick);
    var commands :- sim.room.commands.Push(command);
    Some(Sim(
      sim.room.(gateway := gateway, commands := commands),
      sim.stats.(commandsAdmitted := SatAdd(sim.stats.commandsAdmitted, 1))))
  }

  function AdmitUpTo(sim: Sim, tickIndex: nat, n: nat): (admitted: Option<Sim>)
    requires n <= |sim.room.players|
    ensures admitted.Some? ==> admitted.value.room.players == sim.room.players
  {
    if n == 0 then Some(sim)
    else
      var before :- AdmitUpTo(sim, tickIndex, n - 1);
      AdmitOne(before, tickIndex, n - 1)
  }

  function ApplyCommand(sim: Sim, command: Commands.Command): Option<Sim> {
    if command.entity !in sim.room.station.byId then None
    else
      var handle := sim.room.station.byId[command.entity];
      var entity :- sim.room.station.Get(handle);
      var moved :- MoveEntity(sim, handle, MovedPosition(entity.position, command.sequence));
      Some(moved.(stats := moved.stats.(commandsApplied := SatAdd(moved.stats.commandsApplied, 1))))
  }

  /** Applies queued commands until the queues are empty. */
  function ApplyAll(sim: Sim): Option<Sim>
    decreases sim.room.commands.Length()
  {
    match sim.room.commands.PopNext()
    case None => Some(sim)
    case Some(Popped(command, rest)) =>
      var taken := sim.(room := sim.room.(commands := rest));
      var applied :- ApplyCommand(taken, command);
      ApplyAll(applied)
  }

  function EnqueueAndApplyCommands(sim: Sim, tickIndex: nat): Option<Sim> {
    if tickIndex % ClassOf(sim.room.id).CommandInterval() != 0 then Some(sim)
    else
      var admitted :- AdmitUpTo(sim, tickIndex, |sim.room.players|);
      ApplyAll(admitted)
  }

  function NpcCount(room: RoomState): nat { SatSub(|room.entities|, |room.players|) }

  function NpcIndex(room: RoomState, tickIndex: nat, offset: nat): nat {
    |room.players| + (SatMul(tickIndex, 17) + offset) % Max(NpcCount(room), 1)
  }

  function UpdateNpc(sim: Sim, tickIndex: nat, offset: nat): Option<Sim> {
    var i := NpcIndex(sim.room, tickIndex, offset);
    if i >= |sim.room.entities| then None
    else
      var handle := sim.room.entities[i];
      var current := sim.room.station.Get(handle);
      if current.None? then Some(sim)
      else MoveEntity(sim, handle, MovedPosition(current.value.position, tickIndex + offset))
  }

  function UpdateNpcsUpTo(sim: Sim, tickIndex: nat, n: nat): Option<Sim> {
    if n == 0 then Some(sim)
    else
      var before :- UpdateNpcsUpTo(sim, tickIndex, n - 1);
      UpdateNpc(before, tickIndex, n - 1)
  }

  function UpdateNpcs(sim: Sim, tickIndex: nat): Option<Sim> {
    UpdateNpcsUpTo(sim, tickIndex, Min(ClassOf(sim.room.id).NpcUpdates(), NpcCount(sim.room)))
  }

  function PopProjectile(sim: Sim): Sim
    requires sim.room.projectiles != []
  {
    var projectile := sim.room.projectiles[0];
    var room := sim.room.(projectiles := sim.room.projectiles[1..]);
    var removed := room.station.Remove(projectile.handle);
    if removed.None? then sim.(room := room)
    else Sim(
      room.(station := removed.value,
            index := room.index - {projectile.handle},
            components := room.components.ClearEntity(projectile.handle)),
      sim.stats.(entitiesDespawned := SatAdd(sim.stats.entitiesDespawned, 1)))
  }

  predicate FrontExpired(room: RoomState) {
    room.projectiles != [] && room.projectiles[0].expiresAt <= room.station.tick
  }

  /** Pops expired projectiles from the front of the queue only. */
  function ExpireProjectiles(sim: Sim): Sim
    decreases |sim.room.projectiles|
  {
    if FrontExpired(sim.room) then ExpireProjectiles(PopProjectile(sim)) else sim
  }

  function SpawnProjectile(sim: Sim, offset: nat): Option<Sim> {
    var local := sim.room.nextEntityLocal;
    var room := sim.room.(nextEntityLocal := SatAdd(local, 1));
    var (spawned, handle) :- SpawnEntity(room, local, EntityPosition(room.id, SatAdd(local, offset)));
    Some(Sim(
      spawned.(
        projectiles := spawned.projectiles
          + [Projectile(handle, SatAdd(room.station.tick, PROJECTILE_TICKS))],
        dirtyHandles := spawned.dirtyHandles + [handle]),
      sim.stats.(entitiesSpawned := SatAdd(sim.stats.entitiesSpawned, 1))))
  }

  function SpawnProjectilesUpTo(sim: Sim, n: nat): Option<Sim> {
    if n == 0 then Some(sim)
    else
      var before :- SpawnProjectilesUpTo(sim, n - 1);
      SpawnProjectile(before, n - 1)
  }

  function UpdateProjectiles(sim: Sim): Option<Sim> {
    SpawnProjectilesUpTo(ExpireProjectiles(sim), ClassOf(sim.room.id).ProjectilesPerTick())
  }

  predicate RoutesEvent(id: nat, tickIndex: nat) { ClassOf(id) != Idle && tickIndex % 5 == 0 }

  function EventId(room: nat, tickIndex: nat): nat { SatAdd(SatMul(room, ID_STRIDE), tickIndex + 1) }

  datatype Routed = Routed(router: Events.Router, stats: Stats)

  function RouteGameplayEvent(room: RoomState, tickIndex: nat, router: Events.Router, stats: Stats)
    : Option<Routed>
  {
    if !RoutesEvent(room.id, tickIndex) then Some(Routed(router, stats))
    else
      var event := Events.Event(EventId(room.id, tickIndex), StationIdOf(room.id), room.station.tick);
      var after :- router.Route(event);
      Some(Routed(after, stats.(eventsRouted := SatAdd(stats.eventsRouted, 1))))
  }

  datatype EventDrain = EventDrain(sim: Sim, router: Events.Router)

  function DrainGameplayEvents(sim: Sim, router: Events.Router): Option<EventDrain> {
    var drained :- router.DrainReady(StationIdOf(sim.room.id), sim.room.station.tick);
    var room := sim.room.(readyEvents := drained.ready);
    var counted := sim.stats.(eventsDrained := SatAdd(sim.stats.eventsDrained, |drained.ready|));
    if drained.ready == [] then Some(EventDrain(Sim(room, counted), drained.router))
    else if room.players == [] then None
    else
      var handle := room.players[0].handle;
      var now := room.station.tick;
      var components :- room.components.SetBlob(STATE_DESCRIPTOR, handle, now, State(now));
      Some(EventDrain(
        Sim(room.(components := components, dirtyHandles := room.dirtyHandles + [handle]),
            counted.(componentUpdates := SatAdd(counted.componentUpdates, 1))),
        drained.router))
  }

  // ----- replication -----

  /** `dirty_generations` after the first `n` dirty handles were entered: reset, grown where an
      index lies beyond it, and holding the last generation written per index. */
  function PreparedUpTo(size: nat, dirty: seq<EntityHandle>, n: nat): seq<nat>
    requires n <= |dirty|
  {
    if n == 0 then seq(size, _ => U32_MAX)
    else
      var before := PreparedUpTo(size, dirty, n - 1);
      var handle := dirty[n - 1];
      var grown :=
        if |before| <= handle.index then before + seq(handle.index + 1 - |before|, _ => U32_MAX)
        else before;
      grown[handle.index := handle.generation]
  }

  function PrepareDirtyGenerations(room: RoomState): RoomState {
    room.(dirtyGenerations :=
      PreparedUpTo(|room.dirtyGenerations|, room.dirtyHandles, |room.dirtyHandles|))
  }

  /** The planner's eligibility test: an array lookup instead of a search in the list. */
  predicate DirtyLookup(generations: seq<nat>, handle: EntityHandle) {
    handle.index < |generations| && generations[handle.index] == handle.generation
  }

  /** Handles that the spatial index reports for a viewer: any sequence without repetitions. */
  type Query = handles: seq<EntityHandle> | Distinct(handles)

  /** The index always finds the viewer's own entity. */
  function Candidates(query: Query, own: EntityHandle): (candidates: Query)
    ensures own in candidates
  {
    if own in query then query else [own] + query
  }

  predicate Eligible(room: RoomState, handle: EntityHandle) {
    room.station.IsLive(handle) && DirtyLookup(room.dirtyGenerations, handle)
  }

  /** The plan after the first `n` candidates: those eligible, until the plan is full. */
  function PlanUpTo(room: RoomState, candidates: seq<EntityHandle>, n: nat): seq<EntityHandle>
    requires n <= |candidates|
  {
    if n == 0 then []
    else
      var before := PlanUpTo(room, candidates, n - 1);
      if |before| < PLAN_LIMIT && Eligible(room, candidates[n - 1]) then before + [candidates[n - 1]]
      else before
  }

  function PlanFor(room: RoomState, player: nat, query: Query): seq<EntityHandle>
    requires player < |room.players|
  {
    var candidates := Candidates(query, room.players[player].handle);
    PlanUpTo(room, candidates, |candidates|)
  }

  /** The plans of the first `n` viewers. */
  function PlansUpTo(room: RoomState, queries: nat -> Query, n: nat): (plans: seq<seq<EntityHandle>>)
    requires n <= |room.players|
    ensures |plans| == n
  {
    if n == 0 then [] else PlansUpTo(room, queries, n - 1) + [PlanFor(room, n - 1, queries(n - 1))]
  }

  /** Entities selected by the first `n` plans. */
  function SelectedUpTo(plans: seq<seq<EntityHandle>>, n: nat): word
    requires n <= |plans|
  {
    if n == 0 then 0 else SatAdd(SelectedUpTo(plans, n - 1), |plans[n - 1]|)
  }

  function EncodeCounted(stats: Stats, frame: Frame): Stats {
    stats.(encodedEntities := SatAdd(stats.encodedEntities, frame.Entities()),
           encodedComponents := SatAdd(stats.encodedComponents, frame.components),
           skippedEntities := SatAdd(stats.skippedEntities, frame.skipped))
  }

  /** Encodes one plan, sends the frame, and records and acknowledges what was sent. */
  function SendPlan(sim: Sim, player: nat, plan: seq<EntityHandle>): Option<Sim>
    requires player < |sim.room.players|
  {
    var room := sim.room;
    var client := room.players[player].client;
    var frame := Encode(room.station, room.components, plan, Transport.MAX_PACKET_BYTES);
    var stats := EncodeCounted(sim.stats, frame);
    if frame.bytes > Transport.MAX_PACKET_BYTES then
      Some(Sim(room, stats.(packetOversize := SatAdd(stats.packetOversize, 1))))
    else
      var hub :- room.hub.Send(ServerClientId(room.id), client, frame.bytes);
      var tracker :- room.tracker.RecordPlanSent(client, plan);
      Some(Sim(
        room.(hub := hub, tracker := tracker.AcknowledgePlan(client, plan)),
        stats.(packetsSent := SatAdd(stats.packetsSent, 1),
               encodedBytes := SatAdd(stats.encodedBytes, frame.bytes))))
  }

  function SendPlansUpTo(sim: Sim, plans: seq<seq<EntityHandle>>, n: nat): (sent: Option<Sim>)
    requires n <= |sim.room.players| && n <= |plans|
    ensures sent.Some? ==>
              sent.value.room == sim.room.(hub := sent.value.room.hub, tracker := sent.value.room.tracker)
  {
    if n == 0 then Some(sim)
    else
      var before :- SendPlansUpTo(sim, plans, n - 1);
      SendPlan(before, n - 1, plans[n - 1])
  }

  /** Receives until the player's queue is empty. */
  function ReceiveAll(sim: Sim, client: nat): (received: Option<Sim>)
    ensures received.Some? ==> received.value.room == sim.room.(hub := received.value.room.hub)
    decreases sim.room.hub.QueueLength(client)
  {
    var received :- sim.room.hub.TryRecv(client);
    match received.packet
    case None => Some(sim)
    case Some(bytes) =>
      ReceiveAll(
        Sim(
          sim.room.(hub := received.hub),
          sim.stats.(packetsReceived := SatAdd(sim.stats.packetsReceived, 1),
                     decodedBytes := SatAdd(sim.stats.decodedBytes, bytes))),
        client)
  }

  function ReceiveUpTo(sim: Sim, n: nat): (received: Option<Sim>)
    requires n <= |sim.room.players|
    ensures received.Some? ==> received.value.room == sim.room.(hub := received.value.room.hub)
  {
    if n == 0 then Some(sim)
    else
      var before :- ReceiveUpTo(sim, n - 1);
      ReceiveAll(before, sim.room.players[n - 1].client)
  }

  predicate ViewersResolve(room: RoomState) {
    forall i | 0 <= i < |room.players| :: room.station.IsLive(room.players[i].handle)
  }

  function ClearUpTo(components: ComponentStore, handles: seq<EntityHandle>, n: nat): ComponentStore
    requires n <= |handles|
  {
    if n == 0 then components
    else ClearUpTo(components, handles, n - 1).ClearDirtyForEntity(handles[n - 1])
  }

  /** The room as its plans are made from it, and the plans, counted. */
  function Planned(sim: Sim, queries: nat -> Query): (planned: (Sim, seq<seq<EntityHandle>>))
    ensures |planned.1| == |planned.0.room.players| == |sim.room.players|
  {
    var room := PrepareDirtyGenerations(sim.room);
    var plans := PlansUpTo(room, queries, |room.players|);
    (Sim(room, sim.stats.(
       viewerPlans := SatAdd(sim.stats.viewerPlans, |plans|),
       selectedEntities := SatAdd(sim.stats.selectedEntities, SelectedUpTo(plans, |plans|)))),
     plans)
  }

  /** Plans, sends and receives one frame per player, then clears what was dirty. `queries` gives
      what the spatial index reports to each viewer. */
  function ReplicateRoom(sim: Sim, queries: nat -> Query): Option<Sim> {
    if !ViewersResolve(sim.room) then None
    else
      var (prepared, plans) := Planned(sim, queries);
      var sent :- SendPlansUpTo(prepared, plans, |plans|);
      var received :- ReceiveUpTo(sent, |sent.room.players|);
      var room := received.room;
      Some(received.(room := room.(
        components := ClearUpTo(room.components, room.dirtyHandles, |room.dirtyHandles|),
        dirtyHandles := [])))
  }
}
