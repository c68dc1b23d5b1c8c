/** The room and the counters as the program holds them, updated in place. Every method is
    specified by the step function of the same name. */
module GameplayRoom {
  import opened MachineInts
  import opened Options
  import opened StationTable
  import opened Components
  import opened GatewaySessions
  import opened FrameEncoding
  import opened ReplicationTracking
  import opened RoomSpec
  import opened GameplaySpec
  import Commands = CommandQueues
  import Transport = TransportHub
  import Events = EventRouter

  class Counters {
    var ticksCompleted: word
    var roomsCreated: word
    var roomsDestroyed: word
    var endpointsUnregistered: word
    var teardownQueuedPackets: word
    var teardownQueuedEvents: word
    var commandsAdmitted: word
    var commandsApplied: word
    var eventsRouted: word
    var eventsDrained: word
    var entitiesSpawned: word
    var entitiesDespawned: word
    var movementUpdates: word
    var componentUpdates: word
    var viewerPlans: word
    var selectedEntities: word
    var encodedEntities: word
    var encodedComponents: word
    var skippedEntities: word
    var packetsSent: word
    var packetsReceived: word
    var encodedBytes: word
    var decodedBytes: word
    var packetOversize: word

    function Value(): Stats
      reads this
    {
      Stats(
        ticksCompleted, roomsCreated, roomsDestroyed, endpointsUnregistered, teardownQueuedPackets,
        teardownQueuedEvents, commandsAdmitted, commandsApplied, eventsRouted, eventsDrained,
        entitiesSpawned, entitiesDespawned, movementUpdates, componentUpdates, viewerPlans,
        selectedEntities, encodedEntities, encodedComponents, skippedEntities, packetsSent,
        packetsReceived, encodedBytes, decodedBytes, packetOversize)
    }

    constructor ()
      ensures Value() == NO_STATS
    {
      ticksCompleted, roomsCreated, roomsDestroyed, endpointsUnregistered := 0, 0, 0, 0;
      teardownQueuedPackets, teardownQueuedEvents, commandsAdmitted, commandsApplied := 0, 0, 0, 0;
      eventsRouted, eventsDrained, entitiesSpawned, entitiesDespawned := 0, 0, 0, 0;
      movementUpdates, componentUpdates, viewerPlans := 0, 0, 0;
      selectedEntities, encodedEntities, encodedComponents, skippedEntities := 0, 0, 0, 0;
      packetsSent, packetsReceived, encodedBytes, decodedBytes, packetOversize := 0, 0, 0, 0, 0;
    }

    method CountTick()
      modifies `ticksCompleted
      ensures Value() == old(Value()).(ticksCompleted := SatAdd(old(Value()).ticksCompleted, 1))
    {
      ticksCompleted := SatAdd(ticksCompleted, 1);
    }

    method CountPlans(plans: nat, selected: word)
      modifies `viewerPlans, `selectedEntities
      ensures Value() == old(Value()).(
                viewerPlans := SatAdd(old(Value()).viewerPlans, plans),
                selectedEntities := SatAdd(old(Value()).selectedEntities, selected))
    {
      viewerPlans := SatAdd(viewerPlans, plans);
      selectedEntities := SatAdd(selectedEntities, selected);
    }

    method CountFrame(frame: Frame)
      modifies this
      ensures Value() == EncodeCounted(old(Value()), frame)
    {
      encodedEntities := SatAdd(encodedEntities, frame.Entities());
      encodedComponents := SatAdd(encodedComponents, frame.components);
      skippedEntities := SatAdd(skippedEntities, frame.skipped);
    }

    method CountSent(bytes: nat)
      modifies `packetsSent, `encodedBytes
      ensures Value() == old(Value()).(
                packetsSent := SatAdd(old(Value()).packetsSent, 1),
                encodedBytes := SatAdd(old(Value()).encodedBytes, bytes))
    {
      packetsSent := SatAdd(packetsSent, 1);
      encodedBytes := SatAdd(encodedBytes, bytes);
    }

    method CountReceived(bytes: nat)
      modifies `packetsReceived, `decodedBytes
      ensures Value() == old(Value()).(
                packetsReceived := SatAdd(old(Value()).packetsReceived, 1),
                decodedBytes := SatAdd(old(Value()).decodedBytes, bytes))
    {
      packetsReceived := SatAdd(packetsReceived, 1);
      decodedBytes := SatAdd(decodedBytes, bytes);
    }

    method CountApplied()
      modifies `commandsApplied
      ensures Value() == old(Value()).(commandsApplied := SatAdd(old(Value()).commandsApplied, 1))
    {
      commandsApplied := SatAdd(commandsApplied, 1);
    }

    method CountRecreated()
      modifies `roomsDestroyed, `roomsCreated
      ensures Value() == old(Value()).(
                roomsDestroyed := SatAdd(old(Value()).roomsDestroyed, 1),
                roomsCreated := SatAdd(old(Value()).roomsCreated, 1))
    {
      roomsDestroyed := SatAdd(roomsDestroyed, 1);
      roomsCreated := SatAdd(roomsCreated, 1);
    }

    method CountSpawned()
      modifies `entitiesSpawned
      ensures Value() == old(Value()).(entitiesSpawned := SatAdd(old(Value()).entitiesSpawned, 1))
    {
      entitiesSpawned := SatAdd(entitiesSpawned, 1);
    }

    method CountDespawned()
      modifies `entitiesDespawned
      ensures Value() == old(Value()).(entitiesDespawned := SatAdd(old(Value()).entitiesDespawned, 1))
    {
      entitiesDespawned := SatAdd(entitiesDespawned, 1);
    }

    method CountDrained(drained: nat)
      modifies `eventsDrained, `componentUpdates
      ensures Value() == old(Value()).(
                eventsDrained := SatAdd(old(Value()).eventsDrained, drained),
                componentUpdates :=
                  if drained == 0 then old(Value()).componentUpdates else SatAdd(old(Value()).componentUpdates, 1))
    {
      if drained != 0 {
        componentUpdates := SatAdd(componentUpdates, 1);
      }
      eventsDrained := SatAdd(eventsDrained, drained);
    }

    method CountMove()
      modifies `movementUpdates, `componentUpdates
      ensures Value() == old(Value()).(
                movementUpdates := SatAdd(old(Value()).movementUpdates, 1),
                componentUpdates := SatAdd(old(Value()).componentUpdates, 1))
    {
      movementUpdates := SatAdd(movementUpdates, 1);
      componentUpdates := SatAdd(componentUpdates, 1);
    }
  }

  // A prefix of a loop that succeeds as a whole succeeds.

  lemma {:induction false} PopulatePrefix(id: nat, entitiesPerRoom: nat, m: nat, n: nat)
    requires m <= n && PopulateUpTo(id, entitiesPerRoom, n).Some?
    ensures PopulateUpTo(id, entitiesPerRoom, m).Some?
    decreases n
  {
    hide PopulateOne;
    if m < n {
      PopulatePrefix(id, entitiesPerRoom, m, n - 1);
    }
  }

  lemma {:induction false} AdmitPrefix(sim: Sim, tickIndex: nat, m: nat, n: nat)
    requires m <= n <= |sim.room.players| && AdmitUpTo(sim, tickIndex, n).Some?
    ensures AdmitUpTo(sim, tickIndex, m).Some?
    decreases n
  {
    hide AdmitOne;
    if m < n {
      AdmitPrefix(sim, tickIndex, m, n - 1);
    }
  }

  /** The state after the first `n` of a tick's admissions, which all succeed. */
  ghost predicate AdmittedSoFar(start: Sim, tickIndex: nat, n: nat, now: Sim) {
    && n <= |start.room.players| == |now.room.players|
    && AdmitUpTo(start, tickIndex, |start.room.players|).Some?
    && AdmitUpTo(start, tickIndex, n) == Some(now)
  }

  lemma AdmitStep(start: Sim, tickIndex: nat, n: nat, now: Sim)
    requires AdmittedSoFar(start, tickIndex, n, now) && n < |start.room.players|
    ensures n < |now.room.players| && RoomSpec.AdmitOne(now, tickIndex, n).Some?
    ensures AdmittedSoFar(start, tickIndex, n + 1, RoomSpec.AdmitOne(now, tickIndex, n).value)
  {
    AdmitPrefix(start, tickIndex, n + 1, |start.room.players|);
  }

  lemma AllAdmitted(start: Sim, tickIndex: nat, now: Sim)
    requires AdmittedSoFar(start, tickIndex, |start.room.players|, now)
    ensures AdmitUpTo(start, tickIndex, |start.room.players|) == Some(now)
  {
  }

  lemma {:induction false} NpcsPrefix(sim: Sim, tickIndex: nat, m: nat, n: nat)
    requires m <= n && UpdateNpcsUpTo(sim, tickIndex, n).Some?
    ensures UpdateNpcsUpTo(sim, tickIndex, m).Some?
    decreases n
  {
    hide UpdateNpc;
    if m < n {
      NpcsPrefix(sim, tickIndex, m, n - 1);
    }
  }

  lemma NpcsStep(sim: Sim, tickIndex: nat, m: nat, n: nat)
    requires m < n && UpdateNpcsUpTo(sim, tickIndex, n).Some?
    ensures var before := UpdateNpcsUpTo(sim, tickIndex, m);
            && before.Some? && UpdateNpcsUpTo(sim, tickIndex, m + 1).Some?
            && UpdateNpcsUpTo(sim, tickIndex, m + 1) == RoomSpec.UpdateNpc(before.value, tickIndex, m)
  {
    hide UpdateNpc;
    NpcsPrefix(sim, tickIndex, m + 1, n);
  }

  lemma {:induction false} SpawnPrefix(sim: Sim, m: nat, n: nat)
    requires m <= n && SpawnProjectilesUpTo(sim, n).Some?
    ensures SpawnProjectilesUpTo(sim, m).Some?
    decreases n
  {
    hide SpawnProjectile;
    if m < n {
      SpawnPrefix(sim, m, n - 1);
    }
  }

  lemma {:induction false} UnregisterPrefix(room: RoomState, stats: Stats, m: nat, n: nat)
    requires m <= n <= |EndpointIds(room)| && UnregisterUpTo(room, stats, n).Some?
    ensures UnregisterUpTo(room, stats, m).Some?
    decreases n
  {
    if m < n {
      UnregisterPrefix(room, stats, m, n - 1);
    }
  }

  lemma {:induction false} SendPrefix(sim: Sim, plans: seq<seq<EntityHandle>>, m: nat, n: nat)
    requires m <= n <= |sim.room.players| && n <= |plans| && SendPlansUpTo(sim, plans, n).Some?
    ensures SendPlansUpTo(sim, plans, m).Some?
    decreases n
  {
    hide SendPlan;
    if m < n {
      SendPrefix(sim, plans, m, n - 1);
    }
  }

  /** The state after the first `n` sends that all succeed. */
  ghost predicate SentSoFar(start: Sim, plans: seq<seq<EntityHandle>>, n: nat, now: Sim) {
    && n <= |plans| == |start.room.players| == |now.room.players|
    && SendPlansUpTo(start, plans, |plans|).Some?
    && SendPlansUpTo(start, plans, n) == Some(now)
  }

  lemma SendStep(start: Sim, plans: seq<seq<EntityHandle>>, n: nat, now: Sim)
    requires SentSoFar(start, plans, n, now) && n < |plans|
    ensures RoomSpec.SendPlan(now, n, plans[n]).Some?
    ensures SentSoFar(start, plans, n + 1, RoomSpec.SendPlan(now, n, plans[n]).value)
  {
    hide RoomSpec.SendPlan;
    SendPrefix(start, plans, n + 1, |plans|);
  }

  lemma AllSent(start: Sim, plans: seq<seq<EntityHandle>>, now: Sim)
    requires SentSoFar(start, plans, |plans|, now)
    ensures |plans| <= |start.room.players| && SendPlansUpTo(start, plans, |plans|) == Some(now)
  {
  }

  lemma {:induction false} ReceivePrefix(sim: Sim, m: nat, n: nat)
    requires m <= n <= |sim.room.players| && ReceiveUpTo(sim, n).Some?
    ensures ReceiveUpTo(sim, m).Some?
    decreases n
  {
    hide ReceiveAll;
    if m < n {
      ReceivePrefix(sim, m, n - 1);
    }
  }

  /** The state after one packet was taken. */
  ghost function Received(sim: Sim, received: Transport.Received): Sim
    requires received.packet.Some?
  {
    Sim(
      sim.room.(hub := received.hub),
      sim.stats.(packetsReceived := SatAdd(sim.stats.packetsReceived, 1),
                 decodedBytes := SatAdd(sim.stats.decodedBytes, received.packet.value)))
  }

  lemma ReceiveStep(sim: Sim, client: nat)
    requires ReceiveAll(sim, client).Some?
    ensures var received := sim.room.hub.TryRecv(client);
            && received.Some?
            && ReceiveAll(sim, client)
               == if received.value.packet.None? then Some(sim)
                  else ReceiveAll(Received(sim, received.value), client)
    ensures var received := sim.room.hub.TryRecv(client).value;
            received.packet.Some? ==> Received(sim, received).room.hub == received.hub
  {
  }

  lemma {:induction false} SelectedDepends(plans: seq<seq<EntityHandle>>, more: seq<seq<EntityHandle>>, n: nat)
    requires n <= |plans| && plans <= more
    ensures SelectedUpTo(plans, n) == SelectedUpTo(more, n)
  {
    if n > 0 {
      SelectedDepends(plans, more, n - 1);
    }
  }

  lemma SelectedAppend(plans: seq<seq<EntityHandle>>, plan: seq<EntityHandle>)
    ensures SelectedUpTo(plans + [plan], |plans| + 1) == SatAdd(SelectedUpTo(plans, |plans|), |plan|)
  {
    SelectedDepends(plans, plans + [plan], |plans|);
  }

  class Room {
    const id: nat
    const kind: RoomClass
    var station: Station
    var index: map<EntityHandle, Position>
    var components: ComponentStore
    var entities: seq<EntityHandle>
    var players: seq<Player>
    var projectiles: seq<Projectile>
    var nextEntityLocal: nat
    var gateway: Gateway
    var commands: Commands.Queues
    var tracker: Tracker
    var hub: Transport.Hub
    var dirtyHandles: seq<EntityHandle>
    var dirtyGenerations: seq<nat>
    var readyEvents: seq<Events.Event>

    /** The class stored in the room is the one of its number. */
    ghost predicate Valid() { kind == ClassOf(id) }

    function State(): RoomState
      reads this
    {
      RoomState(
        id, station, index, components, entities, players, projectiles, nextEntityLocal, gateway,
        commands, tracker, hub, dirtyHandles, dirtyGenerations, readyEvents)
    }

    ghost function Now(stats: Counters): Sim
      reads this, stats
    {
      Sim(State(), stats.Value())
    }

    constructor (room: nat, entitiesPerRoom: nat)
      requires CreateRoom(room, entitiesPerRoom).Some?
      ensures Valid() && id == room
      ensures CreateRoom(room, entitiesPerRoom) == Some(State())
    {
      id, kind := room, ClassOf(room);
      station, index := StationTable.EMPTY, map[];
      components := ComponentStore({}, map[])
        .ReserveComponent(TRANSFORM).ReserveComponent(STATE).ReserveComponent(INVENTORY);
      entities, players, projectiles, nextEntityLocal := [], [], [], entitiesPerRoom;
      gateway := Gateway(PlayerCount(room), 4, map[]);
      commands := Commands.EMPTY;
      tracker := Tracker(
        SatMul(PlayerCount(room), SatAdd(Capacity(entitiesPerRoom), TRACKER_SPARE)), {}, 0, 0);
      hub := Transport.EMPTY.Register(ServerClientId(room), BenchmarkPort(room, MAX_PLAYERS));
      dirtyHandles, dirtyGenerations := [], seq(Capacity(entitiesPerRoom), _ => U32_MAX);
      readyEvents := [];
      new;
      assert State() == EmptyRoom(room, entitiesPerRoom);
      hide RoomSpec.PopulateUpTo, EmptyRoom;
      Populate(entitiesPerRoom);
      dirtyHandles := entities;
    }

    method Populate(entitiesPerRoom: nat)
      requires State() == EmptyRoom(id, entitiesPerRoom)
      requires PopulateUpTo(id, entitiesPerRoom, entitiesPerRoom).Some?
      modifies this
      ensures PopulateUpTo(id, entitiesPerRoom, entitiesPerRoom) == Some(State())
    {
      hide RoomSpec.PopulateOne, EmptyRoom;
      PopulatePrefix(id, entitiesPerRoom, 0, entitiesPerRoom);
      for local := 0 to entitiesPerRoom
        invariant PopulateUpTo(id, entitiesPerRoom, local) == Some(State())
      {
        PopulatePrefix(id, entitiesPerRoom, local + 1, entitiesPerRoom);
        PopulateOne(local);
      }
    }

    method PopulateOne(local: nat)
      requires RoomSpec.PopulateOne(State(), local).Some?
      modifies this
      ensures RoomSpec.PopulateOne(old(State()), local) == Some(State())
    {
      hide RoomSpec.SpawnEntity, RoomSpec.ConnectPlayer;
      var handle := SpawnEntity(local, EntityPosition(id, local));
      entities := entities + [handle];
      if local < PlayerCount(id) {
        ConnectPlayer(local, handle);
      }
    }

    method SpawnEntity(local: nat, position: Position) returns (handle: EntityHandle)
      requires RoomSpec.SpawnEntity(State(), local, position).Some?
      modifies this
      ensures RoomSpec.SpawnEntity(old(State()), local, position) == Some((State(), handle))
    {
      var spawned := station.SpawnOwned(RoomEntityId(id, local), position).value;
      station, handle := spawned.station, spawned.handle;
      index := index[handle := position];
      components := components.SetBlob(TRANSFORM_DESCRIPTOR, handle, station.tick, Transform(position)).value;
      components := components.SetBlob(STATE_DESCRIPTOR, handle, station.tick, Payload.State(local)).value;
    }

    method ConnectPlayer(local: nat, handle: EntityHandle)
      requires RoomSpec.ConnectPlayer(State(), local, handle).Some?
      modifies this
      ensures RoomSpec.ConnectPlayer(old(State()), local, handle) == Some(State())
    {
      components := components.SetBlob(INVENTORY_DESCRIPTOR, handle, 0, Inventory).value;
      var client := RoomClientId(id, local);
      gateway := gateway.Connect(client, 0).value;
      hub := hub.Register(client, BenchmarkPort(id, local));
      players := players + [Player(client, RoomEntityId(id, local), handle)];
    }

    /** Drops the room's router queue and endpoints; the room itself is discarded afterwards. */
    method Teardown(router: Events.Router, stats: Counters) returns (after: Events.Router)
      requires TeardownRoom(State(), router, stats.Value()).Some?
      modifies `hub, stats
      ensures TeardownRoom(old(State()), router, old(stats.Value())) == Some(Torn(after, stats.Value()))
    {
      hide UnregisterUpTo;
      var dropped := router.UnregisterStation(StationIdOf(id)).value;
      after := dropped.router;
      stats.teardownQueuedEvents := SatAdd(stats.teardownQueuedEvents, dropped.queued);
      ReleaseEndpoints(stats);
    }

    method ReleaseEndpoints(stats: Counters)
      requires UnregisterUpTo(State(), stats.Value(), |EndpointIds(State())|).Some?
      modifies `hub, stats
      ensures UnregisterUpTo(old(State()), old(stats.Value()), |EndpointIds(old(State()))|)
              == Some(RoomSpec.Teardown(hub, stats.Value()))
    {
      ghost var room, start := State(), stats.Value();
      var endpoints := EndpointIds(State());
      hide EndpointIds;
      UnregisterPrefix(room, start, 0, |endpoints|);
      for i := 0 to |endpoints|
        invariant UnregisterUpTo(room, start, i) == Some(RoomSpec.Teardown(hub, stats.Value()))
      {
        UnregisterPrefix(room, start, i + 1, |endpoints|);
        ReleaseEndpoint(endpoints[i], stats);
      }
    }

    method ReleaseEndpoint(client: nat, stats: Counters)
      requires hub.Unregister(client).Some?
      modifies `hub, stats
      ensures hub == old(hub).Unregister(client).value.hub
      ensures stats.Value() == old(stats.Value()).(
                endpointsUnregistered := SatAdd(old(stats.endpointsUnregistered), 1),
                teardownQueuedPackets := SatAdd(
                  old(stats.teardownQueuedPackets), old(hub).Unregister(client).value.queuedPackets))
    {
      var released := hub.Unregister(client).value;
      hub := released.hub;
      stats.endpointsUnregistered := SatAdd(stats.endpointsUnregistered, 1);
      stats.teardownQueuedPackets := SatAdd(stats.teardownQueuedPackets, released.queuedPackets);
    }

    method AdvanceTick()
      modifies `station
      ensures State() == AdvanceRoom(old(State()))
    {
      station := station.AdvanceTick();
    }

    method MoveEntity(handle: EntityHandle, position: Position, stats: Counters)
      requires RoomSpec.MoveEntity(Now(stats), handle, position).Some?
      modifies `station, `index, `components, `dirtyHandles, stats
      ensures RoomSpec.MoveEntity(old(Now(stats)), handle, position) == Some(Now(stats))
    {
      hide Station.Get, ComponentStore.SetBlob;
      station := station.MoveOwned(handle, position).value;
      index := index[handle := position];
      components := components.SetBlob(TRANSFORM_DESCRIPTOR, handle, station.tick, Transform(position)).value;
      dirtyHandles := dirtyHandles + [handle];
      stats.CountMove();
    }

    method AdmitNext(ghost start: Sim, tickIndex: nat, player: nat, stats: Counters)
      requires player < |players| == |start.room.players|
      requires AdmittedSoFar(start, tickIndex, player, Now(stats))
      modifies `gateway, `commands, stats
      ensures AdmittedSoFar(start, tickIndex, player + 1, Now(stats))
    {
      AdmitStep(start, tickIndex, player, Now(stats));
      hide RoomSpec.AdmitOne, AdmittedSoFar;
      AdmitOne(tickIndex, player, stats);
    }

    method AdmitCommands(tickIndex: nat, stats: Counters)
      requires AdmitUpTo(Now(stats), tickIndex, |players|).Some?
      modifies `gateway, `commands, stats
      ensures AdmitUpTo(old(Now(stats)), tickIndex, old(|players|)) == Some(Now(stats))
    {
      ghost var start := Now(stats);
      var count := |players|;
      assert AdmittedSoFar(start, tickIndex, 0, Now(stats));
      hide AdmittedSoFar, AdmitUpTo, RoomSpec.AdmitOne;
      for player := 0 to count
        invariant AdmittedSoFar(start, tickIndex, player, Now(stats))
      {
        AdmitNext(start, tickIndex, player, stats);
      }
      AllAdmitted(start, tickIndex, Now(stats));
    }

    method AdmitOne(tickIndex: nat, player: nat, stats: Counters)
      requires player < |players| && RoomSpec.AdmitOne(Now(stats), tickIndex, player).Some?
      modifies `gateway, `commands, stats
      ensures RoomSpec.AdmitOne(old(Now(stats)), tickIndex, player) == Some(Now(stats))
    {
      hide Gateway.AdmitSequence, Commands.Queues.Push;
      var sequence := CommandSequence(tickIndex, player);
      gateway := gateway.AdmitSequence(players[player].client, sequence, station.tick).value;
      commands := commands.Push(Commands.Command(
        players[player].client, players[player].entity, sequence, station.tick,
        if player == 0 then Commands.High else Commands.Normal)).value;
      stats.commandsAdmitted := SatAdd(stats.commandsAdmitted, 1);
    }

    method ApplyCommands(stats: Counters)
      requires ApplyAll(Now(stats)).Some?
      modifies this, stats
      ensures ApplyAll(old(Now(stats))) == Some(Now(stats))
    {
      hide RoomSpec.ApplyCommand;
      var popped := commands.PopNext();
      while popped.Some?
        invariant ApplyAll(Now(stats)) == ApplyAll(old(Now(stats)))
        invariant popped == commands.PopNext()
        decreases commands.Length()
      {
        commands := popped.value.rest;
        ApplyCommand(popped.value.command, stats);
        popped := commands.PopNext();
      }
    }

    method ApplyCommand(command: Commands.Command, stats: Counters)
      requires RoomSpec.ApplyCommand(Now(stats), command).Some?
      modifies `station, `index, `components, `dirtyHandles, stats
      ensures RoomSpec.ApplyCommand(old(Now(stats)), command) == Some(Now(stats))
    {
      hide RoomSpec.MoveEntity, MovedPosition, Counters.Value;
      var handle := station.byId[command.entity];
      var current := station.Get(handle).value.position;
      MoveEntity(handle, MovedPosition(current, command.sequence), stats);
      stats.CountApplied();
    }

    /** Every player of a due room issues one command; then all queued commands are applied. */
    method EnqueueAndApplyCommands(tickIndex: nat, stats: Counters)
      requires Valid() && RoomSpec.EnqueueAndApplyCommands(Now(stats), tickIndex).Some?
      modifies this, stats
      ensures RoomSpec.EnqueueAndApplyCommands(old(Now(stats)), tickIndex) == Some(Now(stats))
    {
      if tickIndex % kind.CommandInterval() != 0 {
        return;
      }
      AdmitCommands(tickIndex, stats);
      ApplyCommands(stats);
    }

    method UpdateNpcs(tickIndex: nat, stats: Counters)
      requires Valid() && RoomSpec.UpdateNpcs(Now(stats), tickIndex).Some?
      modifies this, stats
      ensures RoomSpec.UpdateNpcs(old(Now(stats)), tickIndex) == Some(Now(stats))
    {
      ghost var start := Now(stats);
      var npcStart := |players|;
      var npcCount := SatSub(|entities|, npcStart);
      var updates := Min(kind.NpcUpdates(), npcCount);
      assert UpdateNpcsUpTo(start, tickIndex, 0) == Some(start);
      hide RoomSpec.UpdateNpc, UpdateNpcsUpTo;
      for offset := 0 to updates
        invariant players == start.room.players && entities == start.room.entities
        invariant UpdateNpcsUpTo(start, tickIndex, offset) == Some(Now(stats))
      {
        NpcsStep(start, tickIndex, offset, updates);
        UpdateNpc(npcStart + (SatMul(tickIndex, 17) + offset) % Max(npcCount, 1), tickIndex, offset, stats);
      }
    }

    method UpdateNpc(i: nat, tickIndex: nat, offset: nat, stats: Counters)
      requires i == NpcIndex(State(), tickIndex, offset)
      requires RoomSpec.UpdateNpc(Now(stats), tickIndex, offset).Some?
      modifies this, stats
      ensures RoomSpec.UpdateNpc(old(Now(stats)), tickIndex, offset) == Some(Now(stats))
      ensures players == old(players) && entities == old(entities)
    {
      hide MovedPosition, NpcIndex;
      var handle := entities[i];
      var current := station.Get(handle);
      if current.Some? {
        MoveEntity(handle, MovedPosition(current.value.position, tickIndex + offset), stats);
      }
    }

    method ExpireProjectiles(stats: Counters)
      modifies this, stats
      ensures RoomSpec.ExpireProjectiles(old(Now(stats))) == Now(stats)
    {
      hide RoomSpec.PopProjectile;
      while projectiles != [] && projectiles[0].expiresAt <= station.tick
        invariant RoomSpec.ExpireProjectiles(Now(stats)) == RoomSpec.ExpireProjectiles(old(Now(stats)))
        decreases |projectiles|
      {
        PopProjectile(stats);
      }
    }

    method PopProjectile(stats: Counters)
      requires projectiles != []
      modifies this, stats
      ensures RoomSpec.PopProjectile(old(Now(stats))) == Now(stats) && projectiles == old(projectiles)[1..]
    {
      hide Station.Remove, ComponentStore.ClearEntity, Counters.Value;
      var projectile := projectiles[0];
      projectiles := projectiles[1..];
      var removed := station.Remove(projectile.handle);
      if removed.Some? {
        station := removed.value;
        index := index - {projectile.handle};
        components := components.ClearEntity(projectile.handle);
        stats.CountDespawned();
      }
    }

    /** Removes the expired projectiles and launches this tick's. */
    method UpdateProjectiles(stats: Counters)
      requires Valid() && RoomSpec.UpdateProjectiles(Now(stats)).Some?
      modifies this, stats
      ensures RoomSpec.UpdateProjectiles(old(Now(stats))) == Some(Now(stats))
    {
      hide RoomSpec.SpawnProjectile, RoomSpec.ExpireProjectiles;
      ExpireProjectiles(stats);
      ghost var start := Now(stats);
      var rate := kind.ProjectilesPerTick();
      for offset := 0 to rate
        invariant SpawnProjectilesUpTo(start, offset) == Some(Now(stats))
      {
        SpawnPrefix(start, offset + 1, rate);
        SpawnProjectile(offset, stats);
      }
    }

    method SpawnProjectile(offset: nat, stats: Counters)
      requires RoomSpec.SpawnProjectile(Now(stats), offset).Some?
      modifies this, stats
      ensures RoomSpec.SpawnProjectile(old(Now(stats)), offset) == Some(Now(stats))
    {
      hide RoomSpec.SpawnEntity, Counters.Value;
      var now := station.tick;
      var local := nextEntityLocal;
      nextEntityLocal := SatAdd(local, 1);
      var handle := SpawnEntity(local, EntityPosition(id, SatAdd(local, offset)));
      projectiles := projectiles + [Projectile(handle, SatAdd(now, PROJECTILE_TICKS))];
      dirtyHandles := dirtyHandles + [handle];
      stats.CountSpawned();
    }

    method RouteGameplayEvent(tickIndex: nat, router: Events.Router, stats: Counters)
      returns (after: Events.Router)
      requires Valid() && RoomSpec.RouteGameplayEvent(State(), tickIndex, router, stats.Value()).Some?
      modifies stats
      ensures RoomSpec.RouteGameplayEvent(State(), tickIndex, router, old(stats.Value()))
              == Some(Routed(after, stats.Value()))
    {
      if kind == Idle || tickIndex % 5 != 0 {
        return router;
      }
      after := router.Route(Events.Event(EventId(id, tickIndex), StationIdOf(id), station.tick)).value;
      stats.eventsRouted := SatAdd(stats.eventsRouted, 1);
    }

    method DrainGameplayEvents(router: Events.Router, stats: Counters) returns (after: Events.Router)
      requires RoomSpec.DrainGameplayEvents(Now(stats), router).Some?
      modifies this, stats
      ensures RoomSpec.DrainGameplayEvents(old(Now(stats)), router) == Some(EventDrain(Now(stats), after))
    {
      hide ComponentStore.SetBlob, Events.Router.DrainReady, Counters.Value;
      var drain := router.DrainReady(StationIdOf(id), station.tick).value;
      after, readyEvents := drain.router, drain.ready;
      var drained := |readyEvents|;
      if drained != 0 {
        var handle := players[0].handle;
        components := components.SetBlob(
          STATE_DESCRIPTOR, handle, station.tick, Payload.State(station.tick)).value;
        dirtyHandles := dirtyHandles + [handle];
      }
      stats.CountDrained(drained);
    }

    /** Resets the lookup array and enters the dirty handles, growing it where needed. */
    method PrepareDirtyGenerations()
      modifies `dirtyGenerations
      ensures State() == RoomSpec.PrepareDirtyGenerations(old(State()))
    {
      var size := |dirtyGenerations|;
      dirtyGenerations := seq(size, _ => U32_MAX);
      for i := 0 to |dirtyHandles|
        invariant dirtyGenerations == PreparedUpTo(size, dirtyHandles, i)
      {
        var handle := dirtyHandles[i];
        if |dirtyGenerations| <= handle.index {
          dirtyGenerations :=
            dirtyGenerations + seq(handle.index + 1 - |dirtyGenerations|, _ => U32_MAX);
        }
        dirtyGenerations := dirtyGenerations[handle.index := handle.generation];
      }
    }

    /** Scans the candidates and picks the eligible ones until the plan is full. */
    method PlanViewer(player: nat, query: Query) returns (plan: seq<EntityHandle>)
      requires player < |players|
      ensures plan == PlanFor(State(), player, query)
    {
      hide Eligible;
      var candidates := Candidates(query, players[player].handle);
      plan := [];
      for i := 0 to |candidates|
        invariant plan == PlanUpTo(State(), candidates, i)
      {
        if |plan| < PLAN_LIMIT && IsEligible(candidates[i]) {
          plan := plan + [candidates[i]];
        }
      }
    }

    predicate IsEligible(handle: EntityHandle)
      reads this
      ensures IsEligible(handle) == Eligible(State(), handle)
    {
      station.Get(handle).Some?
      && handle.index < |dirtyGenerations| && dirtyGenerations[handle.index] == handle.generation
    }

    method PlanViewers(queries: nat -> Query, stats: Counters) returns (plans: seq<seq<EntityHandle>>)
      modifies stats
      ensures plans == PlansUpTo(State(), queries, |players|)
      ensures stats.Value() == old(stats.Value()).(
                viewerPlans := SatAdd(old(stats.viewerPlans), |plans|),
                selectedEntities := SatAdd(old(stats.selectedEntities), SelectedUpTo(plans, |plans|)))
    {
      hide PlanFor;
      plans := [];
      var selected: word := 0;
      for player := 0 to |players|
        invariant plans == PlansUpTo(State(), queries, player)
        invariant selected == SelectedUpTo(plans, player) && unchanged(stats)
      {
        var plan := PlanViewer(player, queries(player));
        SelectedAppend(plans, plan);
        plans := plans + [plan];
        selected := SatAdd(selected, |plan|);
      }
      stats.CountPlans(|plans|, selected);
    }

    /** Collects the dirty components of one entity. */
    method EncodeDelta(handle: EntityHandle) returns (delta: Delta)
      ensures delta == DeltaOf(components, handle)
    {
      delta := Delta(ENTITY_BYTES, []);
      for i := 0 to |SELECTION|
        invariant delta == DeltaUpTo(components, handle, i)
      {
        var key := BlobKey(SELECTION[i], handle);
        if |delta.parts| < MAX_COMPONENTS && key in components.blobs && components.blobs[key].dirty
           && components.blobs[key].payload.Bytes() <= MAX_COMPONENT_BYTES {
          delta := Delta(
            delta.bytes + COMPONENT_BYTES + components.blobs[key].payload.Bytes(),
            delta.parts + [Part(SELECTION[i], components.blobs[key].version, components.blobs[key].payload)]);
        }
      }
    }

    /** Encodes a plan entity by entity, and stops at the first that does not fit. */
    method EncodePlan(plan: seq<EntityHandle>) returns (frame: Frame)
      ensures frame == Encode(station, components, plan, Transport.MAX_PACKET_BYTES)
    {
      hide DeltaOf;
      var maxBytes := Transport.MAX_PACKET_BYTES;
      frame := Frame(HEADER_BYTES, [], 0, 0, false);
      for i := 0 to |plan|
        invariant frame == EncodeUpTo(station, components, plan, maxBytes, i)
      {
        if frame.full || frame.Entities() >= MAX_ENTITY_DELTAS || station.Get(plan[i]).None? {
          continue;
        }
        var delta := EncodeDelta(plan[i]);
        if delta.parts == [] {
          continue;
        }
        if frame.bytes + delta.bytes > maxBytes {
          frame := frame.(skipped := frame.skipped + 1, full := true);
          continue;
        }
        frame := Frame(
          frame.bytes + delta.bytes,
          frame.deltas + [EntityDelta(station.Get(plan[i]).value.id, delta.parts)],
          frame.components + |delta.parts|, frame.skipped, false);
      }
    }

    method SendPlan(player: nat, plan: seq<EntityHandle>, stats: Counters)
      requires player < |players| && RoomSpec.SendPlan(Now(stats), player, plan).Some?
      modifies `hub, `tracker, stats
      ensures RoomSpec.SendPlan(old(Now(stats)), player, plan) == Some(Now(stats))
    {
      hide Encode, EncodeCounted, Tracker.RecordPlanSent, Tracker.AcknowledgePlan, Transport.Hub.Send;
      var client := players[player].client;
      var frame := EncodePlan(plan);
      stats.CountFrame(frame);
      if frame.bytes > Transport.MAX_PACKET_BYTES {
        stats.packetOversize := SatAdd(stats.packetOversize, 1);
        return;
      }
      hub := hub.Send(ServerClientId(id), client, frame.bytes).value;
      tracker := tracker.RecordPlanSent(client, plan).value.AcknowledgePlan(client, plan);
      stats.CountSent(frame.bytes);
    }

    method SendNext(ghost start: Sim, plans: seq<seq<EntityHandle>>, player: nat, stats: Counters)
      requires player < |plans| == |players| && SentSoFar(start, plans, player, Now(stats))
      modifies `hub, `tracker, stats
      ensures SentSoFar(start, plans, player + 1, Now(stats))
    {
      SendStep(start, plans, player, Now(stats));
      hide RoomSpec.SendPlan, SentSoFar;
      SendPlan(player, plans[player], stats);
    }

    method SendPlans(plans: seq<seq<EntityHandle>>, stats: Counters)
      requires |plans| == |players| && SendPlansUpTo(Now(stats), plans, |plans|).Some?
      modifies `hub, `tracker, stats
      ensures SendPlansUpTo(old(Now(stats)), plans, |plans|) == Some(Now(stats))
    {
      ghost var start := Now(stats);
      assert SentSoFar(start, plans, 0, Now(stats));
      hide SentSoFar;
      for player := 0 to |plans|
        invariant SentSoFar(start, plans, player, Now(stats))
      {
        SendNext(start, plans, player, stats);
      }
      AllSent(start, plans, Now(stats));
    }

    method ReceiveFrom(client: nat, stats: Counters)
      requires ReceiveAll(Now(stats), client).Some?
      modifies `hub, stats
      ensures ReceiveAll(old(Now(stats)), client) == Some(Now(stats))
    {
      hide ReceiveAll, Received;
      ReceiveStep(Now(stats), client);
      var received := hub.TryRecv(client).value;
      while received.packet.Some?
        invariant ReceiveAll(Now(stats), client) == ReceiveAll(old(Now(stats)), client)
        invariant hub.TryRecv(client) == Some(received)
        decreases hub.QueueLength(client)
      {
        ReceiveStep(Now(stats), client);
        TakePacket(received, stats);
        received := hub.TryRecv(client).value;
      }
      ReceiveStep(Now(stats), client);
    }

    method TakePacket(received: Transport.Received, stats: Counters)
      requires received.packet.Some?
      modifies `hub, stats
      ensures Now(stats) == Received(old(Now(stats)), received)
    {
      hide Counters.Value;
      hub := received.hub;
      stats.CountReceived(received.packet.value);
    }

    method ReceivePackets(stats: Counters)
      requires ReceiveUpTo(Now(stats), |players|).Some?
      modifies `hub, stats
      ensures ReceiveUpTo(old(Now(stats)), |players|) == Some(Now(stats))
    {
      hide ReceiveAll;
      ghost var start := Now(stats);
      for i := 0 to |players|
        invariant ReceiveUpTo(start, i) == Some(Now(stats))
      {
        ReceivePrefix(start, i + 1, |players|);
        ReceiveFrom(players[i].client, stats);
      }
    }

    /** Clears the listed entities' dirty marks and empties the list. */
    method ClearDirty()
      modifies `components, `dirtyHandles
      ensures State() == old(State()).(
                components := ClearUpTo(old(components), old(dirtyHandles), |old(dirtyHandles)|),
                dirtyHandles := [])
    {
      for i := 0 to |dirtyHandles|
        invariant dirtyHandles == old(dirtyHandles)
        invariant components == ClearUpTo(old(components), dirtyHandles, i)
      {
        components := components.ClearDirtyForEntity(dirtyHandles[i]);
      }
      dirtyHandles := [];
    }

    /** Plans, sends and receives one frame per player, and clears what was dirty. */
    method Replicate(queries: nat -> Query, stats: Counters)
      requires ReplicateRoom(Now(stats), queries).Some?
      modifies this, stats
      ensures ReplicateRoom(old(Now(stats)), queries) == Some(Now(stats))
    {
      hide SendPlansUpTo, ReceiveUpTo, RoomSpec.PrepareDirtyGenerations, ClearUpTo, PlansUpTo;
      PrepareDirtyGenerations();
      var plans := PlanViewers(queries, stats);
      SendPlans(plans, stats);
      ReceivePackets(stats);
      ClearDirty();
    }
  }
}
