/** Creating a room always succeeds under the guarded sizes and yields a room that satisfies
    every invariant; tearing one down releases one endpoint per player and one for the server. */
module RoomCreation {
  import opened MachineInts
  import opened Options
  import opened StationTable
  import opened Components
  import opened GatewaySessions
  import opened ReplicationTracking
  import opened RoomSpec
  import opened RoomAccounts
  import opened RoomInvariants
  import opened RoomSteps
  import opened RoomProjectiles
  import opened RoomReplication
  import Commands = CommandQueues

  /** The largest room number whose ports are valid. */
  const MAX_ROOM: nat := 5_047

  /** Sizes a run of the benchmark may be given: every port fits, every room can hold its
      players, and handles cannot run out. */
  predicate GuardedSizes(rooms: nat, entitiesPerRoom: nat) {
    && 1 <= rooms <= MAX_ROOM + 1
    && MAX_PLAYERS <= entitiesPerRoom <= U32_MAX - SPARE_SLOTS
  }

  lemma PortsDistinct(room: nat, j: nat, k: nat)
    requires room <= MAX_ROOM && j <= MAX_PLAYERS && k <= MAX_PLAYERS
    ensures BenchmarkPort(room, j) <= PORT_MAX
    ensures BenchmarkPort(room, j) == BenchmarkPort(room, k) <==> j == k
  {
  }

  /** Across rooms, ports and entity, client and server ids never collide. */
  lemma IdsInjective(r1: nat, r2: nat, l1: nat, l2: nat, p1: nat, p2: nat)
    requires r1 <= MAX_ROOM && r2 <= MAX_ROOM && l1 < ID_STRIDE && l2 < ID_STRIDE
    requires p1 <= MAX_PLAYERS && p2 <= MAX_PLAYERS
    ensures RoomEntityId(r1, l1) == RoomEntityId(r2, l2) <==> r1 == r2 && l1 == l2
    ensures RoomClientId(r1, p1) == RoomClientId(r2, p2) <==> r1 == r2 && p1 == p2
    ensures ServerClientId(r1) == ServerClientId(r2) <==> r1 == r2
    ensures RoomClientId(r1, p1) != ServerClientId(r2)
    ensures BenchmarkPort(r1, p1) == BenchmarkPort(r2, p2) <==> r1 == r2 && p1 == p2
    ensures EventId(r1, l1) == EventId(r2, l2) <==> r1 == r2 && l1 == l2
  {
  }

  /** The stride does limit the entity ids: beyond a million entities per room they collide. */
  lemma EntityIdsCollideBeyondStride(room: nat)
    requires room < MAX_ROOM
    ensures RoomEntityId(room, ID_STRIDE) == RoomEntityId(room + 1, 0)
  {
  }

  ghost predicate EntityIdsDistinct(rooms: nat, locals: nat) {
    forall r1, r2, l1, l2 | 0 <= r1 < rooms && 0 <= r2 < rooms && 0 <= l1 < locals && 0 <= l2 < locals ::
      RoomEntityId(r1, l1) == RoomEntityId(r2, l2) ==> r1 == r2 && l1 == l2
  }

  /** The ids of all entities are distinct exactly when there is at most one room, or the stride
      covers the local numbers. */
  lemma EntityIdsDistinctExactly(rooms: nat, locals: nat)
    requires rooms <= MAX_ROOM + 1 && locals <= U64_MAX
    ensures EntityIdsDistinct(rooms, locals) <==> rooms <= 1 || locals <= ID_STRIDE
  {
    if rooms > 1 && locals > ID_STRIDE {
      EntityIdsCollideBeyondStride(0);
    } else if rooms > 1 {
      forall r1, r2, l1, l2 | 0 <= r1 < rooms && 0 <= r2 < rooms && 0 <= l1 < locals && 0 <= l2 < locals
        ensures RoomEntityId(r1, l1) == RoomEntityId(r2, l2) ==> r1 == r2 && l1 == l2
      {
        IdsInjective(r1, r2, l1, l2, 0, 0);
      }
    }
  }

  /** Station, index and components after `n` entities were spawned. */
  ghost predicate EntitiesCreated(room: RoomState, n: nat) {
    && room.station.Valid() && room.station.tick == 0 && room.station.free == []
    && |room.station.records| == |room.entities| == n
    && (forall i | 0 <= i < n ::
          && room.station.generations[i] == 0 && room.entities[i] == EntityHandle(i, 0)
          && room.station.records[i].Some? && room.station.records[i].value.id == RoomEntityId(room.id, i))
    && NextIdBelow(room, n)
    && Coherent(room)
  }

  ghost predicate NextIdBelow(room: RoomState, n: nat) {
    forall id | id in room.station.byId :: id < RoomEntityId(room.id, n)
  }

  /** The services after the first `m` players were connected. */
  ghost predicate PlayersConnected(room: RoomState, m: nat) {
    && |room.players| == m
    && (forall k | 0 <= k < m ::
          room.players[k] == Player(RoomClientId(room.id, k), RoomEntityId(room.id, k), EntityHandle(k, 0)))
    && GatewayConnected(room, m) && HubConnected(room, m)
  }

  ghost predicate GatewayConnected(room: RoomState, m: nat) {
    && room.gateway.maxSessions == PlayerCount(room.id) && room.gateway.maxCommandsPerTick == 4
    && |room.gateway.sessions| == m
    && (forall k | 0 <= k < m ::
          && RoomClientId(room.id, k) in room.gateway.sessions
          && room.gateway.sessions[RoomClientId(room.id, k)] == Session(None, 0, 0, 0))
    && (forall client | client in room.gateway.sessions :: client < RoomClientId(room.id, m))
  }

  ghost predicate HubConnected(room: RoomState, m: nat) {
    && ServerClientId(room.id) in room.hub.clients
    && room.hub.clients[ServerClientId(room.id)].queue == []
    && (forall k | 0 <= k < m ::
          && RoomClientId(room.id, k) in room.hub.clients
          && room.hub.clients[RoomClientId(room.id, k)].queue == [])
    && (forall client | client in room.hub.clients ::
          client == ServerClientId(room.id) || client < RoomClientId(room.id, m))
    && (forall port | port in room.hub.ports ::
          port == BenchmarkPort(room.id, MAX_PLAYERS) || port < BenchmarkPort(room.id, m))
  }

  /** Fields creation does not touch while it populates the room. */
  ghost predicate StillEmpty(room: RoomState, id: nat, entitiesPerRoom: nat) {
    && room.id == id && room.projectiles == [] && room.nextEntityLocal == entitiesPerRoom
    && room.commands == Commands.EMPTY && room.dirtyHandles == []
    && |room.dirtyGenerations| == Capacity(entitiesPerRoom)
  }

  /** Index, blobs and tracker after `n` entities were spawned: every entity has something to
      send and nothing was sent. */
  ghost predicate Stocked(room: RoomState, id: nat, entitiesPerRoom: nat, n: nat) {
    && BlobsTyped(room.components) && |room.index| == n
    && room.tracker == NewTracker(id, entitiesPerRoom)
    && forall i | 0 <= i < n :: HasDirty(room.components, EntityHandle(i, 0))
  }

  function NewTracker(id: nat, entitiesPerRoom: nat): Tracker {
    Tracker(SatMul(PlayerCount(id), SatAdd(Capacity(entitiesPerRoom), TRACKER_SPARE)), {}, 0, 0)
  }

  ghost predicate Populated(room: RoomState, id: nat, entitiesPerRoom: nat, n: nat) {
    && StillEmpty(room, id, entitiesPerRoom) && EntitiesCreated(room, n)
    && PlayersConnected(room, Min(n, PlayerCount(id))) && Stocked(room, id, entitiesPerRoom, n)
  }

  lemma EmptyRoomPopulated(id: nat, entitiesPerRoom: nat)
    requires id <= MAX_ROOM
    ensures Populated(EmptyRoom(id, entitiesPerRoom), id, entitiesPerRoom, 0)
  {
  }

  lemma SpawnExtends(room: RoomState, n: nat)
    requires EntitiesCreated(room, n) && n <= U32_MAX && room.id <= MAX_ROOM
    ensures var spawned := SpawnEntity(room, n, EntityPosition(room.id, n));
            && spawned.Some?
            && var (after, handle) := spawned.value;
               && handle == EntityHandle(n, 0)
               && after == room.(station := after.station, index := after.index, components := after.components)
               && EntitiesCreated(after.(entities := after.entities + [handle]), n + 1)
               && !room.station.IsLive(handle) && after.station.IsLive(handle)
  {
    var position := EntityPosition(room.id, n);
    EntityPositionInWorld(room.id, n);
    SpawnEntityAgrees(room, n, position);
    SpawnSlots(room.station, RoomEntityId(room.id, n), position);
    IdsIncrease(room.id, n, n + 1);
    var (after, handle) := SpawnEntity(room, n, position).value;
    SameViewsAgree(after, after.(entities := after.entities + [handle]));
  }

  lemma ConnectExtends(room: RoomState, local: nat, handle: EntityHandle)
    requires PlayersConnected(room, local) && local < PlayerCount(room.id) && room.id <= MAX_ROOM
    requires Coherent(room) && room.station.IsLive(handle) && handle == EntityHandle(local, 0)
    ensures var connected := ConnectPlayer(room, local, handle);
            && connected.Some?
            && var after := connected.value;
               && PlayersConnected(after, local + 1) && Coherent(after)
               && after == room.(
                    components := after.components, gateway := after.gateway, hub := after.hub,
                    players := after.players)
  {
    hide Coherent, GatewayConnected, HubConnected, RoomClientId, BenchmarkPort, RoomEntityId,
      Gateway.Connect, Transport.Hub.Register, ComponentStore.SetBlob, Station.Get;
    GatewayAdmits(room, local);
    HubHasPort(room.id, local);
    InventoryFits(room, handle);
    var after := ConnectPlayer(room, local, handle).value;
    GatewayExtends(room, after, local);
    HubExtends(room, after, local);
    InventoryAgrees(room, after, handle);
  }

  lemma ClientIdsAscend(id: nat, local: nat)
    requires id <= MAX_ROOM && local < MAX_PLAYERS
    ensures forall k | 0 <= k < local :: RoomClientId(id, k) < RoomClientId(id, local)
    ensures RoomClientId(id, local) < RoomClientId(id, local + 1)
  {
  }

  lemma GatewayAdmits(room: RoomState, local: nat)
    requires GatewayConnected(room, local) && local < PlayerCount(room.id)
    ensures room.gateway.Connect(RoomClientId(room.id, local), 0).Some?
  {
  }

  lemma GatewayExtends(room: RoomState, after: RoomState, local: nat)
    requires GatewayConnected(room, local) && local < PlayerCount(room.id)
    requires room.id <= MAX_ROOM && after.id == room.id
    requires room.gateway.Connect(RoomClientId(room.id, local), 0) == Some(after.gateway)
    ensures GatewayConnected(after, local + 1)
  {
    ClientIdsAscend(room.id, local);
  }

  lemma HubHasPort(id: nat, local: nat)
    requires id <= MAX_ROOM && local < MAX_PLAYERS
    ensures BenchmarkPort(id, local) <= PORT_MAX
  {
    PortsDistinct(id, local, MAX_PLAYERS);
  }

  lemma HubExtends(room: RoomState, after: RoomState, local: nat)
    requires HubConnected(room, local) && local < PlayerCount(room.id) && room.id <= MAX_ROOM
    requires after.id == room.id
    requires after.hub == room.hub.Register(RoomClientId(room.id, local), BenchmarkPort(room.id, local))
    ensures HubConnected(after, local + 1)
  {
    PortsDistinct(room.id, local, MAX_PLAYERS);
    ClientIdsAscend(room.id, local);
  }

  lemma InventoryFits(room: RoomState, handle: EntityHandle)
    requires Coherent(room)
    ensures room.components.SetBlob(INVENTORY_DESCRIPTOR, handle, 0, Inventory).Some?
  {
  }

  lemma InventoryAgrees(room: RoomState, after: RoomState, handle: EntityHandle)
    requires Coherent(room) && room.station.IsLive(handle)
    requires room.components.SetBlob(INVENTORY_DESCRIPTOR, handle, 0, Inventory) == Some(after.components)
    requires after.station == room.station && after.index == room.index
    ensures Coherent(after)
  {
    forall other: EntityHandle ensures EntityAgrees(after, other) {
      assert EntityAgrees(room, other);
    }
  }

  lemma PopulateOneSucceeds(room: RoomState, id: nat, entitiesPerRoom: nat, n: nat)
    requires id <= MAX_ROOM && n < entitiesPerRoom <= U32_MAX
    requires Populated(room, id, entitiesPerRoom, n)
    ensures var next := PopulateOne(room, n);
            next.Some? && Populated(next.value, id, entitiesPerRoom, n + 1)
  {
    hide SpawnEntity, ConnectPlayer, Coherent, GatewayConnected, HubConnected, Stocked;
    SpawnExtends(room, n);
    SpawnStocks(room, id, entitiesPerRoom, n);
    var (spawned, handle) := SpawnEntity(room, n, EntityPosition(room.id, n)).value;
    var listed := spawned.(entities := spawned.entities + [handle]);
    SameServices(room, listed, Min(n, PlayerCount(id)));
    if n < PlayerCount(id) {
      ConnectExtends(listed, n, handle);
      ConnectStocks(listed, id, entitiesPerRoom, n, handle);
    }
  }

  lemma SpawnStocks(room: RoomState, id: nat, entitiesPerRoom: nat, n: nat)
    requires Stocked(room, id, entitiesPerRoom, n) && Coherent(room)
    requires var spawned := SpawnEntity(room, n, EntityPosition(room.id, n));
             && spawned.Some? && spawned.value.1 == EntityHandle(n, 0)
             && !room.station.IsLive(EntityHandle(n, 0))
    ensures var (after, handle) := SpawnEntity(room, n, EntityPosition(room.id, n)).value;
            Stocked(after.(entities := after.entities + [handle]), id, entitiesPerRoom, n + 1)
  {
    var position := EntityPosition(room.id, n);
    assert EntityAgrees(room, EntityHandle(n, 0));
    hide Coherent, EntityAgrees, SpawnEntity, HasDirty, BlobsTyped;
    SpawnKeepsStores(room, n, position);
    MapInsertSize(room.index, EntityHandle(n, 0), position);
  }

  lemma ConnectStocks(room: RoomState, id: nat, entitiesPerRoom: nat, local: nat, handle: EntityHandle)
    requires Stocked(room, id, entitiesPerRoom, local + 1) && ConnectPlayer(room, local, handle).Some?
    requires local < MAX_PLAYERS && handle == EntityHandle(local, 0)
    ensures Stocked(ConnectPlayer(room, local, handle).value, id, entitiesPerRoom, local + 1)
  {
    WriteKeepsTypes(room.components, INVENTORY_DESCRIPTOR, handle, 0, Inventory);
    WriteKeepsDirty(room.components, INVENTORY_DESCRIPTOR, handle, 0, Inventory);
    hide HasDirty, BlobsTyped, ComponentStore.SetBlob;
  }

  lemma SameServices(before: RoomState, after: RoomState, m: nat)
    requires PlayersConnected(before, m)
    requires after == before.(
               station := after.station, index := after.index, components := after.components,
               entities := after.entities)
    ensures PlayersConnected(after, m)
  {
  }

  lemma {:induction false} PopulateSucceeds(id: nat, entitiesPerRoom: nat, n: nat)
    requires id <= MAX_ROOM && n <= entitiesPerRoom <= U32_MAX
    ensures var populated := PopulateUpTo(id, entitiesPerRoom, n);
            populated.Some? && Populated(populated.value, id, entitiesPerRoom, n)
  {
    hide PopulateOne, Populated;
    if n == 0 {
      PortsDistinct(id, MAX_PLAYERS, MAX_PLAYERS);
      EmptyRoomPopulated(id, entitiesPerRoom);
    } else {
      PopulateSucceeds(id, entitiesPerRoom, n - 1);
      PopulateOneSucceeds(PopulateUpTo(id, entitiesPerRoom, n - 1).value, id, entitiesPerRoom, n - 1);
    }
  }

  /** What holds of a room between ticks: `nextTick` is the tick of the run that comes next. */
  ghost predicate AtBoundary(room: RoomState, id: nat, entitiesPerRoom: nat, nextTick: nat) {
    && room.id == id && |room.entities| == entitiesPerRoom
    && Core(room) && DirtyPermanent(room)
    && room.station.tick <= nextTick && room.station.free == []
    && Timeline(room.projectiles, room.station.tick, RateOf(id))
    && room.nextEntityLocal == entitiesPerRoom + RateOf(id) * room.station.tick
    && room.commands == Commands.EMPTY
    && SessionsBounded(room, SatMul(nextTick, MAX_PLAYERS))
    && HubIdle(room)
    && |room.dirtyGenerations| == Capacity(entitiesPerRoom)
  }

  /** A freshly created room is at a tick boundary of any tick, with all its entities dirty. */
  lemma CreationSucceeds(id: nat, entitiesPerRoom: nat, nextTick: nat)
    requires id <= MAX_ROOM && MAX_PLAYERS <= entitiesPerRoom <= U32_MAX - SPARE_SLOTS
    ensures var created := CreateRoom(id, entitiesPerRoom);
            && created.Some? && AtBoundary(created.value, id, entitiesPerRoom, nextTick)
            && created.value.station.tick == 0 && created.value.projectiles == []
            && created.value.dirtyHandles == created.value.entities
  {
    PopulateSucceeds(id, entitiesPerRoom, entitiesPerRoom);
    var room := PopulateUpTo(id, entitiesPerRoom, entitiesPerRoom).value;
    PopulatedRoomReady(room, id, entitiesPerRoom, nextTick);
  }

  /** Beyond the guarded sizes creation fails, or the room is short of players: a room exists
      exactly when its ports do, and has the endpoints the benchmark expects exactly when it has
      an entity for each of its players. */
  lemma CreationExactly(id: nat, entitiesPerRoom: nat)
    requires entitiesPerRoom <= U32_MAX
    ensures CreateRoom(id, entitiesPerRoom).Some? <==> id <= MAX_ROOM
    ensures CreateRoom(id, entitiesPerRoom).Some? ==>
              (|EndpointIds(CreateRoom(id, entitiesPerRoom).value)| == PlayerCount(id) + 1
               <==> entitiesPerRoom >= PlayerCount(id))
  {
    hide PopulateUpTo, EntitiesCreated, GatewayConnected, HubConnected;
    if id <= MAX_ROOM {
      PopulateSucceeds(id, entitiesPerRoom, entitiesPerRoom);
    } else {
      PortsRunOut(id, entitiesPerRoom, entitiesPerRoom);
    }
  }

  lemma {:induction false} PortsRunOut(id: nat, entitiesPerRoom: nat, n: nat)
    requires id > MAX_ROOM
    ensures PopulateUpTo(id, entitiesPerRoom, n).None?
  {
    hide PopulateOne;
    if n > 0 {
      PortsRunOut(id, entitiesPerRoom, n - 1);
    }
  }

  lemma PopulatedRoomReady(room: RoomState, id: nat, entitiesPerRoom: nat, nextTick: nat)
    requires MAX_PLAYERS <= entitiesPerRoom && Populated(room, id, entitiesPerRoom, entitiesPerRoom)
    ensures AtBoundary(room.(dirtyHandles := room.entities), id, entitiesPerRoom, nextTick)
  {
    hide GatewayConnected, HubConnected, NextIdBelow, NextIdFresh, SessionsBounded, HubIdle,
      GenerationsBounded, Accounts, Stocked;
    var after := room.(dirtyHandles := room.entities);
    PopulatedAccounts(room, id, entitiesPerRoom);
    SameViewsAgree(room, after);
    PopulatedServices(room, id, entitiesPerRoom, nextTick);
    forall handle | after.station.IsLive(handle) ensures handle in after.dirtyHandles {
      assert handle == room.entities[handle.index];
    }
    assert Layout(after) && Population(after);
    assert DirtyTracked(after) && DirtyLive(after);
  }

  lemma PopulatedAccounts(room: RoomState, id: nat, entitiesPerRoom: nat)
    requires Populated(room, id, entitiesPerRoom, entitiesPerRoom)
    ensures Accounts(room.(dirtyHandles := room.entities))
  {
    hide Coherent, GatewayConnected, HubConnected, NextIdBelow, HasDirty, BlobsTyped;
    FreshIssued(room.station.generations, entitiesPerRoom);
  }

  lemma {:induction false} FreshIssued(generations: seq<nat>, n: nat)
    requires n <= |generations| && forall i | 0 <= i < n :: generations[i] == 0
    ensures IssuedSum(generations, n) == n
  {
    if n > 0 {
      FreshIssued(generations, n - 1);
    }
  }

  lemma PopulatedServices(room: RoomState, id: nat, entitiesPerRoom: nat, nextTick: nat)
    requires MAX_PLAYERS <= entitiesPerRoom && Populated(room, id, entitiesPerRoom, entitiesPerRoom)
    ensures var after := room.(dirtyHandles := room.entities);
            && SessionsBounded(after, SatMul(nextTick, MAX_PLAYERS)) && HubIdle(after)
            && NextIdFresh(after) && GenerationsBounded(after)
  {
    hide Coherent;
  }

  // ----- teardown -----

  /** Releasing the endpoints of a room at a tick boundary finds every one registered and no
      packet queued. */
  ghost predicate Released(room: RoomState, stats: Stats, released: Teardown, n: nat) {
    && n <= |EndpointIds(room)|
    && released.stats == stats.(endpointsUnregistered := SatAdd(stats.endpointsUnregistered, n))
    && forall k | n <= k < |EndpointIds(room)| ::
         && EndpointIds(room)[k] in released.hub.clients
         && released.hub.clients[EndpointIds(room)[k]].queue == []
  }

  lemma EndpointsDistinct(room: RoomState, j: nat, k: nat)
    requires Layout(room) && room.id <= MAX_ROOM && j < |EndpointIds(room)| && k < |EndpointIds(room)|
    ensures EndpointIds(room)[j] == EndpointIds(room)[k] <==> j == k
  {
    if j < |room.players| {
      PlayersDistinct(room, j, if k < |room.players| then k else j);
    }
    if k < |room.players| {
      PlayersDistinct(room, k, k);
    }
  }

  lemma {:induction false} TeardownSucceeds(room: RoomState, stats: Stats, n: nat)
    requires Layout(room) && room.id <= MAX_ROOM && HubIdle(room) && n <= |EndpointIds(room)|
    ensures var released := UnregisterUpTo(room, stats, n);
            released.Some? && Released(room, stats, released.value, n)
  {
    if n == 0 {
      hide Layout;
    } else {
      hide HubIdle, EndpointIds, Layout;
      TeardownSucceeds(room, stats, n - 1);
      forall k | 0 <= k < |EndpointIds(room)|
        ensures EndpointIds(room)[k] == EndpointIds(room)[n - 1] <==> k == n - 1
      {
        EndpointsDistinct(room, k, n - 1);
      }
    }
  }
}
