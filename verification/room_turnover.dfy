/** Which entities come and go, exactly: what creation puts into a room, what expiry takes out and
    what a launch adds, down to every component blob. */
module RoomTurnover {
  import opened MachineInts
  import opened Options
  import opened StationTable
  import opened Components
  import opened RoomSpec
  import opened RoomAccounts
  import opened RoomInvariants
  import opened RoomProjectiles
  import opened RoomCreation

  // ----- writing blobs -----

  lemma WriteIs(store: ComponentStore, descriptor: Descriptor, handle: EntityHandle, version: nat, payload: Payload)
    requires payload.Bytes() <= descriptor.maxBytes
    ensures var written := store.SetBlob(descriptor, handle, version, payload);
            && written.Some?
            && written.value.blobs
               == store.blobs[BlobKey(descriptor.component, handle) := Blob(version, true, payload)]
  {
  }

  /** A spawn writes the transform and the state of the new entity, at the current tick. */
  lemma SpawnWrites(room: RoomState, local: nat, position: Position)
    requires SpawnEntity(room, local, position).Some?
    ensures var (after, handle) := SpawnEntity(room, local, position).value;
            && room.station.SpawnOwned(RoomEntityId(room.id, local), position)
               == Some(Spawned(after.station, handle))
            && after.components.blobs
               == room.components.blobs
                    [BlobKey(TRANSFORM, handle) := Blob(room.station.tick, true, Transform(position))]
                    [BlobKey(STATE, handle) := Blob(room.station.tick, true, State(local))]
  {
    hide RoomEntityId;
  }

  // ----- creation -----

  /** An entity as creation spawns it. */
  ghost predicate EntityCreated(room: RoomState, local: nat) {
    var handle, position := EntityHandle(local, 0), EntityPosition(room.id, local);
    var blobs := room.components.blobs;
    && room.station.Get(handle) == Some(Entity(RoomEntityId(room.id, local), handle, position))
    && BlobKey(TRANSFORM, handle) in blobs
    && blobs[BlobKey(TRANSFORM, handle)] == Blob(0, true, Transform(position))
    && BlobKey(STATE, handle) in blobs && blobs[BlobKey(STATE, handle)] == Blob(0, true, State(local))
    && (BlobKey(INVENTORY, handle) in blobs <==> local < PlayerCount(room.id))
    && (local < PlayerCount(room.id) ==> blobs[BlobKey(INVENTORY, handle)] == Blob(0, true, Inventory))
  }

  ghost predicate StoreCreated(room: RoomState, n: nat) {
    && (forall local | 0 <= local < n :: EntityCreated(room, local))
    && forall key | key in room.components.blobs :: key.handle.index < n && key.handle.generation == 0
  }

  /** A new room holds, for each of its entities, a transform with the entity's own position and a
      state, for each player an inventory, and nothing else; all of it dirty. */
  lemma {:induction false} CreatedExactly(id: nat, entitiesPerRoom: nat, n: nat)
    requires id <= MAX_ROOM && n <= entitiesPerRoom <= U32_MAX
    ensures var populated := PopulateUpTo(id, entitiesPerRoom, n);
            && populated.Some? && populated.value.id == id && StoreCreated(populated.value, n)
  {
    hide Populated, PopulateOne, EntityCreated;
    PopulateSucceeds(id, entitiesPerRoom, n);
    if n == 0 {
      EmptyRoomCreated(id, entitiesPerRoom);
    } else {
      CreatedExactly(id, entitiesPerRoom, n - 1);
      PopulateSucceeds(id, entitiesPerRoom, n - 1);
      OneMoreCreated(PopulateUpTo(id, entitiesPerRoom, n - 1).value, id, entitiesPerRoom, n - 1);
    }
  }

  lemma EmptyRoomCreated(id: nat, entitiesPerRoom: nat)
    requires id <= MAX_ROOM && entitiesPerRoom <= U32_MAX
    ensures PopulateUpTo(id, entitiesPerRoom, 0) == Some(EmptyRoom(id, entitiesPerRoom))
    ensures EmptyRoom(id, entitiesPerRoom).id == id && StoreCreated(EmptyRoom(id, entitiesPerRoom), 0)
  {
    PopulateSucceeds(id, entitiesPerRoom, 0);
  }

  lemma OneMoreCreated(room: RoomState, id: nat, entitiesPerRoom: nat, n: nat)
    requires id <= MAX_ROOM && n < entitiesPerRoom <= U32_MAX && room.id == id
    requires Populated(room, id, entitiesPerRoom, n) && StoreCreated(room, n)
    requires PopulateOne(room, n).Some?
    ensures PopulateOne(room, n).value.id == id && StoreCreated(PopulateOne(room, n).value, n + 1)
  {
    hide Coherent, GatewayConnected, HubConnected, Stocked, EntityPosition, RoomEntityId, RoomClientId,
      BenchmarkPort, PlayerCount, SpawnEntity;
    PopulateWrites(room, id, entitiesPerRoom, n);
    hide PopulateOne, Populated;
    CreatedStep(room, PopulateOne(room, n).value, n);
  }

  /** The next entity was spawned and its components written. */
  ghost predicate OneCreated(room: RoomState, after: RoomState, n: nat) {
    var handle, position := EntityHandle(n, 0), EntityPosition(room.id, n);
    var blobs := room.components.blobs
                   [BlobKey(TRANSFORM, handle) := Blob(0, true, Transform(position))]
                   [BlobKey(STATE, handle) := Blob(0, true, State(n))];
    && after.id == room.id
    && after.station.Get(handle) == Some(Entity(RoomEntityId(room.id, n), handle, position))
    && (forall other | other != handle :: after.station.Get(other) == room.station.Get(other))
    && after.components.blobs
       == if n < PlayerCount(room.id)
          then blobs[BlobKey(INVENTORY, handle) := Blob(0, true, Inventory)] else blobs
  }

  lemma CreatedStep(room: RoomState, after: RoomState, n: nat)
    requires StoreCreated(room, n) && OneCreated(room, after, n)
    ensures StoreCreated(after, n + 1)
  {
    hide EntityPosition, RoomEntityId, PlayerCount, Station.Get;
    forall local | 0 <= local < n + 1 ensures EntityCreated(after, local) {
      if local < n {
        assert EntityCreated(room, local);
      }
    }
  }

  lemma PopulateWrites(room: RoomState, id: nat, entitiesPerRoom: nat, n: nat)
    requires id <= MAX_ROOM && n < entitiesPerRoom <= U32_MAX && room.id == id
    requires Populated(room, id, entitiesPerRoom, n) && PopulateOne(room, n).Some?
    ensures OneCreated(room, PopulateOne(room, n).value, n)
  {
    hide Coherent, GatewayConnected, HubConnected, Stocked, EntityPosition, RoomEntityId, RoomClientId,
      BenchmarkPort, PlayerCount, SpawnEntity;
    var position := EntityPosition(id, n);
    SpawnExtends(room, n);
    SpawnWrites(room, n, position);
    var (spawned, handle) := SpawnEntity(room, n, position).value;
    SpawnEffect(room.station, RoomEntityId(id, n), position);
    if n < PlayerCount(id) {
      ConnectWrites(spawned.(entities := spawned.entities + [handle]), n, handle);
    }
  }

  lemma ConnectWrites(room: RoomState, local: nat, handle: EntityHandle)
    requires ConnectPlayer(room, local, handle).Some?
    ensures var after := ConnectPlayer(room, local, handle).value;
            && after.id == room.id && after.station == room.station
            && after.components.blobs
               == room.components.blobs[BlobKey(INVENTORY, handle) := Blob(0, true, Inventory)]
  {
  }

  // ----- expiry -----

  /** One of the first `n` projectiles. */
  ghost predicate AmongFirst(projectiles: seq<Projectile>, n: nat, handle: EntityHandle)
    requires n <= |projectiles|
  {
    exists j | 0 <= j < n :: projectiles[j].handle == handle
  }

  /** The first `n` projectiles are gone from the station and the store, and nothing else changed
      there. */
  ghost predicate GoneExactly(before: RoomState, after: RoomState, n: nat)
    requires n <= |before.projectiles|
  {
    && (forall handle: EntityHandle ::
          after.station.Get(handle)
          == if AmongFirst(before.projectiles, n, handle) then None else before.station.Get(handle))
    && (forall key: BlobKey ::
          key in after.components.blobs
          <==> key in before.components.blobs && !AmongFirst(before.projectiles, n, key.handle))
    && (forall key | key in after.components.blobs ::
          after.components.blobs[key] == before.components.blobs[key])
  }

  lemma PopRemovesExactly(sim: Sim)
    requires Core(sim.room) && DirtyPermanent(sim.room) && ProjectilesOlder(sim.room)
    requires sim.room.projectiles != [] && sim.room.station.tick <= U32_MAX
    ensures GoneExactly(sim.room, PopProjectile(sim).room, 1)
  {
    PopKeepsViews(sim);
    var handle := sim.room.projectiles[0].handle;
    hide Core, DirtyPermanent, ProjectilesOlder;
    RemovedIsNone(sim.room.station, handle);
    forall other: EntityHandle ensures AmongFirst(sim.room.projectiles, 1, other) <==> other == handle {
    }
  }

  lemma RemovedIsNone(station: Station, handle: EntityHandle)
    ensures station.IsLive(handle) ==> station.Remove(handle).Some?
  {
  }

  /** Expiry removes exactly the expired projectiles at the front. */
  lemma {:induction false} ExpiryRemovesExactly(sim: Sim)
    requires Core(sim.room) && DirtyPermanent(sim.room) && ProjectilesOlder(sim.room)
    requires sim.room.station.tick <= U32_MAX
    ensures GoneExactly(
              sim.room, ExpireProjectiles(sim).room,
              ExpiredCount(sim.room.projectiles, sim.room.station.tick))
    decreases |sim.room.projectiles|
  {
    hide Core, DirtyPermanent, ProjectilesOlder, PopProjectile, GoneExactly;
    if FrontExpired(sim.room) {
      PopKeepsCore(sim);
      PopRemovesExactly(sim);
      var popped := PopProjectile(sim);
      ExpiryRemovesExactly(popped);
      ExpiredTail(sim.room.projectiles, sim.room.station.tick);
      GoneThrough(
        sim.room, popped.room, ExpireProjectiles(sim).room,
        ExpiredCount(popped.room.projectiles, sim.room.station.tick));
    } else {
      NothingGone(sim.room);
    }
  }

  lemma ExpiredTail(projectiles: seq<Projectile>, now: nat)
    requires projectiles != [] && projectiles[0].expiresAt <= now
    ensures ExpiredCount(projectiles, now) == ExpiredCount(projectiles[1..], now) + 1
  {
  }

  lemma NothingGone(room: RoomState)
    ensures GoneExactly(room, room, 0)
  {
  }

  lemma GoneThrough(before: RoomState, between: RoomState, after: RoomState, n: nat)
    requires before.projectiles != [] && between.projectiles == before.projectiles[1..]
    requires n <= |between.projectiles| && GoneExactly(before, between, 1) && GoneExactly(between, after, n)
    ensures GoneExactly(before, after, n + 1)
  {
    hide Station.Get;
    forall handle: EntityHandle
      ensures AmongFirst(before.projectiles, n + 1, handle)
              <==> AmongFirst(before.projectiles, 1, handle) || AmongFirst(between.projectiles, n, handle)
    {
      if AmongFirst(between.projectiles, n, handle) {
        var j :| 0 <= j < n && between.projectiles[j].handle == handle;
        assert before.projectiles[j + 1].handle == handle;
      }
      if AmongFirst(before.projectiles, n + 1, handle) {
        var j :| 0 <= j < n + 1 && before.projectiles[j].handle == handle;
        assert j > 0 ==> between.projectiles[j - 1].handle == handle;
      }
    }
  }

  // ----- launches -----

  /** A projectile as the launch with this offset spawns it: its identifier is the next one, its
      position one further for every launch before it in the tick. */
  ghost predicate ProjectileCreated(before: RoomState, after: RoomState, handle: EntityHandle, offset: nat) {
    var local, now := before.nextEntityLocal + offset, before.station.tick;
    var position := EntityPosition(before.id, local + offset);
    var blobs := after.components.blobs;
    && !before.station.IsLive(handle)
    && after.station.Get(handle) == Some(Entity(RoomEntityId(before.id, local), handle, position))
    && BlobKey(TRANSFORM, handle) in blobs
    && blobs[BlobKey(TRANSFORM, handle)] == Blob(now, true, Transform(position))
    && BlobKey(STATE, handle) in blobs && blobs[BlobKey(STATE, handle)] == Blob(now, true, State(local))
  }

  /** Everything that was there stays as it was. */
  ghost predicate KeepsEntities(before: RoomState, after: RoomState) {
    && (forall handle: EntityHandle | before.station.IsLive(handle) ::
          after.station.Get(handle) == before.station.Get(handle))
    && (forall key | key in before.components.blobs ::
          key in after.components.blobs && after.components.blobs[key] == before.components.blobs[key])
  }

  /** The last `n` projectiles were launched, each under a new handle that is listed as dirty. */
  ghost predicate LaunchedExactly(before: RoomState, after: RoomState, n: nat) {
    && KeepsEntities(before, after)
    && after.id == before.id && after.station.tick == before.station.tick
    && after.nextEntityLocal == before.nextEntityLocal + n
    && |after.projectiles| == |before.projectiles| + n
    && |after.dirtyHandles| == |before.dirtyHandles| + n
    && after.dirtyHandles[..|before.dirtyHandles|] == before.dirtyHandles
    && forall offset | 0 <= offset < n :: LaunchedAt(before, after, offset)
  }

  ghost predicate LaunchedAt(before: RoomState, after: RoomState, offset: nat)
    requires |before.projectiles| + offset < |after.projectiles|
    requires |before.dirtyHandles| + offset < |after.dirtyHandles|
  {
    var handle := after.projectiles[|before.projectiles| + offset].handle;
    && ProjectileCreated(before, after, handle, offset)
    && after.dirtyHandles[|before.dirtyHandles| + offset] == handle
  }

  lemma {:induction false} LaunchesExactly(sim: Sim, n: nat)
    requires Core(sim.room) && RoomToSpawn(sim.room, n)
    ensures SpawnProjectilesUpTo(sim, n).Some?
    ensures LaunchedExactly(sim.room, SpawnProjectilesUpTo(sim, n).value.room, n)
  {
    hide Core, RoomToSpawn, SpawnProjectile, LaunchedExactly, Launched;
    LaunchSucceeds(sim, n);
    if n == 0 {
      NothingLaunched(sim.room);
    } else {
      FewerToSpawn(sim.room, n);
      LaunchesExactly(sim, n - 1);
      LaunchSucceeds(sim, n - 1);
      var before := SpawnProjectilesUpTo(sim, n - 1).value;
      OneMoreLaunched(sim, before, n - 1);
    }
  }

  lemma FewerToSpawn(room: RoomState, n: nat)
    requires RoomToSpawn(room, n) && n > 0
    ensures RoomToSpawn(room, n - 1)
  {
  }

  lemma NothingLaunched(room: RoomState)
    ensures LaunchedExactly(room, room, 0)
  {
  }

  lemma OneMoreLaunched(start: Sim, before: Sim, n: nat)
    requires Core(start.room) && RoomToSpawn(start.room, n + 1)
    requires Core(before.room) && Launched(start, before, n) && LaunchedExactly(start.room, before.room, n)
    requires SpawnProjectile(before, n).Some?
    ensures LaunchedExactly(start.room, SpawnProjectile(before, n).value.room, n + 1)
  {
    CoreCountsSlots(start.room);
    CoreCountsSlots(before.room);
    LaunchedRoom(start, before, n);
    LaunchIs(before, n);
    hide Core, RoomToSpawn, Launched, SpawnProjectile;
    LaunchComposes(start.room, before.room, SpawnProjectile(before, n).value.room, n);
  }

  lemma CoreCountsSlots(room: RoomState)
    requires Core(room)
    ensures SlotsCounted(room)
  {
  }

  /** One launch. */
  ghost predicate LaunchedOne(before: RoomState, after: RoomState, handle: EntityHandle, offset: nat) {
    var local, now := before.nextEntityLocal, before.station.tick;
    var position := EntityPosition(before.id, local + offset);
    && KeepsEntities(before, after) && !before.station.IsLive(handle)
    && after.id == before.id && after.station.tick == now && after.nextEntityLocal == local + 1
    && after.projectiles == before.projectiles + [Projectile(handle, SatAdd(now, PROJECTILE_TICKS))]
    && after.dirtyHandles == before.dirtyHandles + [handle]
    && after.station.Get(handle) == Some(Entity(RoomEntityId(before.id, local), handle, position))
    && BlobKey(TRANSFORM, handle) in after.components.blobs
    && after.components.blobs[BlobKey(TRANSFORM, handle)] == Blob(now, true, Transform(position))
    && BlobKey(STATE, handle) in after.components.blobs
    && after.components.blobs[BlobKey(STATE, handle)] == Blob(now, true, State(local))
  }

  lemma LaunchIs(sim: Sim, offset: nat)
    requires Core(sim.room) && RoomToSpawn(sim.room, 1) && SpawnProjectile(sim, offset).Some? && offset < U32_MAX
    ensures var after := SpawnProjectile(sim, offset).value.room;
            && after.projectiles != []
            && LaunchedOne(sim.room, after, after.projectiles[|after.projectiles| - 1].handle, offset)
  {
    var local := sim.room.nextEntityLocal;
    var position := EntityPosition(sim.room.id, SatAdd(local, offset));
    var room := sim.room.(nextEntityLocal := SatAdd(local, 1));
    SpawnWrites(room, local, position);
    BlobsAreLive(sim.room);
    hide Accounts, Coherent, DirtyTracked, DirtyLive, Population, EntityPosition, RoomEntityId, SpawnEntity;
    SpawnEffect(sim.room.station, RoomEntityId(sim.room.id, local), position);
    hide Station.Get, Station.SpawnOwned, Station.Valid;
  }

  lemma BlobsAreLive(room: RoomState)
    requires Core(room)
    ensures forall key | key in room.components.blobs :: room.station.IsLive(key.handle)
  {
  }

  lemma LaunchComposes(start: RoomState, before: RoomState, after: RoomState, n: nat)
    requires LaunchedExactly(start, before, n) && after.projectiles != []
    requires LaunchedOne(before, after, after.projectiles[|after.projectiles| - 1].handle, n)
    ensures LaunchedExactly(start, after, n + 1)
  {
    hide Station.Get, EntityPosition, RoomEntityId;
    forall offset | 0 <= offset < n + 1 ensures LaunchedAt(start, after, offset) {
      if offset < n {
        assert LaunchedAt(start, before, offset);
      }
    }
  }
}
