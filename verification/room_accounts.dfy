/** What a room's stores add up to: listed entities have something to send, blobs have their
    sizes, index, slots and handles are counted, and the tracker knows issued handles only. */
module RoomAccounts {
  import opened Collections
  import opened MachineInts
  import opened Options
  import opened StationTable
  import opened Components
  import opened RoomSpec

  /** The transform or the state of the entity is marked dirty. */
  predicate HasDirty(store: ComponentStore, handle: EntityHandle) {
    store.IsDirty(TRANSFORM, handle) || store.IsDirty(STATE, handle)
  }

  /** Listed handles are dirty: the list names nothing that was not written. */
  ghost predicate ListedDirty(room: RoomState) {
    forall handle | handle in room.dirtyHandles :: HasDirty(room.components, handle)
  }

  /** The kind of payload that a component holds. */
  predicate Fits(component: nat, payload: Payload) {
    match payload
    case Transform(_) => component == TRANSFORM
    case State(_) => component == STATE
    case Inventory => component == INVENTORY
  }

  predicate PlayerHandle(handle: EntityHandle) { handle.index < MAX_PLAYERS && handle.generation == 0 }

  /** Blobs hold their component's kind of payload, and only players carry an inventory. */
  ghost predicate BlobsTyped(store: ComponentStore) {
    forall key | key in store.blobs ::
      && Fits(key.component, store.blobs[key].payload)
      && (key.component == INVENTORY ==> PlayerHandle(key.handle))
  }

  /** Handles issued for the first `n` slots, counting the next one of every free slot. */
  function IssuedSum(generations: seq<nat>, n: nat): nat
    requires n <= |generations|
  {
    if n == 0 then 0 else IssuedSum(generations, n - 1) + generations[n - 1] + 1
  }

  /** Every entity ever spawned took one handle and one local number. */
  ghost predicate HandlesCounted(room: RoomState) {
    IssuedSum(room.station.generations, |room.station.generations|)
    == room.nextEntityLocal + |room.station.free|
  }

  predicate Issued(generations: seq<nat>, handle: EntityHandle) {
    handle.index < |generations| && handle.generation <= generations[handle.index]
  }

  predicate OwnClient(room: RoomState, client: nat) {
    RoomClientId(room.id, 0) <= client < RoomClientId(room.id, PlayerCount(room.id))
  }

  /** The tracker holds records of the room's own clients for issued handles, and every sent
      record was acknowledged. */
  ghost predicate TrackerSound(room: RoomState) {
    && room.tracker.maxEntries
       == SatMul(PlayerCount(room.id), SatAdd(Capacity(|room.entities|), TRACKER_SPARE))
    && room.tracker.sent == room.tracker.acked
    && forall key | key in room.tracker.records ::
         OwnClient(room, key.client) && Issued(room.station.generations, key.handle)
  }

  ghost predicate IndexCounted(room: RoomState) {
    |room.index| == |room.entities| + |room.projectiles|
  }

  ghost predicate Accounts(room: RoomState) {
    && ListedDirty(room) && BlobsTyped(room.components)
    && IndexCounted(room) && HandlesCounted(room) && TrackerSound(room)
  }

  lemma {:induction false} IssuedDepends(a: seq<nat>, b: seq<nat>, n: nat)
    requires n <= |a| && n <= |b| && forall i | 0 <= i < n :: a[i] == b[i]
    ensures IssuedSum(a, n) == IssuedSum(b, n)
  {
    if n > 0 {
      IssuedDepends(a, b, n - 1);
    }
  }

  lemma {:induction false} IssuedUpdate(generations: seq<nat>, i: nat, generation: nat, n: nat)
    requires i < |generations| && n <= |generations|
    ensures IssuedSum(generations[i := generation], n)
            == IssuedSum(generations, n) + if i < n then generation - generations[i] else 0
  {
    if n > 0 {
      IssuedUpdate(generations, i, generation, n - 1);
    }
  }

  lemma IssuedAppend(generations: seq<nat>, generation: nat)
    ensures IssuedSum(generations + [generation], |generations| + 1)
            == IssuedSum(generations, |generations|) + generation + 1
  {
    IssuedDepends(generations, generations + [generation], |generations|);
  }

  lemma MapInsertSize<K, V>(m: map<K, V>, key: K, value: V)
    ensures |m[key := value]| == |m| + if key in m then 0 else 1
  {
    assert m[key := value].Keys == m.Keys + {key};
    assert |m| == |m.Keys| && |m[key := value]| == |m[key := value].Keys|;
    InsertSize(m.Keys, key);
    if key in m {
      assert m.Keys + {key} == m.Keys;
    }
  }

  lemma MapRemoveSize<K, V>(m: map<K, V>, key: K)
    requires key in m
    ensures |m - {key}| == |m| - 1
  {
    assert (m - {key}).Keys == m.Keys - {key};
    assert |m| == |m.Keys| && |m - {key}| == |(m - {key}).Keys|;
  }

  lemma WriteKeepsTypes(
      store: ComponentStore, descriptor: Descriptor, handle: EntityHandle, version: nat, payload: Payload)
    requires BlobsTyped(store) && Fits(descriptor.component, payload)
    requires descriptor.component == INVENTORY ==> PlayerHandle(handle)
    ensures var written := store.SetBlob(descriptor, handle, version, payload);
            written.Some? ==> BlobsTyped(written.value)
  {
  }

  lemma WriteKeepsDirty(
      store: ComponentStore, descriptor: Descriptor, handle: EntityHandle, version: nat, payload: Payload)
    ensures var written := store.SetBlob(descriptor, handle, version, payload);
            written.Some? ==>
              && (forall other | HasDirty(store, other) :: HasDirty(written.value, other))
              && (descriptor.component == TRANSFORM || descriptor.component == STATE ==>
                    HasDirty(written.value, handle))
  {
  }

  /** Moving lists an entity that now has something to send. */
  lemma MoveKeepsAccounts(sim: Sim, handle: EntityHandle, position: Position)
    requires Accounts(sim.room) && handle in sim.room.index
    requires MoveEntity(sim, handle, position).Some?
    ensures Accounts(MoveEntity(sim, handle, position).value.room)
  {
    var room := sim.room;
    var after := MoveEntity(sim, handle, position).value.room;
    WriteKeepsTypes(room.components, TRANSFORM_DESCRIPTOR, handle, room.station.tick, Transform(position));
    WriteKeepsDirty(room.components, TRANSFORM_DESCRIPTOR, handle, room.station.tick, Transform(position));
    MapInsertSize(room.index, handle, position);
    hide HasDirty, BlobsTyped, ComponentStore.SetBlob;
    assert after.station.generations == room.station.generations;
  }

  lemma StateWriteKeepsAccounts(room: RoomState, handle: EntityHandle, components: ComponentStore)
    requires Accounts(room)
    requires room.components.SetBlob(STATE_DESCRIPTOR, handle, room.station.tick, State(room.station.tick))
             == Some(components)
    ensures Accounts(room.(components := components, dirtyHandles := room.dirtyHandles + [handle]))
  {
    var now := room.station.tick;
    WriteKeepsTypes(room.components, STATE_DESCRIPTOR, handle, now, State(now));
    WriteKeepsDirty(room.components, STATE_DESCRIPTOR, handle, now, State(now));
    hide HasDirty, BlobsTyped, ComponentStore.SetBlob;
  }

  lemma SpawnKeepsStores(room: RoomState, local: nat, position: Position)
    requires BlobsTyped(room.components) && SpawnEntity(room, local, position).Some?
    ensures var (after, handle) := SpawnEntity(room, local, position).value;
            && BlobsTyped(after.components) && HasDirty(after.components, handle)
            && (forall other | HasDirty(room.components, other) :: HasDirty(after.components, other))
            && after.index == room.index[handle := position]
            && after == room.(station := after.station, index := after.index, components := after.components)
            && room.station.SpawnOwned(RoomEntityId(room.id, local), position)
               == Some(Spawned(after.station, handle))
            && BlobKey(TRANSFORM, handle) in after.components.blobs
            && after.components.blobs[BlobKey(TRANSFORM, handle)].dirty
  {
    var Spawned(station, handle) := room.station.SpawnOwned(RoomEntityId(room.id, local), position).value;
    var version := room.station.tick;
    var placed := room.components.SetBlob(TRANSFORM_DESCRIPTOR, handle, version, Transform(position)).value;
    WriteKeepsTypes(room.components, TRANSFORM_DESCRIPTOR, handle, version, Transform(position));
    WriteKeepsDirty(room.components, TRANSFORM_DESCRIPTOR, handle, version, Transform(position));
    WriteKeepsTypes(placed, STATE_DESCRIPTOR, handle, version, State(local));
    WriteKeepsDirty(placed, STATE_DESCRIPTOR, handle, version, State(local));
    hide HasDirty, BlobsTyped, Station.SpawnOwned;
  }

  /** A spawn issues one handle, from a free slot or a new one. */
  lemma SpawnCounts(station: Station, id: nat, position: Position)
    requires station.Valid() && station.SpawnOwned(id, position).Some?
    ensures var after := station.SpawnOwned(id, position).value.station;
            && |station.generations| <= |after.generations|
            && IssuedSum(after.generations, |after.generations|) - |after.free|
               == IssuedSum(station.generations, |station.generations|) - |station.free| + 1
            && forall handle :: Issued(station.generations, handle) ==> Issued(after.generations, handle)
  {
    SpawnSlots(station, id, position);
    IssuedAppend(station.generations, 0);
  }

  lemma SpawnKeepsAccounts(sim: Sim, offset: nat)
    requires Accounts(sim.room) && sim.room.station.Valid() && sim.room.nextEntityLocal < U64_MAX
    requires SpawnProjectile(sim, offset).Some?
    requires forall handle | handle in sim.room.index :: sim.room.station.IsLive(handle)
    requires |sim.room.station.records| <= U32_MAX
    ensures Accounts(SpawnProjectile(sim, offset).value.room)
  {
    var local := sim.room.nextEntityLocal;
    var room := sim.room.(nextEntityLocal := SatAdd(local, 1));
    var id, position := RoomEntityId(room.id, local), EntityPosition(room.id, SatAdd(local, offset));
    AccountsParts(sim.room);
    hide Accounts, HasDirty, BlobsTyped, IssuedSum, Issued, EntityPosition, RoomEntityId, Station.Valid;
    SpawnKeepsStores(room, local, position);
    SpawnCounts(room.station, id, position);
    SpawnEffect(room.station, id, position);
    hide SpawnEntity, Station.SpawnOwned;
    var (spawned, handle) := SpawnEntity(room, local, position).value;
    LaunchCounted(sim.room, SpawnProjectile(sim, offset).value.room, handle, position);
  }

  lemma AccountsParts(room: RoomState)
    requires Accounts(room)
    ensures BlobsTyped(room.components)
  {
  }

  lemma LaunchCounted(before: RoomState, after: RoomState, handle: EntityHandle, position: Position)
    requires Accounts(before) && BlobsTyped(after.components) && HasDirty(after.components, handle)
    requires forall other | HasDirty(before.components, other) :: HasDirty(after.components, other)
    requires after.id == before.id && after.entities == before.entities && after.tracker == before.tracker
    requires after.dirtyHandles == before.dirtyHandles + [handle]
    requires handle !in before.index && after.index == before.index[handle := position]
    requires |after.projectiles| == |before.projectiles| + 1
    requires after.nextEntityLocal == before.nextEntityLocal + 1
    requires IssuedSum(after.station.generations, |after.station.generations|) - |after.station.free|
             == IssuedSum(before.station.generations, |before.station.generations|)
                - |before.station.free| + 1
    requires forall other | Issued(before.station.generations, other) :: Issued(after.station.generations, other)
    ensures Accounts(after)
  {
    hide HasDirty, BlobsTyped, IssuedSum, Issued;
    MapInsertSize(before.index, handle, position);
  }

  /** A removal frees a slot under its next generation. */
  lemma RemoveCounts(station: Station, handle: EntityHandle)
    requires station.Valid() && station.IsLive(handle) && handle.generation < U32_MAX
    ensures var after := station.Remove(handle).value;
            && IssuedSum(after.generations, |after.generations|) - |after.free|
               == IssuedSum(station.generations, |station.generations|) - |station.free|
            && forall other :: Issued(station.generations, other) ==> Issued(after.generations, other)
  {
    RemoveEffect(station, handle);
    IssuedUpdate(station.generations, handle.index, handle.generation + 1, |station.generations|);
  }

  lemma PopKeepsAccounts(sim: Sim)
    requires Accounts(sim.room) && sim.room.station.Valid() && sim.room.projectiles != []
    requires var handle := sim.room.projectiles[0].handle;
             && sim.room.station.IsLive(handle) && handle.generation < U32_MAX
             && handle in sim.room.index && handle !in sim.room.dirtyHandles
    ensures Accounts(PopProjectile(sim).room)
  {
    var handle := sim.room.projectiles[0].handle;
    RemoveCounts(sim.room.station, handle);
    MapRemoveSize(sim.room.index, handle);
    ClearEntityKeeps(sim.room.components, handle);
    hide HasDirty, BlobsTyped, Station.Remove, ComponentStore.ClearEntity;
  }

  lemma ClearEntityKeeps(store: ComponentStore, handle: EntityHandle)
    requires BlobsTyped(store)
    ensures BlobsTyped(store.ClearEntity(handle))
    ensures forall other | other != handle && HasDirty(store, other) :: HasDirty(store.ClearEntity(handle), other)
  {
  }

  /** Steps on the other services keep the accounts. */
  lemma SideStateKeepsAccounts(before: RoomState, after: RoomState)
    requires Accounts(before)
    requires after == before.(
               station := after.station, gateway := after.gateway, commands := after.commands,
               hub := after.hub, dirtyGenerations := after.dirtyGenerations,
               readyEvents := after.readyEvents)
    requires after.station.generations == before.station.generations
    requires after.station.free == before.station.free
    ensures Accounts(after)
  {
  }

  lemma ClearKeepsAccounts(room: RoomState, components: ComponentStore)
    requires Accounts(room) && BlobsTyped(components)
    ensures Accounts(room.(components := components, dirtyHandles := []))
  {
  }
}
