/** Plans and their frames: a plan names exactly the listed candidates while it has room, every
    frame fits into a packet whole, and the tracker has room while the room is young. */
module RoomFrames {
  import opened Collections
  import opened MachineInts
  import opened StationTable
  import opened Components
  import opened FrameEncoding
  import opened ReplicationTracking
  import opened RoomSpec
  import opened RoomAccounts
  import Transport = TransportHub

  // ----- plans -----

  /** What a plan may name: live entities with something to send, each once. */
  ghost predicate PlanSound(room: RoomState, plan: seq<EntityHandle>) {
    && Distinct(plan) && |plan| <= PLAN_LIMIT
    && forall handle | handle in plan :: room.station.IsLive(handle) && HasDirty(room.components, handle)
  }

  /** The lookup answers membership in the dirty list for the live handles of the room. */
  ghost predicate LookupExact(room: RoomState) {
    forall handle: EntityHandle | room.station.IsLive(handle) ::
      DirtyLookup(room.dirtyGenerations, handle) <==> handle in room.dirtyHandles
  }

  lemma {:induction false} PlanIsSound(room: RoomState, candidates: seq<EntityHandle>, n: nat)
    requires n <= |candidates| && Distinct(candidates)
    requires LookupExact(room) && ListedDirty(room)
    ensures PlanSound(room, PlanUpTo(room, candidates, n))
    ensures forall handle | handle in PlanUpTo(room, candidates, n) :: handle in candidates[..n]
  {
    hide HasDirty;
    if n > 0 {
      PlanIsSound(room, candidates, n - 1);
      assert candidates[..n] == candidates[..n - 1] + [candidates[n - 1]];
      assert candidates[n - 1] !in candidates[..n - 1];
      AppendDistinct(PlanUpTo(room, candidates, n - 1), candidates[n - 1]);
    }
  }

  lemma AppendDistinct(handles: seq<EntityHandle>, next: EntityHandle)
    requires Distinct(handles) && next !in handles
    ensures Distinct(handles + [next])
  {
  }

  /** A plan leaves out a listed live candidate only when it is full. */
  lemma {:induction false} PlanIsComplete(room: RoomState, candidates: seq<EntityHandle>, n: nat)
    requires n <= |candidates| && LookupExact(room)
    ensures |PlanUpTo(room, candidates, n)| <= PLAN_LIMIT
    ensures forall handle | handle in candidates[..n] && handle in room.dirtyHandles && room.station.IsLive(handle) ::
              handle in PlanUpTo(room, candidates, n) || |PlanUpTo(room, candidates, n)| == PLAN_LIMIT
  {
    if n > 0 {
      PlanIsComplete(room, candidates, n - 1);
      assert candidates[..n] == candidates[..n - 1] + [candidates[n - 1]];
    }
  }

  lemma PlanForSound(room: RoomState, player: nat, query: Query)
    requires player < |room.players| && LookupExact(room) && ListedDirty(room)
    ensures PlanSound(room, PlanFor(room, player, query))
  {
    var candidates := Candidates(query, room.players[player].handle);
    PlanIsSound(room, candidates, |candidates|);
  }

  lemma {:induction false} PlansSound(room: RoomState, queries: nat -> Query, n: nat)
    requires n <= |room.players| && LookupExact(room) && ListedDirty(room)
    ensures forall k | 0 <= k < n :: PlansUpTo(room, queries, n)[k] == PlanFor(room, k, queries(k))
    ensures forall k | 0 <= k < n :: PlanSound(room, PlansUpTo(room, queries, n)[k])
  {
    hide PlanFor, PlanSound;
    if n > 0 {
      PlansSound(room, queries, n - 1);
      PlanForSound(room, n - 1, queries(n - 1));
    }
  }

  // ----- frames -----

  /** What a component contributes to a frame: its blob, if that is dirty. */
  function DirtyPart(store: ComponentStore, component: nat, handle: EntityHandle): seq<Part> {
    if !store.IsDirty(component, handle) then []
    else
      var blob := store.blobs[BlobKey(component, handle)];
      [Part(component, blob.version, blob.payload)]
  }

  /** Everything of an entity that is dirty. */
  function DirtyParts(store: ComponentStore, handle: EntityHandle): seq<Part> {
    DirtyPart(store, TRANSFORM, handle) + DirtyPart(store, STATE, handle) + DirtyPart(store, INVENTORY, handle)
  }

  /** The entities of a plan whose component is dirty. */
  function DirtyIn(store: ComponentStore, component: nat, plan: seq<EntityHandle>): set<EntityHandle> {
    set handle | handle in plan && store.IsDirty(component, handle)
  }

  /** How many dirty components the entities of a plan have. */
  function DirtyCount(store: ComponentStore, plan: seq<EntityHandle>): nat {
    |DirtyIn(store, TRANSFORM, plan)| + |DirtyIn(store, STATE, plan)| + |DirtyIn(store, INVENTORY, plan)|
  }

  /** Length of a frame with all of them: 29 bytes of header, 18 an entity, and 15 a component
      besides its payload of 24, 8 or 64. */
  function FrameBytes(store: ComponentStore, plan: seq<EntityHandle>): nat {
    29 + 18 * |plan| + 39 * |DirtyIn(store, TRANSFORM, plan)| + 23 * |DirtyIn(store, STATE, plan)|
      + 79 * |DirtyIn(store, INVENTORY, plan)|
  }

  /** Bytes that a component takes when it is sent. */
  function PartBytes(component: nat): nat {
    if component == TRANSFORM then 39 else if component == STATE then 23 else 79
  }

  lemma DeltaStep(store: ComponentStore, handle: EntityHandle, n: nat)
    requires BlobsTyped(store) && n < |SELECTION|
    ensures var before, after := DeltaUpTo(store, handle, n), DeltaUpTo(store, handle, n + 1);
            var part := DirtyPart(store, SELECTION[n], handle);
            && after.parts == before.parts + part
            && after.bytes == before.bytes + PartBytes(SELECTION[n]) * |part|
  {
    var key := BlobKey(SELECTION[n], handle);
    if key in store.blobs {
      assert Fits(key.component, store.blobs[key].payload);
    }
  }

  /** An entity is encoded with exactly its dirty components, each as it stands in the store. */
  lemma DeltaExactly(store: ComponentStore, handle: EntityHandle)
    requires BlobsTyped(store)
    ensures DeltaOf(store, handle).parts == DirtyParts(store, handle)
    ensures DeltaOf(store, handle).bytes
            == 18 + 39 * |DirtyPart(store, TRANSFORM, handle)| + 23 * |DirtyPart(store, STATE, handle)|
               + 79 * |DirtyPart(store, INVENTORY, handle)|
  {
    hide BlobsTyped, DirtyPart;
    DeltaStep(store, handle, 0);
    DeltaStep(store, handle, 1);
    DeltaStep(store, handle, 2);
  }

  /** One more entity of a plan. */
  lemma DirtyInStep(store: ComponentStore, component: nat, plan: seq<EntityHandle>, n: nat)
    requires n < |plan| && Distinct(plan)
    ensures |DirtyIn(store, component, plan[..n + 1])|
            == |DirtyIn(store, component, plan[..n])| + |DirtyPart(store, component, plan[n])|
  {
    hide ComponentStore.IsDirty;
    assert plan[..n + 1] == plan[..n] + [plan[n]] && plan[n] !in plan[..n];
    var before := DirtyIn(store, component, plan[..n]);
    if store.IsDirty(component, plan[n]) {
      assert DirtyIn(store, component, plan[..n + 1]) == before + {plan[n]};
      InsertSize(before, plan[n]);
    } else {
      assert DirtyIn(store, component, plan[..n + 1]) == before;
    }
  }

  lemma FrameBytesStep(store: ComponentStore, plan: seq<EntityHandle>, n: nat)
    requires n < |plan| && Distinct(plan) && BlobsTyped(store)
    ensures FrameBytes(store, plan[..n + 1]) == FrameBytes(store, plan[..n]) + DeltaOf(store, plan[n]).bytes
    ensures DirtyCount(store, plan[..n + 1]) == DirtyCount(store, plan[..n]) + |DirtyParts(store, plan[n])|
  {
    hide BlobsTyped, DeltaOf, DirtyPart, DirtyIn;
    DirtyInStep(store, TRANSFORM, plan, n);
    DirtyInStep(store, STATE, plan, n);
    DirtyInStep(store, INVENTORY, plan, n);
    DeltaExactly(store, plan[n]);
  }

  function FirstHandles(n: nat): set<EntityHandle> {
    if n == 0 then {} else FirstHandles(n - 1) + {EntityHandle(n - 1, 0)}
  }

  lemma {:induction false} FirstHandlesAre(n: nat)
    ensures forall handle :: handle in FirstHandles(n) <==> handle.index < n && handle.generation == 0
    ensures |FirstHandles(n)| == n
  {
    if n > 0 {
      FirstHandlesAre(n - 1);
      DisjointSize(FirstHandles(n - 1), {EntityHandle(n - 1, 0)});
    }
  }

  lemma {:induction false} DirtyInBounded(store: ComponentStore, component: nat, plan: seq<EntityHandle>, n: nat)
    requires n <= |plan| && Distinct(plan)
    ensures |DirtyIn(store, component, plan[..n])| <= n
  {
    if n > 0 {
      DirtyInBounded(store, component, plan, n - 1);
      DirtyInStep(store, component, plan, n - 1);
    }
  }

  lemma InventoriesBounded(store: ComponentStore, plan: seq<EntityHandle>)
    requires BlobsTyped(store)
    ensures |DirtyIn(store, INVENTORY, plan)| <= MAX_PLAYERS
  {
    FirstHandlesAre(MAX_PLAYERS);
    hide FirstHandles;
    SubsetSize(DirtyIn(store, INVENTORY, plan), FirstHandles(MAX_PLAYERS));
  }

  /** Not even a full plan of which everything is dirty fills a packet. */
  lemma FrameLeavesRoom(store: ComponentStore, plan: seq<EntityHandle>, n: nat)
    requires n <= |plan| <= PLAN_LIMIT && Distinct(plan) && BlobsTyped(store)
    ensures FrameBytes(store, plan[..n]) <= Transport.MAX_PACKET_BYTES
  {
    DirtyInBounded(store, TRANSFORM, plan, n);
    DirtyInBounded(store, STATE, plan, n);
    InventoriesBounded(store, plan[..n]);
    hide DirtyIn;
  }

  /** A frame with everything dirty of the first `n` entities of a plan, and nothing else. */
  ghost predicate Complete(station: Station, store: ComponentStore, plan: seq<EntityHandle>, n: nat, frame: Frame)
    requires n <= |plan|
  {
    && |frame.deltas| == n && frame.skipped == 0 && !frame.full
    && frame.components == DirtyCount(store, plan[..n])
    && frame.bytes == FrameBytes(store, plan[..n])
    && forall i | 0 <= i < n ::
         && station.IsLive(plan[i])
         && frame.deltas[i] == EntityDelta(station.Get(plan[i]).value.id, DirtyParts(store, plan[i]))
  }

  lemma FrameStep(station: Station, store: ComponentStore, plan: seq<EntityHandle>, n: nat, before: Frame)
    requires n < |plan| <= PLAN_LIMIT && Distinct(plan) && BlobsTyped(store)
    requires station.IsLive(plan[n]) && HasDirty(store, plan[n])
    requires Complete(station, store, plan, n, before)
    ensures Complete(
              station, store, plan, n + 1,
              EncodeEntity(station, store, Transport.MAX_PACKET_BYTES, before, plan[n]))
  {
    FrameBytesStep(store, plan, n);
    FrameLeavesRoom(store, plan, n + 1);
    DeltaExactly(store, plan[n]);
    hide BlobsTyped, DeltaOf, FrameBytes, DirtyCount, Station.Get;
  }

  /** While everything planned can be sent, a frame grows by whole entities and skips none. */
  lemma {:induction false} FrameGrows(station: Station, store: ComponentStore, plan: seq<EntityHandle>, n: nat)
    requires n <= |plan| <= PLAN_LIMIT && Distinct(plan) && BlobsTyped(store)
    requires forall handle | handle in plan :: station.IsLive(handle) && HasDirty(store, handle)
    ensures Complete(station, store, plan, n, EncodeUpTo(station, store, plan, Transport.MAX_PACKET_BYTES, n))
  {
    hide HasDirty, BlobsTyped, EncodeEntity, Complete;
    if n == 0 {
      EmptyFrame(station, store, plan);
    } else {
      FrameGrows(station, store, plan, n - 1);
      assert plan[n - 1] in plan;
      FrameStep(
        station, store, plan, n - 1, EncodeUpTo(station, store, plan, Transport.MAX_PACKET_BYTES, n - 1));
    }
  }

  lemma EmptyFrame(station: Station, store: ComponentStore, plan: seq<EntityHandle>)
    ensures Complete(station, store, plan, 0, Frame(HEADER_BYTES, [], 0, 0, false))
  {
    assert DirtyIn(store, TRANSFORM, plan[..0]) == DirtyIn(store, STATE, plan[..0]) == {};
    assert DirtyIn(store, INVENTORY, plan[..0]) == {};
  }

  function FrameOf(room: RoomState, plan: seq<EntityHandle>): Frame {
    Encode(room.station, room.components, plan, Transport.MAX_PACKET_BYTES)
  }

  /** Every frame fits into a packet and is complete: it holds every planned entity with all its
      dirty components and nothing else, so the encoder never has to skip one. */
  lemma FrameFits(room: RoomState, plan: seq<EntityHandle>)
    requires BlobsTyped(room.components) && PlanSound(room, plan)
    ensures var frame := FrameOf(room, plan);
            && Complete(room.station, room.components, plan, |plan|, frame)
            && frame.components == DirtyCount(room.components, plan)
            && frame.bytes == FrameBytes(room.components, plan) <= Transport.MAX_PACKET_BYTES
  {
    hide HasDirty, BlobsTyped, EncodeUpTo, FrameBytes, DirtyCount;
    assert plan[..|plan|] == plan;
    FrameGrows(room.station, room.components, plan, |plan|);
    FrameLeavesRoom(room.components, plan, |plan|);
  }

  /** A component is in a frame exactly when it is dirty in the room, with the version and the
      payload it has there. */
  lemma FrameCarriesExactlyDirty(room: RoomState, plan: seq<EntityHandle>, i: nat, part: Part)
    requires BlobsTyped(room.components) && PlanSound(room, plan) && i < |plan|
    ensures var frame := FrameOf(room, plan);
            && |frame.deltas| == |plan| && room.station.IsLive(plan[i])
            && frame.deltas[i].entity == room.station.Get(plan[i]).value.id
            && (part in frame.deltas[i].parts
                <==> var key := BlobKey(part.component, plan[i]);
                     key in room.components.blobs
                     && room.components.blobs[key] == Blob(part.version, true, part.payload))
  {
    FrameFits(room, plan);
    hide FrameOf, PlanSound, FrameBytes, DirtyCount;
    var store, handle := room.components, plan[i];
    var key := BlobKey(part.component, handle);
    if key in store.blobs {
      assert Fits(part.component, store.blobs[key].payload);
    }
  }

  // ----- the tracker -----

  /** Handles of one slot up to a generation. */
  function SlotHandles(index: nat, n: nat): set<EntityHandle> {
    set generation | 0 <= generation < n :: EntityHandle(index, generation)
  }

  function IssuedHandles(generations: seq<nat>, n: nat): set<EntityHandle>
    requires n <= |generations|
  {
    if n == 0 then {} else IssuedHandles(generations, n - 1) + SlotHandles(n - 1, generations[n - 1] + 1)
  }

  lemma {:induction false} SlotHandlesSize(index: nat, n: nat)
    ensures |SlotHandles(index, n)| == n
  {
    if n > 0 {
      SlotHandlesSize(index, n - 1);
      assert SlotHandles(index, n) == SlotHandles(index, n - 1) + {EntityHandle(index, n - 1)};
    } else {
      assert SlotHandles(index, n) == {};
    }
  }

  lemma SlotHandlesAre(index: nat, n: nat)
    ensures forall handle :: handle in SlotHandles(index, n) <==> handle.index == index && handle.generation < n
  {
    forall handle: EntityHandle
      ensures handle in SlotHandles(index, n) <==> handle.index == index && handle.generation < n
    {
      if handle.index == index && handle.generation < n {
        assert handle == EntityHandle(index, handle.generation);
      }
    }
  }

  lemma {:induction false} IssuedHandle(generations: seq<nat>, n: nat, handle: EntityHandle)
    requires n <= |generations|
    ensures handle in IssuedHandles(generations, n)
            <==> handle.index < n && handle.generation <= generations[handle.index]
  {
    if n > 0 {
      IssuedHandle(generations, n - 1, handle);
      SlotHandlesAre(n - 1, generations[n - 1] + 1);
      hide SlotHandles;
    }
  }

  lemma {:induction false} IssuedHandlesSize(generations: seq<nat>, n: nat)
    requires n <= |generations|
    ensures |IssuedHandles(generations, n)| == IssuedSum(generations, n)
  {
    if n == 0 {
      assert IssuedHandles(generations, 0) == {};
    } else {
      hide IssuedHandles;
      IssuedHandlesSize(generations, n - 1);
      IssuedHandlesStep(generations, n);
    }
  }

  lemma IssuedHandlesStep(generations: seq<nat>, n: nat)
    requires 0 < n <= |generations|
    ensures |IssuedHandles(generations, n)|
            == |IssuedHandles(generations, n - 1)| + generations[n - 1] + 1
  {
    hide SlotHandles;
    var issued := generations[n - 1] + 1;
    var before, slot := IssuedHandles(generations, n - 1), SlotHandles(n - 1, issued);
    SlotHandlesSize(n - 1, issued);
    SlotHandlesAre(n - 1, issued);
    forall handle | handle in before ensures handle !in slot {
      IssuedHandle(generations, n - 1, handle);
    }
    DisjointSize(before, slot);
  }

  lemma IssuedHandlesAre(generations: seq<nat>, n: nat)
    requires n <= |generations|
    ensures forall handle :: handle in IssuedHandles(generations, n)
                             <==> handle.index < n && handle.generation <= generations[handle.index]
    ensures |IssuedHandles(generations, n)| == IssuedSum(generations, n)
  {
    hide IssuedHandles;
    IssuedHandlesSize(generations, n);
    forall handle
      ensures handle in IssuedHandles(generations, n)
              <==> handle.index < n && handle.generation <= generations[handle.index]
    {
      IssuedHandle(generations, n, handle);
    }
  }

  function ClientKeys(client: nat, handles: set<EntityHandle>): set<TrackKey> {
    set handle | handle in handles :: TrackKey(client, handle)
  }

  /** All pairs of `n` consecutive clients with the given handles. */
  function AllKeys(first: nat, n: nat, handles: set<EntityHandle>): set<TrackKey> {
    if n == 0 then {} else AllKeys(first, n - 1, handles) + ClientKeys(first + n - 1, handles)
  }

  lemma {:induction false} ClientKeysSize(client: nat, handles: set<EntityHandle>)
    ensures |ClientKeys(client, handles)| == |handles|
  {
    if handles == {} {
      assert ClientKeys(client, handles) == {};
    } else {
      var handle :| handle in handles;
      ClientKeysSize(client, handles - {handle});
      assert handles == (handles - {handle}) + {handle};
      assert ClientKeys(client, handles) == ClientKeys(client, handles - {handle}) + {TrackKey(client, handle)};
    }
  }

  lemma ClientKeysAre(client: nat, handles: set<EntityHandle>)
    ensures forall key :: key in ClientKeys(client, handles) <==> key.client == client && key.handle in handles
  {
    forall key: TrackKey
      ensures key in ClientKeys(client, handles) <==> key.client == client && key.handle in handles
    {
      if key.client == client && key.handle in handles {
        assert key == TrackKey(client, key.handle);
      }
    }
  }

  lemma {:induction false} TrackedKey(first: nat, n: nat, handles: set<EntityHandle>, key: TrackKey)
    ensures key in AllKeys(first, n, handles)
            <==> first <= key.client < first + n && key.handle in handles
  {
    if n > 0 {
      TrackedKey(first, n - 1, handles, key);
      ClientKeysAre(first + n - 1, handles);
      hide ClientKeys;
    }
  }

  lemma {:induction false} AllKeysSize(first: nat, n: nat, handles: set<EntityHandle>, size: nat)
    requires size == |handles|
    ensures |AllKeys(first, n, handles)| == n * size
  {
    if n == 0 {
      assert AllKeys(first, 0, handles) == {};
    } else {
      hide *;
      AllKeysSize(first, n - 1, handles, size);
      AllKeysStep(first, n, handles);
      assert n * size == (n - 1) * size + size;
    }
  }

  lemma AllKeysStep(first: nat, n: nat, handles: set<EntityHandle>)
    requires n > 0
    ensures |AllKeys(first, n, handles)| == |AllKeys(first, n - 1, handles)| + |handles|
  {
    hide ClientKeys;
    var before, more := AllKeys(first, n - 1, handles), ClientKeys(first + n - 1, handles);
    ClientKeysAre(first + n - 1, handles);
    ClientKeysSize(first + n - 1, handles);
    forall key | key in before ensures key !in more {
      TrackedKey(first, n - 1, handles, key);
    }
    DisjointSize(before, more);
  }

  lemma AllKeysAre(first: nat, n: nat, handles: set<EntityHandle>)
    ensures forall key :: key in AllKeys(first, n, handles)
                          <==> first <= key.client < first + n && key.handle in handles
    ensures |AllKeys(first, n, handles)| == n * |handles|
  {
    hide AllKeys;
    AllKeysSize(first, n, handles, |handles|);
    forall key
      ensures key in AllKeys(first, n, handles)
              <==> first <= key.client < first + n && key.handle in handles
    {
      TrackedKey(first, n, handles, key);
    }
  }

  lemma ClientRange(room: nat, players: nat)
    requires room <= PORT_MAX && players <= MAX_PLAYERS
    ensures RoomClientId(room, players) == RoomClientId(room, 0) + players
  {
  }

  /** The room's clients can have at most one record each for every handle issued. */
  lemma RecordsBounded(room: RoomState, records: set<TrackKey>)
    requires room.id <= PORT_MAX
    requires forall key | key in records :: OwnClient(room, key.client) && Issued(room.station.generations, key.handle)
    ensures |records| <= PlayerCount(room.id) * IssuedSum(room.station.generations, |room.station.generations|)
  {
    var generations := room.station.generations;
    var first, players := RoomClientId(room.id, 0), PlayerCount(room.id);
    var handles := IssuedHandles(generations, |generations|);
    IssuedHandlesAre(generations, |generations|);
    ClientRange(room.id, players);
    AllKeysAre(first, players, handles);
    hide IssuedHandles, AllKeys;
    forall key | key in records ensures key in AllKeys(first, players, handles) {
      assert OwnClient(room, key.client) && Issued(generations, key.handle);
    }
    SubsetSize(records, AllKeys(first, players, handles));
  }

  /** The tracker has room for every handle the room issued to its clients. */
  ghost predicate TrackerRoom(room: RoomState) {
    && room.id <= PORT_MAX && room.tracker.maxEntries < U64_MAX
    && PlayerCount(room.id) * IssuedSum(room.station.generations, |room.station.generations|)
       <= room.tracker.maxEntries
  }

  /** Then it admits every plan, and stays sound. */
  lemma TrackerAdmits(room: RoomState, player: nat, plan: seq<EntityHandle>)
    requires TrackerSound(room) && TrackerRoom(room) && PlanSound(room, plan)
    requires player < |room.players| == PlayerCount(room.id)
    requires room.players[player].client == RoomClientId(room.id, player)
    ensures var client := room.players[player].client;
            var recorded := room.tracker.RecordPlanSent(client, plan);
            && recorded.Some?
            && var after := recorded.value.AcknowledgePlan(client, plan);
               && after.records == room.tracker.records + KeysOf(client, plan)
               && after.maxEntries == room.tracker.maxEntries
               && after.sent == SatAdd(room.tracker.sent, |plan|)
               && TrackerSound(room.(tracker := after))
  {
    var client := room.players[player].client;
    hide HasDirty, PlayerCount, RoomClientId;
    ClientRange(room.id, player);
    ClientRange(room.id, PlayerCount(room.id));
    PlayerCountBounded(room.id);
    var records := room.tracker.records + KeysOf(client, plan);
    forall key | key in records ensures OwnClient(room, key.client) && Issued(room.station.generations, key.handle) {
      if key in KeysOf(client, plan) {
        assert room.station.IsLive(key.handle);
      }
    }
    RecordsBounded(room, records);
    RecordsExactlyWhatFits(room.tracker, client, plan);
    RecordedPlanIsAcknowledged(
      room.tracker.RecordPlanSent(client, plan).value, client, plan, |plan|);
  }

  lemma PlayerCountBounded(room: nat)
    ensures MIN_PLAYERS <= PlayerCount(room) <= MAX_PLAYERS
  {
  }
}
