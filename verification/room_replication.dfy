/** Event delivery and replication: the dirty lookup array is exact, every sent packet is
    received, and afterwards nothing in the room is left dirty. */
module RoomReplication {
  import opened Collections
  import opened MachineInts
  import opened StationTable
  import opened Components
  import opened FrameEncoding
  import opened ReplicationTracking
  import opened RoomSpec
  import opened RoomAccounts
  import opened RoomInvariants
  import opened RoomFrames
  import Transport = TransportHub
  import Events = EventRouter

  // ----- events -----

  ghost predicate AllDue(queue: seq<Events.Event>, tick: nat) {
    forall i | 0 <= i < |queue| :: queue[i].targetTick <= tick
  }

  /** Due events are all drained, in order, and none is kept back. */
  lemma {:induction false} DueEventsDrain(queue: seq<Events.Event>, tick: nat)
    requires AllDue(queue, tick)
    ensures Events.Ready(queue, tick) == queue && Events.Delayed(queue, tick) == []
  {
    if queue != [] {
      DueEventsDrain(queue[1..], tick);
    }
  }

  /** What a drain leaves of components and dirty list: after events the first player's state is
      written anew and its handle listed, and nothing else changes; without events nothing does. */
  ghost predicate StateMarked(before: RoomState, after: RoomState, events: nat) {
    if events == 0 then
      after.components == before.components && after.dirtyHandles == before.dirtyHandles
    else
      && before.players != []
      && var handle, now := before.players[0].handle, before.station.tick;
         && after.components.blobs
            == before.components.blobs[BlobKey(STATE, handle) := Blob(now, true, State(now))]
         && after.components.columns == before.components.columns + {STATE}
         && after.dirtyHandles == before.dirtyHandles + [handle]
  }

  /** Draining a room's due events empties its queue and marks the first player's state. */
  ghost predicate EventsDone(before: Sim, router: Events.Router, drain: EventDrain) {
    var station := StationIdOf(before.room.id);
    && station in router.queues
    && var count := |router.queues[station]|;
       && drain.router == Events.Router(router.queues[station := []])
       && drain.sim.room == before.room.(
            components := drain.sim.room.components, dirtyHandles := drain.sim.room.dirtyHandles,
            readyEvents := router.queues[station])
       && StateMarked(before.room, drain.sim.room, count)
       && drain.sim.stats == before.stats.(
            eventsDrained := SatAdd(before.stats.eventsDrained, count),
            componentUpdates :=
              if count == 0 then before.stats.componentUpdates
              else SatAdd(before.stats.componentUpdates, 1))
  }

  lemma EventsSucceed(sim: Sim, router: Events.Router)
    requires Core(sim.room) && StationIdOf(sim.room.id) in router.queues
    requires AllDue(router.queues[StationIdOf(sim.room.id)], sim.room.station.tick)
    ensures var drain := DrainGameplayEvents(sim, router);
            && drain.Some? && Core(drain.value.sim.room) && EventsDone(sim, router, drain.value)
  {
    var queue := router.queues[StationIdOf(sim.room.id)];
    DueEventsDrain(queue, sim.room.station.tick);
    var ready := sim.room.(readyEvents := queue);
    SideStateKeepsCore(sim.room, ready);
    if queue != [] {
      var handle := sim.room.players[0].handle;
      assert handle == sim.room.entities[0];
      StateWriteKeepsCore(ready, handle);
    }
  }

  lemma StateWriteKeepsCore(room: RoomState, handle: EntityHandle)
    requires Core(room) && room.station.IsLive(handle)
    ensures var now := room.station.tick;
            var written := room.components.SetBlob(STATE_DESCRIPTOR, handle, now, State(now));
            && written.Some?
            && Core(room.(components := written.value, dirtyHandles := room.dirtyHandles + [handle]))
  {
    hide Accounts;
    var now := room.station.tick;
    var written := room.components.SetBlob(STATE_DESCRIPTOR, handle, now, State(now)).value;
    var after := room.(components := written, dirtyHandles := room.dirtyHandles + [handle]);
    StateWriteKeepsAccounts(room, handle, written);
    forall other: EntityHandle ensures EntityAgrees(after, other) {
      assert EntityAgrees(room, other);
    }
  }

  // ----- the dirty lookup array -----

  /** Listed handles are determined by their index, as live handles are. */
  ghost predicate OnePerIndex(dirty: seq<EntityHandle>, handle: EntityHandle) {
    forall i | 0 <= i < |dirty| && dirty[i].index == handle.index :: dirty[i] == handle
  }

  lemma {:induction false} PreparedHolds(size: nat, dirty: seq<EntityHandle>, n: nat, handle: EntityHandle)
    requires n <= |dirty| && OnePerIndex(dirty, handle)
    ensures var prepared := PreparedUpTo(size, dirty, n);
            && size <= |prepared|
            && (handle in dirty[..n] ==> handle.index < |prepared|)
            && (handle.index < |prepared| ==>
                  prepared[handle.index] == if handle in dirty[..n] then handle.generation else U32_MAX)
  {
    if n > 0 {
      PreparedHolds(size, dirty, n - 1, handle);
      assert dirty[..n] == dirty[..n - 1] + [dirty[n - 1]];
    }
  }

  /** The lookup, exactly: it finds a handle when it is listed, or when its generation is the
      reset value itself. The second case is the only way it can be wrong. */
  lemma DirtyLookupExactly(size: nat, dirty: seq<EntityHandle>, handle: EntityHandle)
    requires OnePerIndex(dirty, handle)
    ensures var prepared := PreparedUpTo(size, dirty, |dirty|);
            DirtyLookup(prepared, handle)
            <==> handle in dirty || (handle.generation == U32_MAX && handle.index < |prepared|)
  {
    PreparedHolds(size, dirty, |dirty|, handle);
    assert dirty[..|dirty|] == dirty;
  }

  /** Among the unlisted live entities the lookup is wrong exactly at the saturated generation,
      the reset value, in a slot that the array covers. */
  lemma UnlistedLooksDirtyExactly(room: RoomState, handle: EntityHandle)
    requires DirtyLive(room) && room.station.IsLive(handle) && handle !in room.dirtyHandles
    ensures var prepared := PrepareDirtyGenerations(room).dirtyGenerations;
            DirtyLookup(prepared, handle)
            <==> handle.generation == U32_MAX && handle.index < |prepared|
  {
    LiveOnePerIndex(room, handle);
    DirtyLookupExactly(|room.dirtyGenerations|, room.dirtyHandles, handle);
  }

  /** Such an entity can exist: after one slot was used as often as the generation counts, the
      next entity in it is reported dirty though nobody touched it. */
  lemma SaturatedGenerationLooksDirty(room: RoomState, id: nat, position: Position)
    requires |room.dirtyGenerations| > 0
    ensures var spawned := Churned(id, position, U32_MAX).SpawnOwned(id, position);
            && spawned.Some? && spawned.value.station.IsLive(spawned.value.handle)
            && var untouched := room.(station := spawned.value.station, dirtyHandles := []);
               DirtyLookup(PrepareDirtyGenerations(untouched).dirtyGenerations, spawned.value.handle)
  {
    hide Churned;
    ChurnedGeneration(id, position, U32_MAX);
  }

  /** In every room younger than the reset value, at replication time the lookup is true for a
      live handle exactly when the handle is in the dirty list, in spite of slot reuse and
      repetitions; and the array never has to grow. */
  lemma DirtyLookupIsMembership(room: RoomState, handle: EntityHandle)
    requires Core(room) && room.station.tick < U32_MAX && room.station.IsLive(handle)
    ensures DirtyLookup(PrepareDirtyGenerations(room).dirtyGenerations, handle)
            <==> handle in room.dirtyHandles
  {
    LiveOnePerIndex(room, handle);
    DirtyLookupExactly(|room.dirtyGenerations|, room.dirtyHandles, handle);
  }

  lemma LiveOnePerIndex(room: RoomState, handle: EntityHandle)
    requires DirtyLive(room) && room.station.IsLive(handle)
    ensures OnePerIndex(room.dirtyHandles, handle)
  {
    forall i | 0 <= i < |room.dirtyHandles| && room.dirtyHandles[i].index == handle.index
      ensures room.dirtyHandles[i] == handle
    {
      assert room.station.IsLive(room.dirtyHandles[i]);
    }
  }

  lemma {:induction false} PreparedKeepsSize(size: nat, dirty: seq<EntityHandle>, n: nat)
    requires n <= |dirty| && forall i | 0 <= i < |dirty| :: dirty[i].index < size
    ensures |PreparedUpTo(size, dirty, n)| == size
  {
    if n > 0 {
      PreparedKeepsSize(size, dirty, n - 1);
    }
  }

  lemma LookupArrayKeepsSize(room: RoomState)
    requires room.station.Valid() && DirtyLive(room)
    requires |room.station.records| <= |room.dirtyGenerations|
    ensures |PrepareDirtyGenerations(room).dirtyGenerations| == |room.dirtyGenerations|
  {
    forall i | 0 <= i < |room.dirtyHandles|
      ensures room.dirtyHandles[i].index < |room.dirtyGenerations|
    {
      assert room.station.IsLive(room.dirtyHandles[i]);
    }
    PreparedKeepsSize(|room.dirtyGenerations|, room.dirtyHandles, |room.dirtyHandles|);
  }

  // ----- clearing -----

  /** Clearing a list of handles clears exactly the blobs of the listed handles: order and
      repetition do not matter, so sorting and deduplicating the list changes nothing. */
  lemma {:induction false} ClearsExactlyListed(components: ComponentStore, handles: seq<EntityHandle>, n: nat)
    requires n <= |handles|
    ensures ClearUpTo(components, handles, n)
            == components.(blobs := map key | key in components.blobs ::
                 components.blobs[key].(
                   dirty := components.blobs[key].dirty && key.handle !in handles[..n]))
  {
    if n > 0 {
      ClearsExactlyListed(components, handles, n - 1);
      assert handles[..n] == handles[..n - 1] + [handles[n - 1]];
    }
  }

  /** Complete tracking makes clearing the list clear everything. */
  lemma ClearLeavesNothingDirty(room: RoomState)
    requires Core(room)
    ensures var after := room.(
              components := ClearUpTo(room.components, room.dirtyHandles, |room.dirtyHandles|),
              dirtyHandles := []);
            Core(after) && NothingDirty(after)
  {
    ClearsExactlyListed(room.components, room.dirtyHandles, |room.dirtyHandles|);
    assert room.dirtyHandles[..|room.dirtyHandles|] == room.dirtyHandles;
    var after := room.(
      components := ClearUpTo(room.components, room.dirtyHandles, |room.dirtyHandles|),
      dirtyHandles := []);
    ClearKeepsAccounts(room, after.components);
    hide Accounts;
    forall handle: EntityHandle ensures EntityAgrees(after, handle) {
      assert EntityAgrees(room, handle);
    }
  }

  // ----- packets -----

  /** The packets in flight: players `received .. sent` have their frame queued, and every other
      endpoint's queue is empty. */
  ghost predicate InFlight(room: RoomState, plans: seq<seq<EntityHandle>>, received: nat, sent: nat)
    requires |plans| == |room.players|
  {
    && ServerClientId(room.id) in room.hub.clients
    && room.hub.clients[ServerClientId(room.id)].queue == []
    && forall k | 0 <= k < |room.players| ::
         && room.players[k].client in room.hub.clients
         && room.hub.clients[room.players[k].client].queue
            == if received <= k < sent then [FrameBytes(room.components, plans[k])] else []
  }

  /** No packet is queued at any endpoint. */
  ghost predicate HubIdle(room: RoomState) {
    && ServerClientId(room.id) in room.hub.clients
    && room.hub.clients[ServerClientId(room.id)].queue == []
    && forall k | 0 <= k < |room.players| ::
         && room.players[k].client in room.hub.clients
         && room.hub.clients[room.players[k].client].queue == []
  }

  lemma PlayersDistinct(room: RoomState, j: nat, k: nat)
    requires Layout(room) && room.id <= PORT_MAX && j < |room.players| && k < |room.players|
    ensures room.players[j].client == room.players[k].client <==> j == k
    ensures room.players[j].client != ServerClientId(room.id)
  {
    ClientIdsDistinct(room.id, j, k);
  }

  /** Bytes of the frames of the first `n` plans. */
  function BytesUpTo(store: ComponentStore, plans: seq<seq<EntityHandle>>, n: nat): nat
    requires n <= |plans|
  {
    if n == 0 then 0 else BytesUpTo(store, plans, n - 1) + FrameBytes(store, plans[n - 1])
  }

  /** Dirty components of the entities of the first `n` plans. */
  function PartsUpTo(store: ComponentStore, plans: seq<seq<EntityHandle>>, n: nat): nat
    requires n <= |plans|
  {
    if n == 0 then 0 else PartsUpTo(store, plans, n - 1) + DirtyCount(store, plans[n - 1])
  }

  /** Records of the first `n` plans. */
  function RecordsUpTo(room: RoomState, plans: seq<seq<EntityHandle>>, n: nat): set<TrackKey>
    requires n <= |plans| && n <= |room.players|
  {
    if n == 0 then {} else RecordsUpTo(room, plans, n - 1) + KeysOf(room.players[n - 1].client, plans[n - 1])
  }

  /** What the first `n` sends count: every plan is sent whole. */
  ghost predicate SentCounted(before: Sim, after: Stats, plans: seq<seq<EntityHandle>>, n: nat)
    requires n <= |plans|
  {
    var stats := before.stats;
    after == stats.(
      encodedEntities := SatAdd(stats.encodedEntities, SelectedUpTo(plans, n)),
      encodedComponents := SatAdd(stats.encodedComponents, PartsUpTo(before.room.components, plans, n)),
      packetsSent := SatAdd(stats.packetsSent, n),
      encodedBytes := SatAdd(stats.encodedBytes, BytesUpTo(before.room.components, plans, n)))
  }

  /** A room whose plans can be sent, recorded and received. */
  ghost predicate Sendable(room: RoomState, plans: seq<seq<EntityHandle>>) {
    && Layout(room) && room.id <= PORT_MAX && |plans| == |room.players|
    && BlobsTyped(room.components) && TrackerSound(room) && TrackerRoom(room)
    && forall k | 0 <= k < |plans| :: PlanSound(room, plans[k])
  }

  /** Sending changes the transport and the tracker only. */
  ghost predicate SendOnly(before: RoomState, after: RoomState) {
    after == before.(hub := after.hub, tracker := after.tracker)
  }

  lemma SendableAfter(before: RoomState, after: RoomState, plans: seq<seq<EntityHandle>>)
    requires Sendable(before, plans) && SendOnly(before, after) && TrackerSound(after)
    requires after.tracker.maxEntries == before.tracker.maxEntries
    ensures Sendable(after, plans)
  {
    hide BlobsTyped, Distinct, HasDirty, Encode;
    forall k | 0 <= k < |plans| ensures PlanSound(after, plans[k]) {
      assert PlanSound(before, plans[k]);
    }
  }

  /** One plan sent: its frame is queued and everything in it recorded. */
  lemma SendOne(sim: Sim, plans: seq<seq<EntityHandle>>, player: nat)
    requires Sendable(sim.room, plans) && player < |plans| && InFlight(sim.room, plans, 0, player)
    ensures var sent := SendPlan(sim, player, plans[player]);
            && sent.Some? && SendOnly(sim.room, sent.value.room)
            && TrackerSound(sent.value.room) && InFlight(sent.value.room, plans, 0, player + 1)
            && sent.value.room.tracker.maxEntries == sim.room.tracker.maxEntries
            && sent.value.room.tracker.sent == SatAdd(sim.room.tracker.sent, |plans[player]|)
            && sent.value.room.tracker.records
               == sim.room.tracker.records + KeysOf(sim.room.players[player].client, plans[player])
            && sent.value.stats == sim.stats.(
                 encodedEntities := SatAdd(sim.stats.encodedEntities, |plans[player]|),
                 encodedComponents :=
                   SatAdd(sim.stats.encodedComponents, DirtyCount(sim.room.components, plans[player])),
                 packetsSent := SatAdd(sim.stats.packetsSent, 1),
                 encodedBytes := SatAdd(sim.stats.encodedBytes, FrameBytes(sim.room.components, plans[player])))
  {
    hide Encode, BlobsTyped, HasDirty, Distinct, TrackerRoom, TrackerSound;
    assert PlanSound(sim.room, plans[player]);
    FrameFits(sim.room, plans[player]);
    TrackerAdmits(sim.room, player, plans[player]);
    QueueFrame(sim.room, plans, player);
    hide Layout, PlanSound, InFlight;
    var after := SendPlan(sim, player, plans[player]).value.room;
    SameTracker(sim.room.(tracker := after.tracker), after);
  }

  /** The frame is queued at its player's endpoint and nowhere else. */
  lemma QueueFrame(room: RoomState, plans: seq<seq<EntityHandle>>, player: nat)
    requires Layout(room) && room.id <= PORT_MAX && |plans| == |room.players| && player < |plans|
    requires InFlight(room, plans, 0, player)
    requires FrameBytes(room.components, plans[player]) <= Transport.MAX_PACKET_BYTES
    ensures var queued := room.hub.Send(
              ServerClientId(room.id), room.players[player].client, FrameBytes(room.components, plans[player]));
            && queued.Some?
            && forall tracker :: InFlight(room.(hub := queued.value, tracker := tracker), plans, 0, player + 1)
  {
    hide Encode;
    forall k | 0 <= k < |room.players|
      ensures room.players[k].client == room.players[player].client <==> k == player
      ensures room.players[k].client != ServerClientId(room.id)
    {
      PlayersDistinct(room, k, player);
    }
  }

  lemma {:induction false} SendSucceeds(sim: Sim, plans: seq<seq<EntityHandle>>, n: nat)
    requires Sendable(sim.room, plans) && n <= |plans| && HubIdle(sim.room)
    ensures var sent := SendPlansUpTo(sim, plans, n);
            && sent.Some? && SendOnly(sim.room, sent.value.room)
            && Sendable(sent.value.room, plans) && InFlight(sent.value.room, plans, 0, n)
            && sent.value.room.tracker.maxEntries == sim.room.tracker.maxEntries
            && sent.value.room.tracker.sent == SatAdd(sim.room.tracker.sent, SelectedUpTo(plans, n))
            && sent.value.room.tracker.records
               == sim.room.tracker.records + RecordsUpTo(sim.room, plans, n)
            && SentCounted(sim, sent.value.stats, plans, n)
  {
    hide SendPlan, Sendable, InFlight, TrackerSound, FrameBytes, DirtyCount;
    PlansMatch(sim.room, plans);
    if n == 0 {
      NothingSent(sim.room, plans);
    } else {
      SendSucceeds(sim, plans, n - 1);
      var before := SendPlansUpTo(sim, plans, n - 1).value;
      SendOne(before, plans, n - 1);
      var after := SendPlan(before, n - 1, plans[n - 1]).value;
      SendableAfter(before.room, after.room, plans);
    }
  }

  lemma PlansMatch(room: RoomState, plans: seq<seq<EntityHandle>>)
    requires Sendable(room, plans)
    ensures |plans| == |room.players|
  {
  }

  lemma NothingSent(room: RoomState, plans: seq<seq<EntityHandle>>)
    requires |plans| == |room.players| && HubIdle(room)
    ensures InFlight(room, plans, 0, 0)
  {
  }

  ghost predicate ReceivedCounted(before: Sim, after: Stats, plans: seq<seq<EntityHandle>>, n: nat)
    requires n <= |plans|
  {
    after == before.stats.(
      packetsReceived := SatAdd(before.stats.packetsReceived, n),
      decodedBytes := SatAdd(before.stats.decodedBytes, BytesUpTo(before.room.components, plans, n)))
  }

  lemma {:induction false} ReceiveSucceeds(sim: Sim, plans: seq<seq<EntityHandle>>, n: nat)
    requires Layout(sim.room) && sim.room.id <= PORT_MAX && n <= |sim.room.players| == |plans|
    requires InFlight(sim.room, plans, 0, |sim.room.players|)
    ensures var received := ReceiveUpTo(sim, n);
            && received.Some? && InFlight(received.value.room, plans, n, |sim.room.players|)
            && ReceivedCounted(sim, received.value.stats, plans, n)
  {
    hide ReceiveAll, InFlight, Layout, FrameBytes;
    if n > 0 {
      ReceiveSucceeds(sim, plans, n - 1);
      var before := ReceiveUpTo(sim, n - 1).value;
      HubChangeKeepsLayout(sim.room, before.room);
      ReceiveOne(before, plans, n - 1);
    }
  }

  lemma HubChangeKeepsLayout(before: RoomState, after: RoomState)
    requires Layout(before) && after == before.(hub := after.hub)
    ensures Layout(after)
  {
  }

  lemma ReceiveOne(sim: Sim, plans: seq<seq<EntityHandle>>, player: nat)
    requires Layout(sim.room) && sim.room.id <= PORT_MAX && player < |sim.room.players| == |plans|
    requires InFlight(sim.room, plans, player, |sim.room.players|)
    ensures var received := ReceiveAll(sim, sim.room.players[player].client);
            && received.Some? && InFlight(received.value.room, plans, player + 1, |sim.room.players|)
            && received.value.stats == sim.stats.(
                 packetsReceived := SatAdd(sim.stats.packetsReceived, 1),
                 decodedBytes := SatAdd(sim.stats.decodedBytes, FrameBytes(sim.room.components, plans[player])))
  {
    hide Encode;
    forall k | 0 <= k < |sim.room.players|
      ensures sim.room.players[k].client == sim.room.players[player].client <==> k == player
      ensures sim.room.players[k].client != ServerClientId(sim.room.id)
    {
      PlayersDistinct(sim.room, k, player);
    }
  }

  // ----- the whole replication step -----

  /** The prepared lookup array is exact for the room it was prepared from. */
  lemma PreparedLookupExact(room: RoomState)
    requires Core(room) && room.station.tick < U32_MAX
    ensures LookupExact(PrepareDirtyGenerations(room))
  {
    hide PrepareDirtyGenerations, Core, DirtyLookup;
    var prepared := PrepareDirtyGenerations(room);
    PrepareKeepsRest(room);
    forall handle: EntityHandle | prepared.station.IsLive(handle)
      ensures DirtyLookup(prepared.dirtyGenerations, handle) <==> handle in prepared.dirtyHandles
    {
      DirtyLookupIsMembership(room, handle);
    }
  }

  lemma PrepareKeepsRest(room: RoomState)
    ensures PrepareDirtyGenerations(room)
            == room.(dirtyGenerations := PrepareDirtyGenerations(room).dirtyGenerations)
  {
  }

  /** Plans of a room: one sound plan per viewer. */
  function PlansOf(room: RoomState, queries: nat -> Query): (plans: seq<seq<EntityHandle>>)
    ensures |plans| == |room.players|
  {
    PlansUpTo(PrepareDirtyGenerations(room), queries, |room.players|)
  }

  /** Replication: one plan per player, every packet sent, recorded and received, and nothing
      stays dirty. */
  ghost predicate Replicated(before: Sim, after: Sim, queries: nat -> Query) {
    var players := |before.room.players|;
    var plans := PlansOf(before.room, queries);
    var selected := SelectedUpTo(plans, players);
    var parts := PartsUpTo(before.room.components, plans, players);
    var bytes := BytesUpTo(before.room.components, plans, players);
    && after.room == before.room.(
         hub := after.room.hub, components := after.room.components, tracker := after.room.tracker,
         dirtyGenerations := after.room.dirtyGenerations, dirtyHandles := [])
    && HubIdle(after.room) && NothingDirty(after.room)
    && |after.room.dirtyGenerations| == |before.room.dirtyGenerations|
    && after.room.tracker.sent == SatAdd(before.room.tracker.sent, selected)
    && after.room.tracker.records == before.room.tracker.records + RecordsUpTo(before.room, plans, players)
    && after.stats == before.stats.(
         viewerPlans := SatAdd(before.stats.viewerPlans, players),
         selectedEntities := SatAdd(before.stats.selectedEntities, selected),
         encodedEntities := SatAdd(before.stats.encodedEntities, selected),
         encodedComponents := SatAdd(before.stats.encodedComponents, parts),
         packetsSent := SatAdd(before.stats.packetsSent, players),
         packetsReceived := SatAdd(before.stats.packetsReceived, players),
         encodedBytes := SatAdd(before.stats.encodedBytes, bytes),
         decodedBytes := SatAdd(before.stats.decodedBytes, bytes))
    && selected <= parts
  }

  /** Every selected entity has something to send. */
  lemma {:induction false} SelectedWithinParts(room: RoomState, plans: seq<seq<EntityHandle>>, n: nat)
    requires n <= |plans| && Sendable(room, plans)
    ensures SelectedUpTo(plans, n) <= PartsUpTo(room.components, plans, n)
  {
    hide HasDirty, DirtyCount, Distinct;
    if n > 0 {
      SelectedWithinParts(room, plans, n - 1);
      assert PlanSound(room, plans[n - 1]);
      assert plans[n - 1][..|plans[n - 1]|] == plans[n - 1];
      PlannedWithinDirty(room.components, plans[n - 1], |plans[n - 1]|);
    }
  }

  lemma {:induction false} PlannedWithinDirty(store: ComponentStore, plan: seq<EntityHandle>, n: nat)
    requires n <= |plan| && Distinct(plan) && forall handle | handle in plan :: HasDirty(store, handle)
    ensures n <= DirtyCount(store, plan[..n])
  {
    if n > 0 {
      PlannedWithinDirty(store, plan, n - 1);
      DirtyInStep(store, TRANSFORM, plan, n - 1);
      DirtyInStep(store, STATE, plan, n - 1);
      DirtyInStep(store, INVENTORY, plan, n - 1);
      hide DirtyIn;
      assert HasDirty(store, plan[n - 1]);
    }
  }

  lemma {:induction false} RecordsDepend(a: RoomState, b: RoomState, plans: seq<seq<EntityHandle>>, n: nat)
    requires n <= |plans| && n <= |a.players| && a.players == b.players
    ensures RecordsUpTo(a, plans, n) == RecordsUpTo(b, plans, n)
  {
    if n > 0 {
      RecordsDepend(a, b, plans, n - 1);
    }
  }

  /** Before sending, the plans of a room are ready to be sent. */
  lemma PlansReady(room: RoomState, queries: nat -> Query)
    requires Core(room) && room.id <= PORT_MAX && room.station.tick < U32_MAX && TrackerRoom(room)
    ensures Sendable(PrepareDirtyGenerations(room), PlansOf(room, queries))
  {
    hide PrepareDirtyGenerations, Coherent, NextIdFresh, GenerationsBounded, DirtyTracked, Population,
      HasDirty, BlobsTyped;
    PrepareKeepsRest(room);
    PreparedLookupExact(room);
    hide LookupExact;
    PlansSound(PrepareDirtyGenerations(room), queries, |room.players|);
  }

  /** Recording what was sent keeps the room's invariant. */
  lemma SendKeepsCore(before: RoomState, after: RoomState)
    requires Core(before) && TrackerSound(after)
    requires after == before.(
               hub := after.hub, tracker := after.tracker, dirtyGenerations := after.dirtyGenerations)
    ensures Core(after)
  {
    hide TrackerSound, HasDirty, BlobsTyped;
    forall handle: EntityHandle ensures EntityAgrees(after, handle) {
      assert EntityAgrees(before, handle);
    }
  }

  lemma ViewersAreLive(room: RoomState)
    requires Core(room)
    ensures ViewersResolve(room)
  {
    hide Accounts, Coherent, NextIdFresh, GenerationsBounded, DirtyTracked;
    forall k | 0 <= k < |room.players| ensures room.station.IsLive(room.players[k].handle) {
      assert room.players[k].handle == room.entities[k];
    }
  }

  lemma ReplicationSucceeds(sim: Sim, queries: nat -> Query)
    requires Core(sim.room) && sim.room.id <= PORT_MAX && HubIdle(sim.room)
    requires sim.room.station.tick < U32_MAX && TrackerRoom(sim.room)
    requires |sim.room.station.records| <= |sim.room.dirtyGenerations|
    ensures var replicated := ReplicateRoom(sim, queries);
            && replicated.Some? && Core(replicated.value.room) && Replicated(sim, replicated.value, queries)
  {
    hide SendPlansUpTo, ReceiveUpTo, ClearUpTo, Core, Sendable, TrackerRoom, PrepareDirtyGenerations,
      ViewersResolve, PlansUpTo;
    var players := |sim.room.players|;
    ViewersAreLive(sim.room);
    PrepareKeepsRest(sim.room);
    PlansReady(sim.room, queries);
    CoreKeepsLookupSize(sim.room);
    var (prepared, plans) := Planned(sim, queries);
    SelectedWithinParts(prepared.room, plans, players);
    SendSucceeds(prepared, plans, players);
    var sent := SendPlansUpTo(prepared, plans, players).value;
    SendableParts(sent.room, plans);
    ReceiveSucceeds(sent, plans, players);
    var received := ReceiveUpTo(sent, players).value;
    RecordsDepend(sim.room, prepared.room, plans, players);
    SameTracker(sent.room, received.room);
    SendKeepsCore(sim.room, received.room);
    ClearLeavesNothingDirty(received.room);
  }

  lemma SameTracker(before: RoomState, after: RoomState)
    requires TrackerSound(before) && after == before.(hub := after.hub)
    ensures TrackerSound(after)
  {
  }

  lemma SendableParts(room: RoomState, plans: seq<seq<EntityHandle>>)
    requires Sendable(room, plans)
    ensures Layout(room) && TrackerSound(room)
  {
  }

  lemma CoreKeepsLookupSize(room: RoomState)
    requires Core(room) && |room.station.records| <= |room.dirtyGenerations|
    ensures |PrepareDirtyGenerations(room).dirtyGenerations| == |room.dirtyGenerations|
  {
    LookupArrayKeepsSize(room);
  }
}
