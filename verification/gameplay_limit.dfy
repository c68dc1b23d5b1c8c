/** How long a run can be: the replication tracker is never pruned, so a room that lives too long
    fills it. The bound under which every run succeeds is exact. */
module GameplayLimit {
  import opened Collections
  import opened MachineInts
  import opened Options
  import opened StationTable
  import opened FrameEncoding
  import opened ReplicationTracking
  import opened RoomSpec
  import opened RoomAccounts
  import opened RoomGrowth
  import opened RoomInvariants
  import opened RoomSteps
  import opened RoomFrames
  import opened RoomProjectiles
  import opened RoomReplication
  import opened RoomCreation
  import opened GameplaySpec
  import opened GameplayPhases
  import opened GameplayWorld
  import opened GameplayRun

  // ----- an index that reports everything -----

  const NPC_STRIDE: nat := 17
  const FIRST_NPC: nat := MIN_PLAYERS

  /** Entities per room up to which the bound on a run is shown to be exact. */
  const EXACT_ENTITIES: nat := 2000

  /** Slots of the first room that the index reports before all others: those of projectiles, and
      of the entities whose turn to move it is. In the first tick, when everything is listed and
      plans are full, these are the players and the entities that need not move later. */
  predicate Ranked(entitiesPerRoom: nat, tick: nat, slot: nat) {
    || slot >= entitiesPerRoom
    || if tick == 0 then
         slot < FIRST_NPC + NPC_STRIDE || (slot - FIRST_NPC) % NPC_STRIDE == NPC_STRIDE - 1
       else
         FIRST_NPC + NPC_STRIDE * tick <= slot < FIRST_NPC + NPC_STRIDE * tick + NPC_STRIDE
  }

  /** The slots below `n` that are ranked, or those that are not, in order. */
  function SlotsBelow(entitiesPerRoom: nat, tick: nat, n: nat, ranked: bool): (slots: seq<nat>)
    ensures forall slot: nat :: slot in slots <==> slot < n && Ranked(entitiesPerRoom, tick, slot) == ranked
    ensures Distinct(slots)
  {
    if n == 0 then []
    else
      var before := SlotsBelow(entitiesPerRoom, tick, n - 1, ranked);
      if Ranked(entitiesPerRoom, tick, n - 1) == ranked then before + [n - 1] else before
  }

  /** Ranked slots among the first `n`, at most. */
  function RankedBound(entitiesPerRoom: nat, tick: nat, n: nat): nat {
    var entities := Min(n, entitiesPerRoom);
    SatSub(n, entitiesPerRoom)
    + if tick == 0 then
        Min(entities, FIRST_NPC + NPC_STRIDE)
        + SatSub(SatSub(entities, FIRST_NPC) / NPC_STRIDE, 1)
      else Min(SatSub(entities, FIRST_NPC + NPC_STRIDE * tick), NPC_STRIDE)
  }

  lemma {:induction false} RankedBounded(entitiesPerRoom: nat, tick: nat, n: nat)
    ensures |SlotsBelow(entitiesPerRoom, tick, n, true)| <= RankedBound(entitiesPerRoom, tick, n)
  {
    if n > 0 {
      RankedBounded(entitiesPerRoom, tick, n - 1);
      RankedBoundStep(entitiesPerRoom, tick, n - 1);
    }
  }

  lemma RankedBoundStep(entitiesPerRoom: nat, tick: nat, n: nat)
    ensures RankedBound(entitiesPerRoom, tick, n) + (if Ranked(entitiesPerRoom, tick, n) then 1 else 0)
            <= RankedBound(entitiesPerRoom, tick, n + 1)
  {
  }

  lemma RankedFew(entitiesPerRoom: nat, tick: nat)
    requires entitiesPerRoom <= EXACT_ENTITIES
    ensures |SlotsBelow(entitiesPerRoom, tick, entitiesPerRoom + 10, true)| < PLAN_LIMIT
  {
    RankedBounded(entitiesPerRoom, tick, entitiesPerRoom + 10);
  }

  function HandleAt(slots: seq<nat>, generations: nat, k: nat): EntityHandle
    requires generations > 0 && k < |slots| * generations
  {
    SlotBelow(k, |slots|, generations);
    EntityHandle(slots[k / generations], k % generations)
  }

  lemma SlotBelow(k: nat, n: nat, generations: nat)
    requires generations > 0 && k < n * generations
    ensures k / generations < n
  {
    DivFits(k, generations, n);
  }

  /** All handles of some slots, slot by slot. */
  function HandlesOf(slots: seq<nat>, generations: nat): seq<EntityHandle>
    requires generations > 0
  {
    seq(|slots| * generations, k requires 0 <= k < |slots| * generations => HandleAt(slots, generations, k))
  }

  lemma HandlesDistinct(slots: seq<nat>, generations: nat)
    requires generations > 0 && Distinct(slots)
    ensures Distinct(HandlesOf(slots, generations))
  {
    hide HandleAt;
    forall i, j | 0 <= i < j < |slots| * generations
      ensures HandleAt(slots, generations, i) != HandleAt(slots, generations, j)
    {
      HandlesDiffer(slots, generations, i, j);
    }
  }

  lemma HandlesDiffer(slots: seq<nat>, generations: nat, i: nat, j: nat)
    requires generations > 0 && Distinct(slots) && i < j < |slots| * generations
    ensures HandleAt(slots, generations, i) != HandleAt(slots, generations, j)
  {
    SlotBelow(i, |slots|, generations);
    SlotBelow(j, |slots|, generations);
    PartsDiffer(i, j, generations);
    var p, q := i / generations, j / generations;
    assert p < q ==> slots[p] != slots[q];
    assert q < p ==> slots[q] != slots[p];
  }

  lemma PartsDiffer(i: nat, j: nat, m: nat)
    requires m > 0 && i != j
    ensures i / m != j / m || i % m != j % m
  {
    assert i == i / m * m + i % m && j == j / m * m + j % m;
  }

  lemma HandleListed(slots: seq<nat>, generations: nat, handle: EntityHandle)
    requires generations > 0 && handle.generation < generations && handle.index in slots
    ensures handle in HandlesOf(slots, generations)
  {
    var s :| 0 <= s < |slots| && slots[s] == handle.index;
    var k := s * generations + handle.generation;
    DivModUnique(k, generations, s, handle.generation);
    ProductMonotone(s + 1, |slots|, generations);
    assert (s + 1) * generations == s * generations + generations;
    assert HandlesOf(slots, generations)[k] == handle;
  }

  lemma HandlesHaveSlots(slots: seq<nat>, generations: nat)
    requires generations > 0
    ensures forall handle | handle in HandlesOf(slots, generations) :: handle.index in slots
  {
    forall k: nat | k < |slots| * generations ensures HandleAt(slots, generations, k).index in slots {
      SlotBelow(k, |slots|, generations);
    }
  }

  /** All handles of the slots below `n`, the ranked slots first. */
  function AllHandles(entitiesPerRoom: nat, tick: nat, n: nat, generations: nat): (handles: Query)
    requires generations > 0
  {
    var first := HandlesOf(SlotsBelow(entitiesPerRoom, tick, n, true), generations);
    var rest := HandlesOf(SlotsBelow(entitiesPerRoom, tick, n, false), generations);
    AllHandlesDistinct(entitiesPerRoom, tick, n, generations);
    first + rest
  }

  lemma AllHandlesDistinct(entitiesPerRoom: nat, tick: nat, n: nat, generations: nat)
    requires generations > 0
    ensures Distinct(
              HandlesOf(SlotsBelow(entitiesPerRoom, tick, n, true), generations)
              + HandlesOf(SlotsBelow(entitiesPerRoom, tick, n, false), generations))
  {
    var first := SlotsBelow(entitiesPerRoom, tick, n, true);
    var rest := SlotsBelow(entitiesPerRoom, tick, n, false);
    hide HandlesOf, SlotsBelow, Ranked;
    HandlesDistinct(first, generations);
    HandlesDistinct(rest, generations);
    HandlesHaveSlots(first, generations);
    HandlesHaveSlots(rest, generations);
    DistinctApart(HandlesOf(first, generations), HandlesOf(rest, generations));
  }

  lemma DistinctApart(first: seq<EntityHandle>, rest: seq<EntityHandle>)
    requires Distinct(first) && Distinct(rest)
    requires forall handle | handle in first :: handle !in rest
    ensures Distinct(first + rest)
  {
    forall i, j | 0 <= i < j < |first| + |rest| ensures (first + rest)[i] != (first + rest)[j] {
      if i < |first| <= j {
        assert first[i] in first && rest[j - |first|] in rest;
      }
    }
  }

  /** Every handle is reported. */
  lemma AllHandlesListed(entitiesPerRoom: nat, tick: nat, n: nat, generations: nat, handle: EntityHandle)
    requires generations > 0 && handle.index < n && handle.generation < generations
    ensures handle in AllHandles(entitiesPerRoom, tick, n, generations)
    ensures Ranked(entitiesPerRoom, tick, handle.index) ==>
              handle in HandlesOf(SlotsBelow(entitiesPerRoom, tick, n, true), generations)
  {
    hide HandlesOf, Ranked;
    HandleListed(
      SlotsBelow(entitiesPerRoom, tick, n, Ranked(entitiesPerRoom, tick, handle.index)), generations, handle);
  }

  /** What the index reports to every viewer: all handles, in an order that depends on the tick. */
  function Reported(entitiesPerRoom: nat, tick: nat): Query {
    AllHandles(entitiesPerRoom, tick, entitiesPerRoom + 10, FULL_TRACKER_AGE + 2)
  }

  function Everything(config: Config): Queries {
    (tick, room, viewer) => Reported(config.entitiesPerRoom, tick)
  }

  // ----- what the tracker then holds -----

  ghost predicate TrackedByAll(room: RoomState, handle: EntityHandle) {
    forall k | 0 <= k < |room.players| :: TrackKey(room.players[k].client, handle) in room.tracker.records
  }

  /** A permanent entity whose turn to move has not come in the first `n` ticks. */
  predicate Waiting(entitiesPerRoom: nat, n: nat, handle: EntityHandle) {
    && handle.generation == 0 && FIRST_NPC + NPC_STRIDE * n <= handle.index < entitiesPerRoom
    && (handle.index - FIRST_NPC) % NPC_STRIDE != NPC_STRIDE - 1
  }

  /** After `n` ticks every handle given out was sent to every client, or waits for its turn. At
      the start everything is listed. */
  ghost predicate Covered(room: RoomState, entitiesPerRoom: nat, n: nat) {
    forall handle | Given(room.station, handle) ::
      if n == 0 then handle in room.dirtyHandles
      else TrackedByAll(room, handle) || Waiting(entitiesPerRoom, n, handle)
  }

  /** Before the replication of tick `n` what is not yet tracked is listed and ranked, or waits. */
  ghost predicate Pending(room: RoomState, entitiesPerRoom: nat, n: nat) {
    forall handle | Given(room.station, handle) ::
      || TrackedByAll(room, handle) || Waiting(entitiesPerRoom, n + 1, handle)
      || (handle in room.dirtyHandles && Ranked(entitiesPerRoom, n, handle.index))
  }

  ghost predicate FullyTracked(room: RoomState) {
    forall handle | Given(room.station, handle) :: TrackedByAll(room, handle)
  }

  /** After enough ticks nobody waits any more. */
  lemma NobodyWaits(room: RoomState, entitiesPerRoom: nat, n: nat)
    requires Covered(room, entitiesPerRoom, n) && n > 0 && entitiesPerRoom <= FIRST_NPC + NPC_STRIDE * n
    ensures FullyTracked(room)
  {
    hide Given, TrackedByAll;
  }

  lemma GrowthStaysCovered(before: RoomState, after: RoomState, entitiesPerRoom: nat, n: nat)
    requires Covered(before, entitiesPerRoom, n) && Grows(before, after) && NpcsListed(after, n)
    requires Core(before) && Core(after) && after.id == 0 && |after.entities| == entitiesPerRoom
    requires NPC_STRIDE * n <= U64_MAX
    ensures Pending(after, entitiesPerRoom, n)
  {
    hide Core, Given, TrackedByAll, NpcsListed, Waiting, Ranked, Covered;
    forall handle | Given(after.station, handle)
      ensures || TrackedByAll(after, handle) || Waiting(entitiesPerRoom, n + 1, handle)
              || (handle in after.dirtyHandles && Ranked(entitiesPerRoom, n, handle.index))
    {
      if handle.index < entitiesPerRoom {
        PermanentGiven(before, after, handle);
        PermanentCovered(before, after, entitiesPerRoom, n, handle);
      } else {
        ProjectileCovered(before, after, entitiesPerRoom, n, handle);
      }
    }
  }

  lemma PermanentGiven(before: RoomState, after: RoomState, handle: EntityHandle)
    requires Core(before) && Core(after) && after.entities == before.entities
    requires handle.index < |after.entities| && Given(after.station, handle)
    ensures handle.generation == 0 && Given(before.station, handle)
  {
    hide Accounts, Coherent, DirtyTracked, DirtyLive, NextIdFresh;
    assert after.station.IsLive(after.entities[handle.index]);
    assert before.station.IsLive(before.entities[handle.index]);
  }

  lemma PermanentCovered(
      before: RoomState, after: RoomState, entitiesPerRoom: nat, n: nat, handle: EntityHandle)
    requires Covered(before, entitiesPerRoom, n) && Grows(before, after) && NpcsListed(after, n)
    requires Core(after) && after.id == 0 && |after.entities| == entitiesPerRoom
    requires NPC_STRIDE * n <= U64_MAX
    requires handle.generation == 0 && handle.index < entitiesPerRoom && Given(before.station, handle)
    ensures || TrackedByAll(after, handle) || Waiting(entitiesPerRoom, n + 1, handle)
            || (handle in after.dirtyHandles && Ranked(entitiesPerRoom, n, handle.index))
  {
    hide Core, Given, NpcsListed;
    if n > 0 && Waiting(entitiesPerRoom, n, handle) && !Waiting(entitiesPerRoom, n + 1, handle) {
      TurnIsListed(after, n, handle);
    }
  }

  lemma TurnIsListed(room: RoomState, tick: nat, handle: EntityHandle)
    requires NpcsListed(room, tick) && Core(room) && room.id == 0 && NPC_STRIDE * tick <= U64_MAX
    requires FIRST_NPC + NPC_STRIDE * tick <= handle.index < FIRST_NPC + NPC_STRIDE * tick + 16
    requires handle.index < |room.entities| && handle.generation == 0
    ensures handle in room.dirtyHandles
  {
    hide Core, NpcsListed, NpcIndex;
    RoomPlayers(room);
    var offset := handle.index - FIRST_NPC - NPC_STRIDE * tick;
    TurnIndex(room, tick, offset);
    ListedAt(room, tick, offset);
  }

  lemma TurnIndex(room: RoomState, tick: nat, offset: nat)
    requires |room.players| == FIRST_NPC && NPC_STRIDE * tick <= U64_MAX
    requires FIRST_NPC + NPC_STRIDE * tick + offset < |room.entities|
    ensures NpcIndex(room, tick, offset) == FIRST_NPC + NPC_STRIDE * tick + offset
    ensures offset < NpcCount(room)
  {
    DivModUnique(NPC_STRIDE * tick + offset, NpcCount(room), 0, NPC_STRIDE * tick + offset);
  }

  lemma ListedAt(room: RoomState, tick: nat, offset: nat)
    requires NpcsListed(room, tick) && room.id == 0 && offset < 16 && offset < NpcCount(room)
    ensures EntityHandle(NpcIndex(room, tick, offset), 0) in room.dirtyHandles
  {
  }

  lemma RoomPlayers(room: RoomState)
    requires Core(room)
    ensures |room.players| == PlayerCount(room.id) && |room.players| <= |room.entities|
  {
  }

  lemma ProjectileCovered(
      before: RoomState, after: RoomState, entitiesPerRoom: nat, n: nat, handle: EntityHandle)
    requires Covered(before, entitiesPerRoom, n) && Grows(before, after)
    requires handle.index >= entitiesPerRoom && Given(after.station, handle)
    ensures TrackedByAll(after, handle)
            || (handle in after.dirtyHandles && Ranked(entitiesPerRoom, n, handle.index))
  {
    hide Given;
  }

  /** Sends that succeed record every plan, within the tracker's bound. */
  lemma {:induction false} SentIsTracked(sim: Sim, plans: seq<seq<EntityHandle>>, n: nat)
    requires n <= |sim.room.players| && n <= |plans| && SendPlansUpTo(sim, plans, n).Some?
    requires BlobsTyped(sim.room.components) && sim.room.tracker.maxEntries < U64_MAX
    requires forall k | 0 <= k < n :: PlanSound(sim.room, plans[k])
    ensures var after := SendPlansUpTo(sim, plans, n).value.room;
            && after.tracker.records == sim.room.tracker.records + RecordsUpTo(sim.room, plans, n)
            && after.tracker.maxEntries == sim.room.tracker.maxEntries
            && (n > 0 ==> |after.tracker.records| <= sim.room.tracker.maxEntries)
  {
    hide SendPlan, BlobsTyped, PlanSound;
    if n > 0 {
      SentIsTracked(sim, plans, n - 1);
      var before := SendPlansUpTo(sim, plans, n - 1).value;
      assert PlanSound(sim.room, plans[n - 1]);
      SameSoundness(sim.room, before.room, plans[n - 1]);
      OneIsTracked(before, n - 1, plans[n - 1]);
    }
  }

  lemma SameSoundness(before: RoomState, after: RoomState, plan: seq<EntityHandle>)
    requires PlanSound(before, plan) && after.station == before.station && after.components == before.components
    ensures PlanSound(after, plan)
  {
  }

  lemma OneIsTracked(sim: Sim, player: nat, plan: seq<EntityHandle>)
    requires player < |sim.room.players| && SendPlan(sim, player, plan).Some?
    requires BlobsTyped(sim.room.components) && PlanSound(sim.room, plan)
    requires sim.room.tracker.maxEntries < U64_MAX
    ensures var after := SendPlan(sim, player, plan).value.room;
            && after.tracker.records
               == sim.room.tracker.records + KeysOf(sim.room.players[player].client, plan)
            && after.tracker.maxEntries == sim.room.tracker.maxEntries
            && |after.tracker.records| <= sim.room.tracker.maxEntries
  {
    hide BlobsTyped, Encode, HasDirty, Distinct;
    var client := sim.room.players[player].client;
    FrameFits(sim.room, plan);
    RecordsExactlyWhatFits(sim.room.tracker, client, plan);
    RecordedPlanIsAcknowledged(
      sim.room.tracker.RecordPlanSent(client, plan).value, client, plan, |plan|);
  }

  // ----- plans that name all ranked entities -----

  function SlotSet(slots: seq<nat>): set<nat> { set slot | slot in slots }

  function PlanSlots(plan: seq<EntityHandle>): set<nat> { set handle | handle in plan :: handle.index }

  /** Live handles of different entities are in different slots. */
  lemma {:induction false} PlanSlotsSize(station: Station, plan: seq<EntityHandle>)
    requires Distinct(plan) && forall handle | handle in plan :: station.IsLive(handle)
    ensures |PlanSlots(plan)| == |plan|
  {
    if plan != [] {
      var front, last := plan[..|plan| - 1], plan[|plan| - 1];
      PlanSlotsSize(station, front);
      assert plan == front + [last];
      forall handle | handle in front ensures handle.index != last.index {
        assert station.IsLive(handle) && station.IsLive(last);
      }
      assert PlanSlots(plan) == PlanSlots(front) + {last.index};
    }
  }

  lemma {:induction false} SlotSetSize(slots: seq<nat>)
    ensures |SlotSet(slots)| <= |slots|
  {
    if slots != [] {
      var front, last := slots[..|slots| - 1], slots[|slots| - 1];
      SlotSetSize(front);
      assert slots == front + [last];
      assert SlotSet(slots) == SlotSet(front) + {last};
    }
  }

  lemma PlanWithinSlots(station: Station, plan: seq<EntityHandle>, slots: seq<nat>)
    requires Distinct(plan) && forall handle | handle in plan :: station.IsLive(handle)
    requires forall handle | handle in plan :: handle.index in slots
    ensures |plan| <= |slots|
  {
    PlanSlotsSize(station, plan);
    SlotSetSize(slots);
    SubsetSize(PlanSlots(plan), SlotSet(slots));
  }

  lemma {:induction false} PlanKeeps(room: RoomState, candidates: seq<EntityHandle>, m: nat, n: nat)
    requires m <= n <= |candidates|
    ensures PlanUpTo(room, candidates, m) <= PlanUpTo(room, candidates, n)
    decreases n
  {
    hide Eligible;
    if m < n {
      PlanKeeps(room, candidates, m, n - 1);
    }
  }

  /** The ranked slots cannot fill a plan, so every listed entity in one of them is in every
      plan. */
  lemma PlanNamesRanked(
      room: RoomState, entitiesPerRoom: nat, tick: nat, query: Query, k: nat, handle: EntityHandle)
    requires k < |room.players| && LookupExact(room) && ListedDirty(room)
    requires entitiesPerRoom <= EXACT_ENTITIES && query == Reported(entitiesPerRoom, tick)
    requires room.players[k].handle in query
    requires handle in room.dirtyHandles && room.station.IsLive(handle)
    requires handle.index < entitiesPerRoom + 10 && handle.generation < FULL_TRACKER_AGE + 2
    requires Ranked(entitiesPerRoom, tick, handle.index)
    ensures handle in PlanFor(room, k, query)
  {
    hide LookupExact, ListedDirty, Ranked, PlanUpTo, HandlesOf, SlotsBelow, AllHandles, Reported;
    var slots := SlotsBelow(entitiesPerRoom, tick, entitiesPerRoom + 10, true);
    var first := HandlesOf(slots, FULL_TRACKER_AGE + 2);
    AllHandlesListed(entitiesPerRoom, tick, entitiesPerRoom + 10, FULL_TRACKER_AGE + 2, handle);
    RankedFew(entitiesPerRoom, tick);
    HandlesHaveSlots(slots, FULL_TRACKER_AGE + 2);
    RankedReportedFirst(entitiesPerRoom, tick);
    PlanNamesFirst(room, query, |first|, slots, handle);
  }

  lemma RankedReportedFirst(entitiesPerRoom: nat, tick: nat)
    ensures HandlesOf(SlotsBelow(entitiesPerRoom, tick, entitiesPerRoom + 10, true), FULL_TRACKER_AGE + 2)
            <= Reported(entitiesPerRoom, tick)
  {
    hide SlotsBelow, HandlesOf;
  }

  /** A listed entity among the first candidates is planned if their slots cannot fill a plan. */
  lemma PlanNamesFirst(room: RoomState, query: Query, n: nat, slots: seq<nat>, handle: EntityHandle)
    requires n <= |query| && LookupExact(room) && ListedDirty(room) && |slots| < PLAN_LIMIT
    requires forall candidate | candidate in query[..n] :: candidate.index in slots
    requires handle in query[..n] && handle in room.dirtyHandles && room.station.IsLive(handle)
    ensures handle in PlanUpTo(room, query, |query|)
  {
    hide LookupExact, ListedDirty, PlanUpTo, HasDirty;
    var plan := PlanUpTo(room, query, n);
    PlanIsSound(room, query, n);
    PlanIsComplete(room, query, n);
    PlanWithinSlots(room.station, plan, slots);
    PlanKeeps(room, query, n, |query|);
  }

  lemma {:induction false} RecordsHold(
      room: RoomState, plans: seq<seq<EntityHandle>>, n: nat, k: nat, handle: EntityHandle)
    requires k < n <= |plans| && n <= |room.players| && handle in plans[k]
    ensures TrackKey(room.players[k].client, handle) in RecordsUpTo(room, plans, n)
  {
    if k < n - 1 {
      RecordsHold(room, plans, n - 1, k, handle);
    }
  }

  /** Past handles: those below their slot's generation. */
  function PastHandles(generations: seq<nat>, n: nat): set<EntityHandle>
    requires n <= |generations|
  {
    if n == 0 then {} else PastHandles(generations, n - 1) + SlotHandles(n - 1, generations[n - 1])
  }

  lemma {:induction false} PastHandle(generations: seq<nat>, n: nat, handle: EntityHandle)
    requires n <= |generations|
    ensures handle in PastHandles(generations, n)
            <==> handle.index < n && handle.generation < generations[handle.index]
  {
    if n > 0 {
      PastHandle(generations, n - 1, handle);
      SlotHandlesAre(n - 1, generations[n - 1]);
      hide SlotHandles;
    }
  }

  lemma {:induction false} PastHandlesSize(generations: seq<nat>, n: nat)
    requires n <= |generations|
    ensures |PastHandles(generations, n)| + n == IssuedSum(generations, n)
  {
    if n > 0 {
      PastHandlesSize(generations, n - 1);
      PastHandlesStep(generations, n - 1);
    }
  }

  lemma PastHandlesStep(generations: seq<nat>, n: nat)
    requires n < |generations|
    ensures |PastHandles(generations, n + 1)| == |PastHandles(generations, n)| + generations[n]
  {
    hide SlotHandles;
    var before, slot := PastHandles(generations, n), SlotHandles(n, generations[n]);
    SlotHandlesSize(n, generations[n]);
    SlotHandlesAre(n, generations[n]);
    forall handle | handle in before ensures handle !in slot {
      PastHandle(generations, n, handle);
    }
    DisjointSize(before, slot);
  }

  lemma PastHandlesAre(generations: seq<nat>, n: nat)
    requires n <= |generations|
    ensures forall handle :: handle in PastHandles(generations, n)
                             <==> handle.index < n && handle.generation < generations[handle.index]
    ensures |PastHandles(generations, n)| + n == IssuedSum(generations, n)
  {
    hide PastHandles;
    PastHandlesSize(generations, n);
    forall handle
      ensures handle in PastHandles(generations, n)
              <==> handle.index < n && handle.generation < generations[handle.index]
    {
      PastHandle(generations, n, handle);
    }
  }

  /** A fully tracked room has a record per client for every handle it issued. */
  lemma FullyTrackedSize(room: RoomState, after: RoomState)
    requires Core(room) && room.station.free == [] && room.id <= PORT_MAX
    requires FullyTracked(after) && after.station == room.station && after.players == room.players
    ensures PlayerCount(room.id) * IssuedSum(room.station.generations, |room.station.generations|)
            <= |after.tracker.records|
  {
    hide Core, Given, PastHandles, AllKeys, RoomClientId, PlayerCount;
    var generations := room.station.generations;
    var past, live := PastHandles(generations, |generations|), room.index.Keys;
    PastHandlesAre(generations, |generations|);
    CoreCounts(room);
    forall handle | handle in live ensures handle !in past && Given(room.station, handle) {
      LiveIsGiven(room, handle);
    }
    forall handle | handle in past ensures Given(room.station, handle) {
      PastIsGiven(room.station, handle);
    }
    DisjointSize(past, live);
    var first, players := RoomClientId(room.id, 0), PlayerCount(room.id);
    AllKeysAre(first, players, past + live);
    forall key | key in AllKeys(first, players, past + live) ensures key in after.tracker.records {
      KeyTracked(room, after, key);
    }
    SubsetSize(AllKeys(first, players, past + live), after.tracker.records);
    assert |room.index| == |live|;
  }

  lemma KeyTracked(room: RoomState, after: RoomState, key: TrackKey)
    requires Core(room) && room.id <= PORT_MAX && FullyTracked(after) && Given(after.station, key.handle)
    requires after.station == room.station && after.players == room.players
    requires RoomClientId(room.id, 0) <= key.client < RoomClientId(room.id, 0) + PlayerCount(room.id)
    ensures key in after.tracker.records
  {
    hide Core, Given, RoomClientId, PlayerCount;
    var k := key.client - RoomClientId(room.id, 0);
    PlayerClient(room, k);
    assert TrackedByAll(after, key.handle);
    assert key == TrackKey(after.players[k].client, key.handle);
  }

  lemma CoreCounts(room: RoomState)
    requires Core(room) && room.station.free == []
    ensures |room.index| == |room.station.generations| && Coherent(room) && |room.players| == PlayerCount(room.id)
  {
  }

  lemma LiveIsGiven(room: RoomState, handle: EntityHandle)
    requires Core(room) && handle in room.index
    ensures Given(room.station, handle)
    ensures handle.index < |room.station.generations|
            && handle.generation == room.station.generations[handle.index]
  {
    hide Accounts;
    assert EntityAgrees(room, handle);
  }

  lemma PastIsGiven(station: Station, handle: EntityHandle)
    requires handle.index < |station.generations| && handle.generation < station.generations[handle.index]
    ensures Given(station, handle)
  {
  }

  lemma PlayerClient(room: RoomState, k: nat)
    requires Core(room) && k < PlayerCount(room.id) && room.id <= PORT_MAX
    ensures k < |room.players| && room.players[k].client == RoomClientId(room.id, 0) + k
  {
    PlayerCountBounded(room.id);
    ClientRange(room.id, k);
  }

  // ----- replication with such an index -----

  /** A replication that succeeds leaves every handle tracked by every client or waiting, and the
      tracker within its bound. */
  lemma ReplicationTracks(sim: Sim, queries: nat -> Query, entitiesPerRoom: nat, tick: nat)
    requires Core(sim.room) && Pending(sim.room, entitiesPerRoom, tick) && sim.room.station.tick < U32_MAX
    requires entitiesPerRoom <= EXACT_ENTITIES && sim.room.tracker.maxEntries < U64_MAX
    requires forall k | 0 <= k < |sim.room.players| ::
               queries(k) == Reported(entitiesPerRoom, tick) && sim.room.players[k].handle in queries(k)
    requires forall handle | sim.room.station.IsLive(handle) ::
               handle.index < entitiesPerRoom + 10 && handle.generation < FULL_TRACKER_AGE + 2
    requires ReplicateRoom(sim, queries).Some?
    ensures var after := ReplicateRoom(sim, queries).value.room;
            && Covered(after, entitiesPerRoom, tick + 1)
            && after.station == sim.room.station && after.players == sim.room.players
            && |after.tracker.records| <= sim.room.tracker.maxEntries
  {
    hide Core, PrepareDirtyGenerations, SendPlansUpTo, ReceiveUpTo, ClearUpTo, PlansUpTo, LookupExact,
      PlanFor, ViewersResolve, Given, Ranked, Reported, Waiting;
    var players := |sim.room.players|;
    var prepared, plans := Planned(sim, queries).0, Planned(sim, queries).1;
    PrepareKeepsRest(sim.room);
    PreparedLookupExact(sim.room);
    CoreForPlans(sim.room, prepared.room);
    PlansSound(prepared.room, queries, players);
    SentIsTracked(prepared, plans, players);
    var after := ReplicateRoom(sim, queries).value.room;
    forall handle | Given(after.station, handle)
      ensures TrackedByAll(after, handle) || Waiting(entitiesPerRoom, tick + 1, handle)
    {
      if handle in sim.room.dirtyHandles && Ranked(entitiesPerRoom, tick, handle.index) {
        forall k | 0 <= k < players ensures TrackKey(after.players[k].client, handle) in after.tracker.records {
          PlanNamesRanked(prepared.room, entitiesPerRoom, tick, queries(k), k, handle);
          RecordsHold(prepared.room, plans, players, k, handle);
        }
      } else {
        assert TrackedByAll(sim.room, handle) || Waiting(entitiesPerRoom, tick + 1, handle);
      }
    }
  }

  lemma CoreForPlans(room: RoomState, prepared: RoomState)
    requires Core(room) && prepared == room.(dirtyGenerations := prepared.dirtyGenerations)
    ensures ListedDirty(prepared) && BlobsTyped(prepared.components) && Coherent(prepared) && DirtyLive(room)
    ensures |room.players| > 0
  {
    hide IndexCounted, HandlesCounted, TrackerSound, HasDirty;
    SameViewsAgree(room, prepared);
    PlayerCountBounded(room.id);
  }

  // ----- runs -----

  /** Before replication the index reports all live entities of a room of some age. */
  lemma SimulatedIsReported(room: RoomState, config: Config, tick: nat)
    requires Simulated(room, 0, config.entitiesPerRoom, tick) && Sized(config)
    requires room.station.tick <= FULL_TRACKER_AGE + 1
    ensures room.tracker.maxEntries < U64_MAX
    ensures forall handle | room.station.IsLive(handle) ::
              handle.index < config.entitiesPerRoom + 10 && handle.generation < FULL_TRACKER_AGE + 2
    ensures forall k | 0 <= k < |room.players| :: room.station.IsLive(room.players[k].handle)
  {
    TrackerRoomExactly(room, 0, config.entitiesPerRoom, tick);
    hide TrackerRoom, TrackerSound, ListedDirty, BlobsTyped, HandlesCounted, Coherent,
      DirtyTracked, DirtyLive, NextIdFresh, HubIdle, SessionsBounded;
    SlotsWithinCapacity(room, room.station.tick);
    forall k | 0 <= k < |room.players| ensures room.station.IsLive(room.players[k].handle) {
      assert room.players[k].handle == room.entities[k];
    }
  }

  /** The first room's replication is the first of a tick. */
  lemma {:induction false} FirstRoomReplicates(world: World, queries: Queries, tick: nat, n: nat)
    requires 0 < n <= |world.rooms| && ReplicateUpTo(world, queries, tick, n).Some?
    ensures var sim := ReplicateRoom(SimOf(world, 0), RoomQueries(queries, tick, 0));
            && sim.Some? && ReplicateUpTo(world, queries, tick, n).value.rooms[0] == sim.value.room
  {
    hide ReplicateRoom, RoomQueries;
    if n > 1 {
      FirstRoomReplicates(world, queries, tick, n - 1);
    }
  }

  /** The first room before a tick's replication, when everything was reported so far. */
  lemma FirstRoomCovered(world: World, config: Config, tick: nat) returns (recreated: World, simulated: World)
    requires Sized(config) && tick < RECREATE_TICKS * config.rooms && tick + 1 < U32_MAX
    requires RunInvariant(world, config, tick) && Covered(world.rooms[0], config.entitiesPerRoom, tick)
    ensures SimulationParts(world, config, tick, recreated, simulated)
    ensures Pending(simulated.rooms[0], config.entitiesPerRoom, tick)
    ensures simulated.rooms[0].station.tick == tick + 1
    ensures Simulated(simulated.rooms[0], 0, config.entitiesPerRoom, tick)
  {
    hide Covered, Pending, Grows, AtBoundary, RouterIdle, Counted, SimulateTick, RecreateDue, RouterHolds,
      SimulationDone, LifecycleCounted, LifecycleOnly, JustCreated, VanishedSum, Simulated, RateOf, NpcsListed;
    recreated, simulated := SimulationTakenApart(world, config, tick);
    FirstRoomStays(config, tick);
    assert recreated.rooms[0] == world.rooms[0];
    FirstRoomAges(config, tick + 1);
    BoundaryRoom(world.rooms[0], config, tick);
    SimulatedParts(simulated.rooms[0], config, tick);
    GrowthStaysCovered(world.rooms[0], simulated.rooms[0], config.entitiesPerRoom, tick);
  }

  lemma BoundaryRoom(room: RoomState, config: Config, tick: nat)
    requires AtBoundary(room, 0, config.entitiesPerRoom, tick)
    ensures Core(room)
  {
  }

  lemma FirstRoomStays(config: Config, tick: nat)
    requires 0 < config.rooms && tick < RECREATE_TICKS * config.rooms
    ensures RecreatedRoom(config, tick) != Some(0)
  {
    if RecreatedRoom(config, tick).Some? {
      DivModUnique(tick / RECREATE_TICKS, config.rooms, 0, tick / RECREATE_TICKS);
    }
  }

  lemma StartIsCovered(room: RoomState, entitiesPerRoom: nat)
    requires AtBoundary(room, 0, entitiesPerRoom, 0) && JustCreated(room)
    ensures Covered(room, entitiesPerRoom, 0)
  {
    hide Accounts, Coherent, DirtyLive, NextIdFresh, HubIdle, SessionsBounded, Timeline;
    forall handle | Given(room.station, handle) ensures handle in room.dirtyHandles {
      assert room.station.generations[handle.index] == 0;
      assert handle == room.entities[handle.index];
    }
  }

  /** If everything is reported, the first room's tracker holds every handle issued so far, except
      of entities that wait for their turn, at every tick boundary up to the limit. */
  lemma {:induction false} FirstRoomTracked(config: Config, n: nat)
    requires Sized(config) && config.entitiesPerRoom <= EXACT_ENTITIES
    requires n <= FULL_TRACKER_AGE && n <= RECREATE_TICKS * config.rooms
    ensures RunUpTo(config, Everything(config), n).Some?
    ensures Covered(RunUpTo(config, Everything(config), n).value.rooms[0], config.entitiesPerRoom, n)
  {
    hide RunTick, RunInvariant, AllClean, Start, Covered, FullyTracked;
    RunSucceeds(config, Everything(config), n);
    if n == 0 {
      StartSucceeds(config);
      FirstRoomStarts(Start(config).value, config);
    } else {
      FirstRoomTracked(config, n - 1);
      RunSucceeds(config, Everything(config), n - 1);
      var before := RunUpTo(config, Everything(config), n - 1).value;
      WorldSize(before, config, n - 1);
      FirstRoomTick(before, config, n - 1);
    }
  }

  lemma FirstRoomStarts(world: World, config: Config)
    requires Sized(config) && AllAtBoundary(world, config, 0)
    requires forall i | 0 <= i < |world.rooms| :: JustCreated(world.rooms[i])
    ensures Covered(world.rooms[0], config.entitiesPerRoom, 0)
  {
    hide AtBoundary, JustCreated, Covered;
    StartIsCovered(world.rooms[0], config.entitiesPerRoom);
  }

  /** A tick that succeeds leaves the first room tracked but for the waiting, within its tracker's
      bound; so once nobody waits the room is young. */
  lemma FirstRoomTick(world: World, config: Config, tick: nat)
    requires Sized(config) && config.entitiesPerRoom <= EXACT_ENTITIES
    requires tick <= FULL_TRACKER_AGE && tick < RECREATE_TICKS * config.rooms
    requires RunInvariant(world, config, tick) && |world.rooms| > 0
    requires Covered(world.rooms[0], config.entitiesPerRoom, tick)
    requires RunTick(world, config, tick, Everything(config)).Some?
    ensures var after := RunTick(world, config, tick, Everything(config)).value;
            |after.rooms| > 0 && Covered(after.rooms[0], config.entitiesPerRoom, tick + 1)
    ensures config.rooms > 0
    ensures config.entitiesPerRoom <= FIRST_NPC + NPC_STRIDE * (tick + 1) ==>
              RateOf(0) * (tick + 1) <= TRACKED_SPARE
  {
    hide RunInvariant, Covered, Pending, FullyTracked, SimulateTick, ReplicateUpTo, Simulated, RoomQueries,
      ReplicateRoom, Reported, RecreateDue;
    var queries := Everything(config);
    var recreated, simulated := FirstRoomCovered(world, config, tick);
    var room := simulated.rooms[0];
    var asked := RoomQueries(queries, tick, 0);
    FirstRoomReplicates(simulated, queries, tick, |simulated.rooms|);
    QueriesEverything(config, tick);
    SimulatedIsReported(room, config, tick);
    SimulatedParts(room, config, tick);
    PlayersReported(room, config, tick);
    ReplicationTracks(SimOf(simulated, 0), asked, config.entitiesPerRoom, tick);
    var after := ReplicateRoom(SimOf(simulated, 0), asked).value.room;
    if config.entitiesPerRoom <= FIRST_NPC + NPC_STRIDE * (tick + 1) {
      NobodyWaits(after, config.entitiesPerRoom, tick + 1);
      FirstRoomWithin(room, after, config, tick);
    }
  }

  lemma QueriesEverything(config: Config, tick: nat)
    ensures forall viewer ::
              RoomQueries(Everything(config), tick, 0)(viewer) == Reported(config.entitiesPerRoom, tick)
  {
    hide Reported;
  }

  lemma PlayersReported(room: RoomState, config: Config, tick: nat)
    requires forall k | 0 <= k < |room.players| :: room.station.IsLive(room.players[k].handle)
    requires forall handle | room.station.IsLive(handle) ::
               handle.index < config.entitiesPerRoom + 10 && handle.generation < FULL_TRACKER_AGE + 2
    ensures forall k | 0 <= k < |room.players| ::
              room.players[k].handle in Reported(config.entitiesPerRoom, tick)
  {
    hide AllHandles;
    forall k | 0 <= k < |room.players|
      ensures room.players[k].handle in Reported(config.entitiesPerRoom, tick)
    {
      AllHandlesListed(
        config.entitiesPerRoom, tick, config.entitiesPerRoom + 10, FULL_TRACKER_AGE + 2,
        room.players[k].handle);
    }
  }

  lemma SimulatedParts(room: RoomState, config: Config, tick: nat)
    requires Simulated(room, 0, config.entitiesPerRoom, tick)
    ensures Core(room) && room.station.tick <= tick + 1
    ensures room.id == 0 && |room.entities| == config.entitiesPerRoom
  {
  }

  lemma SimulatedSlots(room: RoomState, config: Config, tick: nat)
    requires Simulated(room, 0, config.entitiesPerRoom, tick)
    ensures Core(room) && room.station.free == [] && room.id == 0
  {
  }

  /** A fully tracked room within its tracker's bound is young. */
  lemma FirstRoomWithin(room: RoomState, after: RoomState, config: Config, tick: nat)
    requires Simulated(room, 0, config.entitiesPerRoom, tick) && Sized(config)
    requires room.station.tick == tick + 1
    requires FullyTracked(after) && after.station == room.station && after.players == room.players
    requires |after.tracker.records| <= room.tracker.maxEntries
    ensures RateOf(0) * (tick + 1) <= TRACKED_SPARE
  {
    hide FullyTracked;
    TrackerRoomExactly(room, 0, config.entitiesPerRoom, tick);
    SimulatedSlots(room, config, tick);
    FullyTrackedSize(room, after);
    hide Simulated, IssuedSum, RateOf, PlayerCount;
    var players, spawned := PlayerCount(0), RateOf(0) * (tick + 1);
    ProductCancel(players, config.entitiesPerRoom + TRACKED_SPARE, config.entitiesPerRoom + spawned);
    if spawned > TRACKED_SPARE {
      ProductMonotone(config.entitiesPerRoom + TRACKED_SPARE + 1, config.entitiesPerRoom + spawned, players);
    }
  }

  /** Once a run fails it stays failed. */
  lemma {:induction false} FailureLasts(config: Config, queries: Queries, m: nat, n: nat)
    requires config.rooms > 0 && m <= n && RunUpTo(config, queries, n).Some?
    ensures RunUpTo(config, queries, m).Some?
    decreases n
  {
    hide RunTick, Start;
    if m < n {
      FailureLasts(config, queries, m, n - 1);
    }
  }

  /** A concrete way to fail: if the index reports everything, the tick after the limit fails in
      the first room. */
  lemma TrackerOverflows(config: Config, n: nat)
    requires Sized(config) && config.entitiesPerRoom <= EXACT_ENTITIES && !TrackersLast(config, n)
    ensures RunUpTo(config, Everything(config), n).None?
  {
    hide RunTick, RunInvariant, AllClean, Start, Covered, Everything;
    var queries := Everything(config);
    if RunUpTo(config, queries, n).Some? {
      FailureLasts(config, queries, FULL_TRACKER_AGE + 1, n);
      FirstRoomTracked(config, FULL_TRACKER_AGE);
      RunSucceeds(config, queries, FULL_TRACKER_AGE);
      var world := RunUpTo(config, queries, FULL_TRACKER_AGE).value;
      WorldSize(world, config, FULL_TRACKER_AGE);
      FirstRoomTick(world, config, FULL_TRACKER_AGE);
    }
  }

  lemma WorldSize(world: World, config: Config, n: nat)
    requires config.rooms > 0 && RunInvariant(world, config, n)
    ensures |world.rooms| == config.rooms
  {
  }

  /** The limit, exactly, for rooms of up to 2000 entities, four times the largest size that any
      request is granted: the first `n` ticks succeed whatever the spatial index reports if and
      only if the run is at most 520 ticks long or has at most 34 rooms. A longer run with more
      rooms can fail: the tracker of the first room, which launches two projectiles a tick and is
      recreated last, then has no entry left for a new one. */
  lemma TrackersLastExactly(config: Config, n: nat)
    requires Sized(config) && n < U32_MAX && config.entitiesPerRoom <= EXACT_ENTITIES
    ensures (forall queries: Queries :: RunUpTo(config, queries, n).Some?) <==> TrackersLast(config, n)
    ensures TrackersLast(config, n) <==> n <= 520 || config.rooms <= 34
  {
    hide RunUpTo, RunInvariant, AllClean;
    if TrackersLast(config, n) {
      forall queries: Queries ensures RunUpTo(config, queries, n).Some? {
        RunSucceeds(config, queries, n);
      }
    } else {
      TrackerOverflows(config, n);
      assert RunUpTo(config, Everything(config), n).None?;
    }
  }
}
