/** The projectile queue: expired projectiles leave from the front only, new ones enter at the
    back, and the room's slots never exceed its reservation. */
module RoomProjectiles {
  import opened MachineInts
  import opened Options
  import opened StationTable
  import opened RoomSpec
  import opened RoomAccounts
  import opened RoomInvariants

  // ----- expiry -----

  /** How many projectiles at the front have expired. */
  function ExpiredCount(projectiles: seq<Projectile>, now: nat): (count: nat)
    ensures count <= |projectiles|
  {
    if projectiles == [] || projectiles[0].expiresAt > now then 0
    else 1 + ExpiredCount(projectiles[1..], now)
  }

  ghost predicate SortedByExpiry(projectiles: seq<Projectile>) {
    forall i, j | 0 <= i < j < |projectiles| :: projectiles[i].expiresAt <= projectiles[j].expiresAt
  }

  /** In a queue sorted by expiry, looking at the front only finds every expired projectile. */
  lemma {:induction false} FrontExpiryIsExact(projectiles: seq<Projectile>, now: nat)
    requires SortedByExpiry(projectiles)
    ensures forall i | 0 <= i < |projectiles| ::
              projectiles[i].expiresAt <= now <==> i < ExpiredCount(projectiles, now)
  {
    if projectiles != [] && projectiles[0].expiresAt <= now {
      var tail := projectiles[1..];
      FrontExpiryIsExact(tail, now);
      forall i | 0 <= i < |projectiles|
        ensures projectiles[i].expiresAt <= now <==> i < ExpiredCount(projectiles, now)
      {
        if i > 0 {
          assert projectiles[i] == tail[i - 1];
        }
      }
    }
  }

  /** Generations of live projectiles were issued before the current tick. */
  ghost predicate ProjectilesOlder(room: RoomState) {
    forall j | 0 <= j < |room.projectiles| ::
      room.projectiles[j].handle.generation < room.station.tick
  }

  /** The outcome of removing the first `count` projectiles. */
  ghost predicate Removed(before: Sim, after: Sim, count: nat) {
    && count <= |before.room.projectiles|
    && after.room == before.room.(
         station := after.room.station, index := after.room.index,
         components := after.room.components, projectiles := before.room.projectiles[count..])
    && after.room.station.tick == before.room.station.tick
    && |after.room.station.records| == |before.room.station.records|
    && |after.room.station.free| == |before.room.station.free| + count
    && after.stats == before.stats.(
         entitiesDespawned := SatAdd(before.stats.entitiesDespawned, count))
  }

  /** Removing the front projectile removes a live entity from all three views. */
  lemma PopKeepsCore(sim: Sim)
    requires Core(sim.room) && DirtyPermanent(sim.room) && ProjectilesOlder(sim.room)
    requires sim.room.projectiles != [] && sim.room.station.tick <= U32_MAX
    ensures var after := PopProjectile(sim);
            && Core(after.room) && DirtyPermanent(after.room) && ProjectilesOlder(after.room)
            && Removed(sim, after, 1) && !after.room.station.IsLive(sim.room.projectiles[0].handle)
  {
    PopKeepsViews(sim);
    hide Accounts, Coherent, Population, DirtyLive, DirtyTracked, DirtyPermanent, ProjectilesOlder, Layout,
      SlotsCounted, NextIdFresh, GenerationsBounded, Removed, PopProjectile, Station.Valid, Station.Get;
    PopKeepsShape(sim);
  }

  /** What removing the front projectile does to the table, the identifiers and the queue. */
  lemma PopKeepsShape(sim: Sim)
    requires Core(sim.room) && DirtyPermanent(sim.room) && ProjectilesOlder(sim.room)
    requires sim.room.projectiles != [] && sim.room.station.tick <= U32_MAX
    ensures var after := PopProjectile(sim);
            && Layout(after.room) && SlotsCounted(after.room) && NextIdFresh(after.room)
            && GenerationsBounded(after.room) && DirtyPermanent(after.room) && ProjectilesOlder(after.room)
            && Population(after.room) && Removed(sim, after, 1)
  {
    hide Accounts, Coherent, DirtyTracked, DirtyLive;
    RemoveEffect(sim.room.station, sim.room.projectiles[0].handle);
    PopKeepsPopulation(sim.room, PopProjectile(sim).room);
  }

  lemma PopKeepsViews(sim: Sim)
    requires Core(sim.room) && DirtyPermanent(sim.room) && ProjectilesOlder(sim.room)
    requires sim.room.projectiles != [] && sim.room.station.tick <= U32_MAX
    ensures var after := PopProjectile(sim);
            && Coherent(after.room) && DirtyLive(after.room) && DirtyTracked(after.room)
            && after.room.station.Valid() && Accounts(after.room)
            && !after.room.station.IsLive(sim.room.projectiles[0].handle)
            && sim.room.station.IsLive(sim.room.projectiles[0].handle)
            && forall other | other != sim.room.projectiles[0].handle ::
                 after.room.station.Get(other) == sim.room.station.Get(other)
  {
    hide Accounts;
    var room := sim.room;
    var handle := room.projectiles[0].handle;
    RemoveEffect(room.station, handle);
    var after := PopProjectile(sim).room;
    assert EntityAgrees(room, handle);
    PopKeepsAccounts(sim);
    forall other: EntityHandle ensures EntityAgrees(after, other) {
      assert EntityAgrees(room, other);
    }
    forall dirty | dirty in after.dirtyHandles ensures after.station.IsLive(dirty) {
      assert dirty in room.entities;
      assert dirty != handle;
    }
  }

  lemma PopKeepsPopulation(before: RoomState, after: RoomState)
    requires Layout(before) && Population(before) && before.projectiles != []
    requires after.id == before.id && after.entities == before.entities
    requires after.projectiles == before.projectiles[1..]
    requires forall other | other != before.projectiles[0].handle ::
               after.station.Get(other) == before.station.Get(other)
    ensures Population(after)
  {
    forall j | 0 <= j < |after.projectiles|
      ensures after.station.IsLive(after.projectiles[j].handle)
      ensures after.projectiles[j].handle.index >= |after.entities|
    {
      assert after.projectiles[j] == before.projectiles[j + 1];
    }
    forall j, k | 0 <= j < k < |after.projectiles|
      ensures after.projectiles[j].handle != after.projectiles[k].handle
    {
      assert after.projectiles[j] == before.projectiles[j + 1];
      assert after.projectiles[k] == before.projectiles[k + 1];
    }
  }

  /** Expiry removes exactly the expired front and makes each removed handle stale. */
  lemma {:induction false} ExpireSucceeds(sim: Sim)
    requires Core(sim.room) && DirtyPermanent(sim.room) && ProjectilesOlder(sim.room)
    requires sim.room.station.tick <= U32_MAX
    ensures var after := ExpireProjectiles(sim);
            && Core(after.room) && DirtyPermanent(after.room) && ProjectilesOlder(after.room)
            && Removed(sim, after, ExpiredCount(sim.room.projectiles, sim.room.station.tick))
    decreases |sim.room.projectiles|
  {
    if FrontExpired(sim.room) {
      PopKeepsCore(sim);
      ExpireSucceeds(PopProjectile(sim));
    }
  }

  // ----- spawning -----

  /** Ids and slots cannot run out within the run. */
  ghost predicate RoomToSpawn(room: RoomState, more: nat) {
    && room.id <= PORT_MAX && room.nextEntityLocal + more <= 0x100_0000_0000
    && |room.station.records| + more <= U32_MAX
  }

  lemma IdsIncrease(room: nat, a: nat, b: nat)
    requires room <= PORT_MAX && a < b <= 0x100_0000_0001
    ensures RoomEntityId(room, a) < RoomEntityId(room, b)
  {
  }

  /** The outcome of spawning `count` projectiles. */
  ghost predicate Launched(before: Sim, after: Sim, count: nat) {
    && after.room == before.room.(
         station := after.room.station, index := after.room.index,
         components := after.room.components, projectiles := after.room.projectiles,
         nextEntityLocal := before.room.nextEntityLocal + count,
         dirtyHandles := after.room.dirtyHandles)
    && after.room.station.tick == before.room.station.tick
    && |after.room.projectiles| == |before.room.projectiles| + count
    && after.room.projectiles[..|before.room.projectiles|] == before.room.projectiles
    && (forall j | |before.room.projectiles| <= j < |after.room.projectiles| ::
          after.room.projectiles[j].expiresAt == SatAdd(before.room.station.tick, PROJECTILE_TICKS))
    && |after.room.station.free| == SatSub(|before.room.station.free|, count)
    && after.stats == before.stats.(entitiesSpawned := SatAdd(before.stats.entitiesSpawned, count))
  }

  /** Entering a new live entity into all three views keeps them in agreement. */
  lemma SpawnEntityAgrees(room: RoomState, local: nat, position: Position)
    requires room.station.Valid() && Coherent(room) && InWorld(position)
    requires RoomEntityId(room.id, local) !in room.station.byId && |room.station.records| <= U32_MAX
    ensures var spawned := SpawnEntity(room, local, position);
            && spawned.Some?
            && var (after, handle) := spawned.value;
               && after == room.(station := after.station, index := after.index, components := after.components)
               && after.station.Valid() && Coherent(after)
               && !room.station.IsLive(handle) && after.station.IsLive(handle)
               && after.station.Get(handle).value.id == RoomEntityId(room.id, local)
               && (forall other | other != handle :: after.station.Get(other) == room.station.Get(other))
               && after.station.tick == room.station.tick
               && after.station.byId == room.station.byId[RoomEntityId(room.id, local) := handle]
               && (forall key | key in after.components.blobs && key.handle != handle ::
                     key in room.components.blobs && after.components.blobs[key] == room.components.blobs[key])
  {
    SpawnEffect(room.station, RoomEntityId(room.id, local), position);
    var (after, handle) := SpawnEntity(room, local, position).value;
    forall other: EntityHandle ensures EntityAgrees(after, other) {
      assert EntityAgrees(room, other);
    }
  }

  /** A new handle lies beyond the permanent entities and is no older projectile's. */
  lemma NewHandleBeyondEntities(room: RoomState, after: Station, id: nat, position: Position, handle: EntityHandle)
    requires Core(room) && room.station.SpawnOwned(id, position) == Some(Spawned(after, handle))
    ensures handle.index >= |room.entities| && handle.generation <= room.station.tick
  {
    SpawnSlots(room.station, id, position);
    forall i | 0 <= i < |room.entities|
      ensures i < |room.station.records| && room.station.records[i].Some?
    {
      assert room.station.IsLive(room.entities[i]);
    }
  }

  lemma EntityPositionInWorld(room: nat, local: nat)
    ensures InWorld(EntityPosition(room, local))
  {
  }

  lemma IndexIsLive(room: RoomState)
    requires Coherent(room)
    ensures forall handle | handle in room.index :: room.station.IsLive(handle)
  {
    forall handle | handle in room.index ensures room.station.IsLive(handle) {
      assert EntityAgrees(room, handle);
    }
  }

  lemma SpawnKeepsCore(sim: Sim, offset: nat)
    requires Core(sim.room) && RoomToSpawn(sim.room, 1)
    ensures var launched := SpawnProjectile(sim, offset);
            && launched.Some? && Core(launched.value.room) && Launched(sim, launched.value, 1)
  {
    SpawnKeepsShape(sim, offset);
    SpawnKeepsViews(sim, offset);
    hide Accounts, Coherent, DirtyTracked, DirtyLive, Population, Layout, SlotsCounted, NextIdFresh,
      GenerationsBounded, Launched, SpawnProjectile, Station.Valid;
  }

  /** What a launch does to the table, the identifiers and the queue. */
  lemma SpawnKeepsShape(sim: Sim, offset: nat)
    requires Core(sim.room) && RoomToSpawn(sim.room, 1)
    ensures var launched := SpawnProjectile(sim, offset);
            && launched.Some? && Launched(sim, launched.value, 1)
            && var after := launched.value.room;
               && after.station.Valid() && Layout(after) && SlotsCounted(after) && NextIdFresh(after)
               && GenerationsBounded(after)
  {
    hide Accounts, Coherent, DirtyTracked, DirtyLive, Population, Station.Get, EntityPosition;
    var local := sim.room.nextEntityLocal;
    var position := EntityPosition(sim.room.id, SatAdd(local, offset));
    EntityPositionInWorld(sim.room.id, SatAdd(local, offset));
    var room := sim.room.(nextEntityLocal := SatAdd(local, 1));
    SameViewsAgree(sim.room, room);
    SpawnEntityAgrees(room, local, position);
    SpawnSlots(sim.room.station, RoomEntityId(sim.room.id, local), position);
    IdsIncrease(sim.room.id, local, local + 1);
  }

  /** A launch keeps the three views of every entity in agreement, and dirty tracking complete. */
  lemma SpawnKeepsViews(sim: Sim, offset: nat)
    requires Core(sim.room) && RoomToSpawn(sim.room, 1) && SpawnProjectile(sim, offset).Some?
    ensures var after := SpawnProjectile(sim, offset).value.room;
            && Coherent(after) && Population(after) && DirtyTracked(after) && DirtyLive(after)
            && Accounts(after)
  {
    hide Accounts, Coherent, DirtyTracked, DirtyLive, Population, Station.Get, EntityPosition;
    var local := sim.room.nextEntityLocal;
    var position := EntityPosition(sim.room.id, SatAdd(local, offset));
    EntityPositionInWorld(sim.room.id, SatAdd(local, offset));
    var room := sim.room.(nextEntityLocal := SatAdd(local, 1));
    SameViewsAgree(sim.room, room);
    SpawnEntityAgrees(room, local, position);
    var Spawned(station, handle) :=
      sim.room.station.SpawnOwned(RoomEntityId(sim.room.id, local), position).value;
    NewHandleBeyondEntities(sim.room, station, RoomEntityId(sim.room.id, local), position, handle);
    var after := SpawnProjectile(sim, offset).value.room;
    IndexIsLive(sim.room);
    SpawnKeepsAccounts(sim, offset);
    SameViewsAgree(SpawnEntity(room, local, position).value.0, after);
    LaunchKeepsPopulation(sim.room, after, handle);
    LaunchKeepsDirty(sim.room, after, handle);
  }

  lemma SameViewsAgree(before: RoomState, after: RoomState)
    requires Coherent(before)
    requires after.station == before.station && after.index == before.index
    requires after.components == before.components
    ensures Coherent(after)
  {
    forall handle: EntityHandle ensures EntityAgrees(after, handle) {
      assert EntityAgrees(before, handle);
    }
  }

  lemma LaunchKeepsPopulation(before: RoomState, after: RoomState, handle: EntityHandle)
    requires Layout(before) && Population(before)
    requires after.id == before.id && after.entities == before.entities
    requires |after.projectiles| == |before.projectiles| + 1
    requires after.projectiles[..|before.projectiles|] == before.projectiles
    requires after.projectiles[|before.projectiles|].handle == handle
    requires !before.station.IsLive(handle) && after.station.IsLive(handle)
    requires handle.index >= |before.entities|
    requires forall other | other != handle :: after.station.Get(other) == before.station.Get(other)
    ensures Population(after)
  {
    forall j | 0 <= j < |before.projectiles|
      ensures after.projectiles[j] == before.projectiles[j]
      ensures before.projectiles[j].handle != handle
    {
      assert after.projectiles[..|before.projectiles|][j] == before.projectiles[j];
    }
  }

  lemma LaunchKeepsDirty(before: RoomState, after: RoomState, handle: EntityHandle)
    requires DirtyTracked(before) && DirtyLive(before)
    requires after.dirtyHandles == before.dirtyHandles + [handle]
    requires after.station.IsLive(handle)
    requires forall other | other != handle :: after.station.Get(other) == before.station.Get(other)
    requires forall key | key in after.components.blobs && key.handle != handle ::
               key in before.components.blobs && after.components.blobs[key] == before.components.blobs[key]
    ensures DirtyTracked(after) && DirtyLive(after)
  {
  }

  lemma {:induction false} LaunchSucceeds(sim: Sim, n: nat)
    requires Core(sim.room) && RoomToSpawn(sim.room, n)
    ensures var launched := SpawnProjectilesUpTo(sim, n);
            && launched.Some? && Core(launched.value.room) && Launched(sim, launched.value, n)
  {
    hide SpawnProjectile;
    if n > 0 {
      LaunchSucceeds(sim, n - 1);
      LaunchNext(sim, SpawnProjectilesUpTo(sim, n - 1).value, n - 1);
    } else {
      assert sim.room.projectiles[..|sim.room.projectiles|] == sim.room.projectiles;
    }
  }

  lemma LaunchNext(start: Sim, before: Sim, n: nat)
    requires SlotsCounted(start.room) && RoomToSpawn(start.room, n + 1)
    requires Core(before.room) && Launched(start, before, n)
    ensures var launched := SpawnProjectile(before, n);
            && launched.Some? && Core(launched.value.room) && Launched(start, launched.value, n + 1)
  {
    LaunchedRoom(start, before, n);
    SpawnKeepsCore(before, n);
    LaunchedStep(start, before, SpawnProjectile(before, n).value, n);
  }

  lemma LaunchedRoom(start: Sim, before: Sim, n: nat)
    requires SlotsCounted(start.room) && RoomToSpawn(start.room, n + 1)
    requires SlotsCounted(before.room) && Launched(start, before, n)
    ensures RoomToSpawn(before.room, 1)
  {
  }

  lemma LaunchedStep(start: Sim, before: Sim, after: Sim, n: nat)
    requires Launched(start, before, n) && Launched(before, after, 1)
    ensures Launched(start, after, n + 1)
  {
    var first, middle := |start.room.projectiles|, |before.room.projectiles|;
    assert after.room.projectiles[..first] == after.room.projectiles[..middle][..first];
    forall j | first <= j < |after.room.projectiles|
      ensures after.room.projectiles[j].expiresAt == SatAdd(start.room.station.tick, PROJECTILE_TICKS)
    {
      if j < middle {
        assert after.room.projectiles[..middle][j] == before.room.projectiles[j];
      }
    }
  }

  // ----- the timeline -----

  function RateOf(room: nat): (rate: nat)
    ensures rate <= 2
  {
    ClassOf(room).ProjectilesPerTick()
  }

  /** Expiry of the `j`-th live projectile of a room of the given age: the last five ticks
      launched `rate` projectiles each. */
  function ExpiryAt(age: nat, rate: nat, j: nat): nat
    requires rate > 0
  {
    age - Min(PROJECTILE_TICKS, age) + 1 + j / rate + PROJECTILE_TICKS
  }

  ghost predicate Timeline(projectiles: seq<Projectile>, age: nat, rate: nat) {
    && |projectiles| == rate * Min(PROJECTILE_TICKS, age)
    && (rate > 0 ==>
          forall j | 0 <= j < |projectiles| :: projectiles[j].expiresAt == ExpiryAt(age, rate, j))
  }

  /** A room's projectiles are always sorted by expiry. */
  lemma TimelineSorted(projectiles: seq<Projectile>, age: nat, rate: nat)
    requires Timeline(projectiles, age, rate)
    ensures SortedByExpiry(projectiles)
  {
    forall i, j | 0 <= i < j < |projectiles|
      ensures projectiles[i].expiresAt <= projectiles[j].expiresAt
    {
      DivFits(j, rate, i / rate);
      DivFits(i, rate, i / rate);
    }
  }

  /** From age five on, exactly one tick's launches expire per tick; before that, none. */
  lemma TimelineExpires(projectiles: seq<Projectile>, age: nat, rate: nat)
    requires rate <= 2 && Timeline(projectiles, age, rate)
    ensures ExpiredCount(projectiles, age + 1) == if age >= PROJECTILE_TICKS then rate else 0
  {
    TimelineSorted(projectiles, age, rate);
    FrontExpiryIsExact(projectiles, age + 1);
    if rate > 0 && age > 0 {
      assert projectiles[0].expiresAt == ExpiryAt(age, rate, 0);
      assert projectiles[rate - 1].expiresAt == ExpiryAt(age, rate, rate - 1);
      if age >= PROJECTILE_TICKS {
        assert projectiles[rate].expiresAt == ExpiryAt(age, rate, rate);
      }
    }
  }

  lemma TimelineAdvances(
      before: seq<Projectile>, after: seq<Projectile>, age: nat, rate: nat, removed: nat)
    requires rate <= 2 && Timeline(before, age, rate) && age + 1 <= U32_MAX
    requires removed == (if age >= PROJECTILE_TICKS then rate else 0) && removed <= |before|
    requires |after| == |before| - removed + rate
    requires after[..|before| - removed] == before[removed..]
    requires forall j | |before| - removed <= j < |after| ::
               after[j].expiresAt == SatAdd(age + 1, PROJECTILE_TICKS)
    ensures Timeline(after, age + 1, rate)
  {
    var kept := |before| - removed;
    if rate > 0 {
      forall j | 0 <= j < |after| ensures after[j].expiresAt == ExpiryAt(age + 1, rate, j) {
        if j < kept {
          assert after[..kept][j] == before[removed..][j];
          assert before[removed + j].expiresAt == ExpiryAt(age, rate, removed + j);
        }
      }
    }
  }

  /** The projectile phase over one tick of a room of age `age`. */
  ghost predicate ProjectilesDone(before: Sim, after: Sim, age: nat) {
    var rate := RateOf(before.room.id);
    var expired := if age >= PROJECTILE_TICKS then rate else 0;
    && after.room == before.room.(
         station := after.room.station, index := after.room.index,
         components := after.room.components, projectiles := after.room.projectiles,
         nextEntityLocal := before.room.nextEntityLocal + rate,
         dirtyHandles := after.room.dirtyHandles)
    && after.room.station.tick == before.room.station.tick == age + 1
    && Timeline(after.room.projectiles, age + 1, rate)
    && after.room.station.free == []
    && after.stats == before.stats.(
         entitiesSpawned := SatAdd(before.stats.entitiesSpawned, rate),
         entitiesDespawned := SatAdd(before.stats.entitiesDespawned, expired))
  }

  lemma ProjectilesSucceed(sim: Sim, age: nat)
    requires Core(sim.room) && DirtyPermanent(sim.room) && ProjectilesOlder(sim.room)
    requires RoomToSpawn(sim.room, 2) && age + 1 <= U32_MAX && sim.room.station.tick == age + 1
    requires Timeline(sim.room.projectiles, age, RateOf(sim.room.id)) && sim.room.station.free == []
    ensures var updated := UpdateProjectiles(sim);
            && updated.Some? && Core(updated.value.room) && ProjectilesDone(sim, updated.value, age)
  {
    hide Core, Timeline, DirtyPermanent, ProjectilesOlder, ExpireProjectiles, SpawnProjectilesUpTo;
    var rate := RateOf(sim.room.id);
    TimelineExpires(sim.room.projectiles, age, rate);
    ExpireSucceeds(sim);
    var expired := ExpireProjectiles(sim);
    LaunchSucceeds(expired, rate);
    var after := SpawnProjectilesUpTo(expired, rate).value;
    TimelineAdvances(
      sim.room.projectiles, after.room.projectiles, age, rate,
      ExpiredCount(sim.room.projectiles, age + 1));
  }

  /** A room never holds more than ten projectiles, so it never outgrows its spare slots. */
  lemma SlotsWithinCapacity(room: RoomState, age: nat)
    requires Core(room) && room.station.free == []
    requires Timeline(room.projectiles, age, RateOf(room.id))
    ensures |room.projectiles| == RateOf(room.id) * Min(PROJECTILE_TICKS, age) <= 10
    ensures |room.station.records| == |room.entities| + |room.projectiles|
            < |room.entities| + SPARE_SLOTS
  {
  }
}
