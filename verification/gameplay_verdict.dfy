/** The benchmark's verdict on a run, and the account of the projectiles of a run. */
module GameplayVerdict {
  import opened MachineInts
  import opened Options
  import opened Components
  import opened RoomSpec
  import opened RoomAccounts
  import opened RoomInvariants
  import opened RoomProjectiles
  import opened RoomReplication
  import opened RoomCreation
  import opened GameplaySpec
  import opened GameplayWorld
  import opened GameplayRun

  // ----- the verdict -----

  /** What the benchmark collects from the rooms at the end. */
  datatype Totals = Totals(trackerRecords: word, trackerAcks: word, columns: word, indexed: word)

  function CollectRoom(before: Totals, room: RoomState): Totals {
    Totals(
      SatAdd(before.trackerRecords, room.tracker.sent), SatAdd(before.trackerAcks, room.tracker.acked),
      SatAdd(before.columns, |room.components.columns|), SatAdd(before.indexed, |room.index|))
  }

  function CollectUpTo(rooms: seq<RoomState>, n: nat): Totals
    requires n <= |rooms|
  {
    if n == 0 then Totals(0, 0, 0, 0) else CollectRoom(CollectUpTo(rooms, n - 1), rooms[n - 1])
  }

  /** The checks of the verdict, without those on retained capacities, index internals and
      checksums. */
  predicate ModelledChecksPass(
      config: Config, heavyProfileDenied: bool, exhausted: bool, stats: Stats, totals: Totals)
    requires config.rooms > 0
  {
    var recreates := SatSub(config.ticks, 1) / RECREATE_TICKS;
    && !heavyProfileDenied
    && stats.ticksCompleted == config.ticks
    && !exhausted
    && stats.commandsAdmitted == stats.commandsApplied
    && stats.eventsRouted == stats.eventsDrained
    && stats.packetsSent == stats.packetsReceived
    && stats.encodedBytes == stats.decodedBytes
    && stats.packetOversize == 0
    && stats.viewerPlans == stats.packetsSent
    && stats.selectedEntities == stats.encodedEntities
    && stats.skippedEntities == 0
    && stats.encodedEntities > 0
    && totals.trackerAcks == totals.trackerRecords
    && stats.roomsDestroyed == recreates
    && stats.roomsCreated == SatAdd(config.rooms, recreates)
    && stats.endpointsUnregistered == ExpectedEndpoints(config, recreates)
    && stats.teardownQueuedPackets == 0
    && stats.teardownQueuedEvents == 0
    && totals.columns == SatMul(config.rooms, 3)
  }

  lemma {:induction false} EndpointsBounded(config: Config, count: nat)
    requires config.rooms > 0
    ensures count <= ExpectedEndpoints(config, count) <= count * (MAX_PLAYERS + 1)
  {
    if count > 0 {
      EndpointsBounded(config, count - 1);
    }
  }

  /** Entities in the indexes of the first `n` rooms: the permanent ones, and the projectiles of
      the last five ticks. */
  function IndexedSum(config: Config, ticks: nat, n: nat): nat
    requires config.rooms > 0
  {
    if n == 0 then 0
    else IndexedSum(config, ticks, n - 1) + config.entitiesPerRoom
         + RateOf(n - 1) * Min(PROJECTILE_TICKS, AgeOf(config, n - 1, ticks))
  }

  /** Records sent by the first `n` rooms. */
  function SentSum(rooms: seq<RoomState>, n: nat): nat
    requires n <= |rooms|
  {
    if n == 0 then 0 else SentSum(rooms, n - 1) + rooms[n - 1].tracker.sent
  }

  /** What is collected from the rooms between ticks: every tracked record was acknowledged, three
      columns a room, and the indexed entities in closed form. */
  lemma {:induction false} TotalsCounted(world: World, config: Config, ticks: nat, n: nat)
    requires AllAtBoundary(world, config, ticks) && 0 < config.rooms && n <= |world.rooms| <= MAX_ROOM + 1
    requires AllAged(world.rooms, config, ticks)
    ensures var totals := CollectUpTo(world.rooms, n);
            && totals.trackerAcks == totals.trackerRecords == Min(SentSum(world.rooms, n), U64_MAX)
            && totals.columns == 3 * n
            && totals.indexed == Min(IndexedSum(config, ticks, n), U64_MAX)
  {
    hide AtBoundary, AgeOf, RateOf;
    if n > 0 {
      TotalsCounted(world, config, ticks, n - 1);
      BoundaryColumns(world.rooms[n - 1], n - 1, config.entitiesPerRoom, ticks);
      BoundaryStores(world.rooms[n - 1], n - 1, config.entitiesPerRoom, ticks);
      SatAddCap(
        IndexedSum(config, ticks, n - 1),
        config.entitiesPerRoom + RateOf(n - 1) * Min(PROJECTILE_TICKS, AgeOf(config, n - 1, ticks)));
    }
  }

  lemma BoundaryStores(room: RoomState, id: nat, entitiesPerRoom: nat, tick: nat)
    requires AtBoundary(room, id, entitiesPerRoom, tick)
    ensures room.tracker.sent == room.tracker.acked
    ensures |room.index| == entitiesPerRoom + RateOf(id) * Min(PROJECTILE_TICKS, room.station.tick)
  {
    hide Layout, Population, Coherent, DirtyTracked, DirtyLive, NextIdFresh, GenerationsBounded, HubIdle,
      ListedDirty, BlobsTyped, HandlesCounted, RateOf;
  }

  lemma BoundaryColumns(room: RoomState, id: nat, entitiesPerRoom: nat, tick: nat)
    requires AtBoundary(room, id, entitiesPerRoom, tick)
    ensures |room.components.columns| == 3
  {
    hide Layout, Population, DirtyTracked, DirtyLive, NextIdFresh, GenerationsBounded, HubIdle, Timeline;
    var columns := {TRANSFORM, STATE, INVENTORY};
    assert columns == {TRANSFORM} + {STATE} + {INVENTORY};
    assert |columns| == 3;
  }

  /** The verdict, exactly: a run that stops after `n` of its ticks passes the modelled checks if
      and only if the profile was not denied and all ticks, at least one, ran. All other checks
      hold in every run: the transport loses nothing, every selected entity is encoded, and no
      frame is ever too large. */
  lemma VerdictExactly(config: Config, queries: Queries, n: nat, heavyProfileDenied: bool)
    requires Admissible(config, n) && n <= config.ticks
    ensures var world := RunUpTo(config, queries, n);
            && world.Some? && |world.value.rooms| == config.rooms
            && (ModelledChecksPass(
                  config, heavyProfileDenied, n < config.ticks, world.value.stats,
                  CollectUpTo(world.value.rooms, config.rooms))
                <==> !heavyProfileDenied && n == config.ticks && n > 0)
  {
    hide RunUpTo, AtBoundary, AllClean, RouterIdle, CollectUpTo, TotalCommands, TotalEvents,
      RateSum, PlayerSum, ExpectedEndpoints, AllAged;
    RunSucceeds(config, queries, n);
    var world := RunUpTo(config, queries, n).value;
    TotalsCounted(world, config, n, config.rooms);
    EndpointsBounded(config, Recreations(n));
  }

  // ----- the projectiles of a run -----

  function LiveUpTo(rooms: seq<RoomState>, n: nat): nat
    requires n <= |rooms|
  {
    if n == 0 then 0 else LiveUpTo(rooms, n - 1) + |rooms[n - 1].projectiles|
  }

  function Live(world: World): nat { LiveUpTo(world.rooms, |world.rooms|) }

  /** Live projectiles that a tick discards together with the room it recreates. */
  function LostAt(world: World, config: Config, tick: nat): nat
    requires config.rooms > 0
  {
    match RecreatedRoom(config, tick)
    case None => 0
    case Some(id) => if id < |world.rooms| then |world.rooms[id].projectiles| else 0
  }

  function LostUpTo(config: Config, queries: Queries, n: nat): nat
    requires config.rooms > 0
  {
    if n == 0 then 0
    else
      LostUpTo(config, queries, n - 1)
      + match RunUpTo(config, queries, n - 1)
        case None => 0
        case Some(world) => LostAt(world, config, n - 1)
  }

  lemma {:induction false} LiveDepends(rooms1: seq<RoomState>, rooms2: seq<RoomState>, n: nat)
    requires n <= |rooms1| && n <= |rooms2|
    requires forall i | 0 <= i < n :: rooms1[i].projectiles == rooms2[i].projectiles
    ensures LiveUpTo(rooms1, n) == LiveUpTo(rooms2, n)
  {
    if n > 0 {
      LiveDepends(rooms1, rooms2, n - 1);
    }
  }

  lemma {:induction false} LiveWithout(before: seq<RoomState>, after: seq<RoomState>, id: nat, n: nat)
    requires n <= |before| == |after| && id < |before|
    requires after == before[id := after[id]] && after[id].projectiles == []
    ensures LiveUpTo(after, n) + (if id < n then |before[id].projectiles| else 0) == LiveUpTo(before, n)
  {
    if n > 0 {
      LiveWithout(before, after, id, n - 1);
    }
  }

  lemma {:induction false} VanishedBalances(before: seq<RoomState>, after: seq<RoomState>, n: nat)
    requires RoomsAged(before, after) && n <= |before|
    ensures VanishedSum(before, after, n) + LiveUpTo(after, n) == LiveUpTo(before, n) + RateSum(n)
  {
    hide RateOf;
    if n > 0 {
      VanishedBalances(before, after, n - 1);
    }
  }

  lemma RecreationLoses(before: World, after: World, config: Config, tick: nat)
    requires config.rooms > 0 && |before.rooms| == |after.rooms|
    requires RoomsRecreated(before, after, config, tick)
    ensures Live(after) + LostAt(before, config, tick) == Live(before)
  {
    hide RecreatedRoom;
    match RecreatedRoom(config, tick) {
      case None =>
      case Some(id) => LiveWithout(before.rooms, after.rooms, id, |before.rooms|);
    }
  }

  lemma {:induction false} RatesBounded(n: nat)
    ensures RateSum(n) <= 2 * n
  {
    if n > 0 {
      RatesBounded(n - 1);
    }
  }

  lemma SpawnsFitWord(config: Config, n: nat)
    requires Sized(config) && n < U32_MAX
    ensures n * RateSum(config.rooms) <= U64_MAX
  {
    RatesBounded(config.rooms);
    ProductMonotone(RateSum(config.rooms), 2 * (MAX_ROOM + 1), n);
  }

  ghost predicate ProjectilesAccounted(world: World, lost: nat) {
    world.stats.entitiesSpawned == world.stats.entitiesDespawned + Live(world) + lost
  }

  lemma TickAccounts(world: World, config: Config, queries: Queries, tick: nat, lost: nat)
    requires Admissible(config, tick + 1) && RunInvariant(world, config, tick)
    requires ProjectilesAccounted(world, lost)
    ensures var done := RunTick(world, config, tick, queries);
            done.Some? && ProjectilesAccounted(done.value, lost + LostAt(world, config, tick))
  {
    hide RunTick, SimulateTick, RecreateDue, ReplicateUpTo, RouterIdle, LifecycleCounted, TransportCounted,
      AllAtBoundary, AllReplicated, AllSimulated, RoomsRecreated, RoomsAged, VanishedSum, RateSum,
      RecreatedRoom, PlayerSum, CommandSum, EventSum, TotalCommands, TotalEvents,
      LiveUpTo, LostAt;
    var recreated, simulated, replicated := TickTakenApart(world, config, queries, tick);
    RecreationLoses(world, recreated, config, tick);
    VanishedBalances(recreated.rooms, simulated.rooms, config.rooms);
    LiveDepends(simulated.rooms, replicated.rooms, config.rooms);
    SpawnsFitWord(config, tick + 1);
    assert (tick + 1) * RateSum(config.rooms) == tick * RateSum(config.rooms) + RateSum(config.rooms);
  }

  /** Conservation over every run: each projectile ever spawned was despawned, is live, or was
      discarded with a recreated room. */
  lemma {:induction false} ProjectilesConserved(config: Config, queries: Queries, n: nat)
    requires Admissible(config, n)
    ensures var world := RunUpTo(config, queries, n);
            world.Some? && ProjectilesAccounted(world.value, LostUpTo(config, queries, n))
  {
    hide RunTick, RunInvariant, AllClean, LostAt, ProjectilesAccounted;
    RunSucceeds(config, queries, n);
    if n == 0 {
      hide Start;
      StartHasNoProjectiles(config);
    } else {
      RunSucceeds(config, queries, n - 1);
      ProjectilesConserved(config, queries, n - 1);
      TickAccounts(
        RunUpTo(config, queries, n - 1).value, config, queries, n - 1, LostUpTo(config, queries, n - 1));
    }
  }

  lemma StartHasNoProjectiles(config: Config)
    requires Sized(config)
    ensures var world := Start(config);
            world.Some? && ProjectilesAccounted(world.value, 0)
            && forall i | 0 <= i < |world.value.rooms| :: world.value.rooms[i].station.tick == 0
  {
    hide CreateUpTo, AllAtBoundary, RouterIdle, RegisterUpTo;
    StartSucceeds(config);
    CreatedEmpty(config, config.rooms);
    NoneLive(Start(config).value.rooms, config.rooms);
  }

  lemma {:induction false} CreatedEmpty(config: Config, n: nat)
    requires Sized(config) && n <= config.rooms
    ensures var rooms := CreateUpTo(config, n);
            && rooms.Some? && |rooms.value| == n
            && forall i | 0 <= i < n :: rooms.value[i].projectiles == [] && rooms.value[i].station.tick == 0
  {
    hide CreateRoom, AtBoundary;
    if n > 0 {
      CreatedEmpty(config, n - 1);
      CreationSucceeds(n - 1, config.entitiesPerRoom, 0);
    }
  }

  lemma {:induction false} NoneLive(rooms: seq<RoomState>, n: nat)
    requires n <= |rooms| && forall i | 0 <= i < n :: rooms[i].projectiles == []
    ensures LiveUpTo(rooms, n) == 0
  {
    if n > 0 {
      NoneLive(rooms, n - 1);
    }
  }

  /** Before the first recreation all rooms have the age of the run. */
  lemma {:induction false} RoomsAgeTogether(config: Config, room: nat, n: nat)
    requires config.rooms > 0 && n <= RECREATE_TICKS
    ensures AgeOf(config, room, n) == n
  {
    if n > 0 {
      RoomsAgeTogether(config, room, n - 1);
    }
  }

  lemma {:induction false} LostGrows(config: Config, queries: Queries, m: nat, n: nat)
    requires config.rooms > 0 && m <= n
    ensures LostUpTo(config, queries, m) <= LostUpTo(config, queries, n)
  {
    hide RunUpTo, LostAt;
    if m < n {
      LostGrows(config, queries, m, n - 1);
    }
  }

  /** No projectile is lost exactly as long as no room was recreated. */
  lemma {:induction false} NothingLostExactly(config: Config, queries: Queries, n: nat)
    requires Admissible(config, n)
    ensures LostUpTo(config, queries, n) == 0 <==> n <= RECREATE_TICKS
  {
    hide RunUpTo, AllClean, LostUpTo;
    if n <= RECREATE_TICKS {
      NothingLostYet(config, queries, n);
    } else {
      NothingLostYet(config, queries, RECREATE_TICKS);
      FirstRecreationLoses(config, queries);
      LostGrows(config, queries, RECREATE_TICKS + 1, n);
    }
  }

  lemma {:induction false} NothingLostYet(config: Config, queries: Queries, n: nat)
    requires config.rooms > 0 && n <= RECREATE_TICKS
    ensures LostUpTo(config, queries, n) == 0
  {
    hide RunUpTo;
    if n > 0 {
      NothingLostYet(config, queries, n - 1);
    }
  }

  lemma FirstRecreationLoses(config: Config, queries: Queries)
    requires Sized(config)
    ensures LostUpTo(config, queries, RECREATE_TICKS + 1) > 0
  {
    hide RunUpTo, AllClean, Counted, RouterIdle, AtBoundary, RateOf;
    RunSucceeds(config, queries, RECREATE_TICKS);
    var world := RunUpTo(config, queries, RECREATE_TICKS).value;
    var id := 1 % config.rooms;
    RoomsAgeTogether(config, id, RECREATE_TICKS);
    BoundaryProjectiles(world.rooms[id], id, config.entitiesPerRoom, RECREATE_TICKS);
    FirstRoomFires(config);
    assert RecreatedRoom(config, RECREATE_TICKS) == Some(id);
    hide RecreatedRoom;
    assert LostAt(world, config, RECREATE_TICKS) == PROJECTILE_TICKS * RateOf(id);
  }

  lemma FirstRoomFires(config: Config)
    requires config.rooms > 0
    ensures RateOf(1 % config.rooms) > 0
  {
  }

  lemma BoundaryProjectiles(room: RoomState, id: nat, entitiesPerRoom: nat, tick: nat)
    requires AtBoundary(room, id, entitiesPerRoom, tick) && room.station.tick >= PROJECTILE_TICKS
    ensures |room.projectiles| == PROJECTILE_TICKS * RateOf(id)
  {
    hide Core, HubIdle;
  }

  /** The simpler law, that the spawned projectiles not despawned are the live ones, is false of
      the benchmark: recreating a room drops its projectiles uncounted. It holds exactly up to
      the first recreation. */
  lemma SpawnedMinusDespawnedIsLiveExactly(config: Config, queries: Queries, n: nat)
    requires Admissible(config, n)
    ensures var world := RunUpTo(config, queries, n);
            && world.Some?
            && (world.value.stats.entitiesSpawned - world.value.stats.entitiesDespawned == Live(world.value)
                <==> n <= RECREATE_TICKS)
  {
    hide RunUpTo, LostUpTo, Live;
    ProjectilesConserved(config, queries, n);
    NothingLostExactly(config, queries, n);
  }
}
