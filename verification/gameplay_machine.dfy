/** The benchmark's run over its rooms, phase by phase as the program loops over them, and the
    guarded configuration it starts from. */
module GameplayMachine {
  import opened MachineInts
  import opened Options
  import opened RoomSpec
  import opened GameplaySpec
  import opened GameplayWorld
  import opened GameplayRun
  import opened GameplayVerdict
  import opened GameplayRoom
  import Events = EventRouter

  // ----- configuration -----

  datatype Profile = Smoke | Standard | Large

  const SMOKE_CONFIG := Config(20, 128, 30)
  const STANDARD_CONFIG := Config(100, 256, 180)
  const LARGE_CONFIG := Config(500, 512, 300)

  /** Rooms, entities and ticks a caller may ask for. */
  function Limits(allowHeavy: bool): Config { if allowHeavy then LARGE_CONFIG else SMOKE_CONFIG }

  /** Sizes a profile asks for; a heavy one counts only if it is allowed. */
  function ProfileSizes(requested: Profile, allowHeavy: bool): Config {
    match requested
    case Smoke => SMOKE_CONFIG
    case Standard => if allowHeavy then STANDARD_CONFIG else SMOKE_CONFIG
    case Large => if allowHeavy then LARGE_CONFIG else SMOKE_CONFIG
  }

  /** Explicit sizes, at least one each, take the place of the profile's. */
  function RequestedSizes(
      requested: Profile, allowHeavy: bool, rooms: Option<nat>, entities: Option<nat>, ticks: Option<nat>)
    : Config
  {
    var profile := ProfileSizes(requested, allowHeavy);
    Config(
      if rooms.Some? then Max(rooms.value, 1) else profile.rooms,
      if entities.Some? then Max(entities.value, 1) else profile.entitiesPerRoom,
      if ticks.Some? then Max(ticks.value, 1) else profile.ticks)
  }

  function Guarded(allowHeavy: bool, sizes: Config): Config {
    var limits := Limits(allowHeavy);
    Config(
      Min(sizes.rooms, limits.rooms),
      Min(Max(sizes.entitiesPerRoom, MAX_PLAYERS), limits.entitiesPerRoom),
      Min(sizes.ticks, limits.ticks))
  }

  /** Sizes the guard leaves alone. */
  predicate WithinLimits(allowHeavy: bool, sizes: Config) {
    var limits := Limits(allowHeavy);
    && sizes.rooms <= limits.rooms && sizes.ticks <= limits.ticks
    && MAX_PLAYERS <= sizes.entitiesPerRoom <= limits.entitiesPerRoom
  }

  /** The guard leaves exactly the sizes within the limits alone, always ends within them, and so
      makes every request with at least one room admissible for a run. */
  lemma GuardIsProjection(allowHeavy: bool, sizes: Config)
    ensures Guarded(allowHeavy, sizes) == sizes <==> WithinLimits(allowHeavy, sizes)
    ensures WithinLimits(allowHeavy, Guarded(allowHeavy, sizes))
    ensures Admissible(Guarded(allowHeavy, sizes), Guarded(allowHeavy, sizes).ticks) <==> sizes.rooms >= 1
    ensures Guarded(false, Guarded(allowHeavy, sizes)) == Guarded(false, sizes)
  {
  }

  class Settings {
    const requestedProfile: Profile
    const allowHeavy: bool
    var profile: Profile
    var rooms: nat
    var entitiesPerRoom: nat
    var ticks: nat
    var heavyProfileDenied: bool
    var guardApplied: bool

    function Sizes(): Config
      reads this
    {
      Config(rooms, entitiesPerRoom, ticks)
    }

    /** The settings after all arguments were read. */
    constructor (requestedProfile: Profile, allowHeavy: bool, rooms: Option<nat>, entities: Option<nat>,
                 ticks: Option<nat>)
      ensures this.requestedProfile == requestedProfile && this.allowHeavy == allowHeavy
      ensures heavyProfileDenied <==> requestedProfile != Smoke && !allowHeavy
      ensures var asked := RequestedSizes(requestedProfile, allowHeavy, rooms, entities, ticks);
              Sizes() == Guarded(allowHeavy, asked) && (guardApplied <==> !WithinLimits(allowHeavy, asked))
    {
      this.requestedProfile, this.allowHeavy := requestedProfile, allowHeavy;
      profile := Smoke;
      this.rooms, entitiesPerRoom, this.ticks :=
        SMOKE_CONFIG.rooms, SMOKE_CONFIG.entitiesPerRoom, SMOKE_CONFIG.ticks;
      heavyProfileDenied, guardApplied := false, false;
      new;
      ApplyProfile();
      if rooms.Some? {
        this.rooms := Max(rooms.value, 1);
      }
      if entities.Some? {
        entitiesPerRoom := Max(entities.value, 1);
      }
      if ticks.Some? {
        this.ticks := Max(ticks.value, 1);
      }
      ApplyGuard();
    }

    /** A heavy profile takes effect only if it is allowed; otherwise the request is recorded as
        denied and the sizes stay. */
    method ApplyProfile()
      modifies this
      ensures heavyProfileDenied
              <==> old(heavyProfileDenied) || (requestedProfile != Smoke && !allowHeavy)
      ensures Sizes() == if requestedProfile == Smoke || !allowHeavy then old(Sizes())
                         else ProfileSizes(requestedProfile, true)
      ensures guardApplied == old(guardApplied)
    {
      match requestedProfile {
        case Smoke =>
        case Standard =>
          if allowHeavy {
            profile := Standard;
            rooms, entitiesPerRoom, ticks :=
              STANDARD_CONFIG.rooms, STANDARD_CONFIG.entitiesPerRoom, STANDARD_CONFIG.ticks;
          } else {
            heavyProfileDenied := true;
          }
        case Large =>
          if allowHeavy {
            profile := Large;
            rooms, entitiesPerRoom, ticks :=
              LARGE_CONFIG.rooms, LARGE_CONFIG.entitiesPerRoom, LARGE_CONFIG.ticks;
          } else {
            heavyProfileDenied := true;
          }
      }
    }

    /** Clamps the sizes, and reports whether that changed them. */
    method ApplyGuard()
      modifies this
      ensures heavyProfileDenied == old(heavyProfileDenied) && profile == old(profile)
      ensures Sizes() == Guarded(allowHeavy, old(Sizes()))
      ensures guardApplied <==> !WithinLimits(allowHeavy, old(Sizes()))
    {
      var before := Sizes();
      var limits := Limits(allowHeavy);
      rooms := Min(rooms, limits.rooms);
      entitiesPerRoom := Min(Max(entitiesPerRoom, MAX_PLAYERS), limits.entitiesPerRoom);
      ticks := Min(ticks, limits.ticks);
      guardApplied := before != Sizes();
    }
  }

  // ----- rooms -----

  /** The rooms of a run are distinct objects. */
  ghost predicate Owned(rooms: seq<Room>) {
    && (forall i | 0 <= i < |rooms| :: rooms[i].Valid())
    && (forall i, j | 0 <= i < j < |rooms| :: rooms[i] != rooms[j])
  }

  function States(rooms: seq<Room>): (states: seq<RoomState>)
    reads rooms
    ensures |states| == |rooms|
    ensures forall i | 0 <= i < |rooms| :: states[i] == rooms[i].State()
  {
    if rooms == [] then []
    else States(rooms[..|rooms| - 1]) + [rooms[|rooms| - 1].State()]
  }

  ghost function WorldOf(rooms: seq<Room>, router: Events.Router, stats: Counters): World
    reads rooms, stats
  {
    World(States(rooms), router, stats.Value())
  }

  // A prefix of a phase that succeeds as a whole succeeds.

  lemma {:induction false} CreatePrefix(config: Config, m: nat, n: nat)
    requires m <= n && CreateUpTo(config, n).Some?
    ensures CreateUpTo(config, m).Some?
    decreases n
  {
    hide CreateRoom;
    if m < n {
      CreatePrefix(config, m, n - 1);
    }
  }

  lemma {:induction false} CommandsPrefix(world: World, tick: nat, m: nat, n: nat)
    requires m <= n <= |world.rooms| && CommandsUpTo(world, tick, n).Some?
    ensures CommandsUpTo(world, tick, m).Some?
    decreases n
  {
    hide EnqueueAndApplyCommands;
    if m < n {
      CommandsPrefix(world, tick, m, n - 1);
    }
  }

  lemma {:induction false} SimulatePrefix(world: World, tick: nat, m: nat, n: nat)
    requires m <= n <= |world.rooms| && SimulateUpTo(world, tick, n).Some?
    ensures SimulateUpTo(world, tick, m).Some?
    decreases n
  {
    hide SimulateRoom;
    if m < n {
      SimulatePrefix(world, tick, m, n - 1);
    }
  }

  lemma {:induction false} DrainPrefix(world: World, m: nat, n: nat)
    requires m <= n <= |world.rooms| && DrainUpTo(world, n).Some?
    ensures DrainUpTo(world, m).Some?
    decreases n
  {
    hide DrainGameplayEvents;
    if m < n {
      DrainPrefix(world, m, n - 1);
    }
  }

  lemma {:induction false} ReplicatePrefix(world: World, queries: Queries, tick: nat, m: nat, n: nat)
    requires m <= n <= |world.rooms| && ReplicateUpTo(world, queries, tick, n).Some?
    ensures ReplicateUpTo(world, queries, tick, m).Some?
    decreases n
  {
    hide ReplicateRoom;
    if m < n {
      ReplicatePrefix(world, queries, tick, m, n - 1);
    }
  }

  // ----- phases -----

  /** Updating one room of a sequence of states. */
  lemma OneRoomChanged(before: seq<RoomState>, after: seq<RoomState>, i: nat)
    requires i < |before| == |after|
    requires forall j | 0 <= j < |before| && j != i :: after[j] == before[j]
    ensures after == before[i := after[i]]
  {
  }

  /** The rooms when the first `n` of them have advanced. */
  ghost predicate AdvancedSoFar(world: World, n: nat, rooms: seq<RoomState>) {
    n <= |world.rooms| == |rooms| && AdvanceUpTo(world, n) == world.(rooms := rooms)
  }

  lemma AdvanceStep(world: World, i: nat, before: seq<RoomState>, after: seq<RoomState>)
    requires AdvancedSoFar(world, i, before) && i < |before|
    requires after == before[i := AdvanceRoom(before[i])]
    ensures AdvancedSoFar(world, i + 1, after)
  {
    hide AdvanceRoom;
  }

  method AdvanceOne(rooms: seq<Room>, i: nat, ghost world: World)
    requires Owned(rooms) && i < |rooms| && AdvancedSoFar(world, i, States(rooms))
    modifies rooms[i]
    ensures AdvancedSoFar(world, i + 1, States(rooms))
  {
    hide AdvanceRoom, AdvancedSoFar, States;
    ghost var before := States(rooms);
    rooms[i].AdvanceTick();
    OneRoomChanged(before, States(rooms), i);
    AdvanceStep(world, i, before, States(rooms));
  }

  lemma NoneAdvanced(world: World)
    ensures AdvancedSoFar(world, 0, world.rooms)
  {
  }

  lemma AdvancedSoFarEnds(world: World, rooms: seq<RoomState>)
    requires AdvancedSoFar(world, |rooms|, rooms)
    ensures |rooms| == |world.rooms| && AdvanceUpTo(world, |rooms|) == world.(rooms := rooms)
  {
  }

  method AdvanceRooms(rooms: seq<Room>, ghost world: World)
    requires Owned(rooms) && world.rooms == States(rooms)
    modifies rooms
    ensures AdvanceUpTo(world, |rooms|) == world.(rooms := States(rooms))
  {
    hide States, Owned;
    NoneAdvanced(world);
    hide AdvancedSoFar, AdvanceUpTo;
    for i := 0 to |rooms|
      invariant AdvancedSoFar(world, i, States(rooms))
    {
      AdvanceOne(rooms, i, world);
    }
    AdvancedSoFarEnds(world, States(rooms));
  }

  /** The world when the first `n` rooms issued their commands; the whole phase succeeds. */
  ghost predicate CommandedSoFar(start: World, tick: nat, n: nat, now: World) {
    && n <= |start.rooms| == |now.rooms| && CommandsUpTo(start, tick, |start.rooms|).Some?
    && CommandsUpTo(start, tick, n) == Some(now)
  }

  lemma CommandedSoFarStep(start: World, tick: nat, n: nat, now: World)
    requires CommandedSoFar(start, tick, n, now) && n < |start.rooms|
    ensures CommandsUpTo(start, tick, n + 1).Some?
    ensures CommandedSoFar(start, tick, n + 1, CommandsUpTo(start, tick, n + 1).value)
    ensures CommandsUpTo(start, tick, n) == Some(now)
  {
    hide EnqueueAndApplyCommands;
    CommandsPrefix(start, tick, n + 1, |start.rooms|);
  }

  lemma CommandedSoFarEnds(start: World, tick: nat, now: World)
    requires CommandedSoFar(start, tick, |start.rooms|, now)
    ensures CommandsUpTo(start, tick, |start.rooms|) == Some(now)
  {
  }

  lemma CommandedSoFarStarts(start: World, tick: nat)
    requires CommandsUpTo(start, tick, |start.rooms|).Some?
    ensures CommandedSoFar(start, tick, 0, start)
  {
  }

  method CommandNext(
      rooms: seq<Room>, i: nat, ghost start: World, tick: nat, ghost router: Events.Router, stats: Counters)
    requires Owned(rooms) && i < |rooms| == |start.rooms|
    requires CommandedSoFar(start, tick, i, WorldOf(rooms, router, stats))
    modifies rooms[i], stats
    ensures CommandedSoFar(start, tick, i + 1, WorldOf(rooms, router, stats))
  {
    hide EnqueueAndApplyCommands, States, CommandedSoFar;
    CommandedSoFarStep(start, tick, i, WorldOf(rooms, router, stats));
    ghost var before := States(rooms);
    rooms[i].EnqueueAndApplyCommands(tick, stats);
    OneRoomChanged(before, States(rooms), i);
  }

  method CommandRooms(rooms: seq<Room>, tick: nat, ghost router: Events.Router, stats: Counters)
    requires Owned(rooms) && CommandsUpTo(WorldOf(rooms, router, stats), tick, |rooms|).Some?
    modifies rooms, stats
    ensures CommandsUpTo(old(WorldOf(rooms, router, stats)), tick, |rooms|) == Some(WorldOf(rooms, router, stats))
  {
    hide States, Owned;
    ghost var start := WorldOf(rooms, router, stats);
    CommandedSoFarStarts(start, tick);
    hide CommandedSoFar, CommandsUpTo;
    for i := 0 to |rooms|
      invariant CommandedSoFar(start, tick, i, WorldOf(rooms, router, stats))
    {
      CommandNext(rooms, i, start, tick, router, stats);
    }
    CommandedSoFarEnds(start, tick, WorldOf(rooms, router, stats));
  }

  /** The world when the first `n` rooms were simulated; the whole phase succeeds. */
  ghost predicate SimulatedSoFar(start: World, tick: nat, n: nat, now: World) {
    && n <= |start.rooms| == |now.rooms| && SimulateUpTo(start, tick, |start.rooms|).Some?
    && SimulateUpTo(start, tick, n) == Some(now)
  }

  lemma SimulatedSoFarStep(start: World, tick: nat, n: nat, now: World)
    requires SimulatedSoFar(start, tick, n, now) && n < |start.rooms|
    ensures SimulateUpTo(start, tick, n + 1).Some?
    ensures SimulatedSoFar(start, tick, n + 1, SimulateUpTo(start, tick, n + 1).value)
    ensures SimulateUpTo(start, tick, n) == Some(now)
  {
    hide SimulateRoom;
    SimulatePrefix(start, tick, n + 1, |start.rooms|);
  }

  lemma SimulatedSoFarEnds(start: World, tick: nat, now: World)
    requires SimulatedSoFar(start, tick, |start.rooms|, now)
    ensures SimulateUpTo(start, tick, |start.rooms|) == Some(now)
  {
  }

  lemma SimulatedSoFarStarts(start: World, tick: nat)
    requires SimulateUpTo(start, tick, |start.rooms|).Some?
    ensures SimulatedSoFar(start, tick, 0, start)
  {
  }

  method SimulateNext(
      rooms: seq<Room>, i: nat, ghost start: World, tick: nat, router: Events.Router, stats: Counters)
    returns (after: Events.Router)
    requires Owned(rooms) && i < |rooms| == |start.rooms|
    requires SimulatedSoFar(start, tick, i, WorldOf(rooms, router, stats))
    modifies rooms[i], stats
    ensures SimulatedSoFar(start, tick, i + 1, WorldOf(rooms, after, stats))
  {
    hide UpdateNpcs, UpdateProjectiles, RouteGameplayEvent, States, SimulatedSoFar;
    SimulatedSoFarStep(start, tick, i, WorldOf(rooms, router, stats));
    ghost var before := States(rooms);
    rooms[i].UpdateNpcs(tick, stats);
    rooms[i].UpdateProjectiles(stats);
    after := rooms[i].RouteGameplayEvent(tick, router, stats);
    OneRoomChanged(before, States(rooms), i);
  }

  method SimulateRooms(rooms: seq<Room>, tick: nat, router: Events.Router, stats: Counters)
    returns (after: Events.Router)
    requires Owned(rooms) && SimulateUpTo(WorldOf(rooms, router, stats), tick, |rooms|).Some?
    modifies rooms, stats
    ensures SimulateUpTo(old(WorldOf(rooms, router, stats)), tick, |rooms|) == Some(WorldOf(rooms, after, stats))
  {
    hide States, Owned;
    ghost var start := WorldOf(rooms, router, stats);
    SimulatedSoFarStarts(start, tick);
    hide SimulatedSoFar, SimulateUpTo;
    after := router;
    for i := 0 to |rooms|
      invariant SimulatedSoFar(start, tick, i, WorldOf(rooms, after, stats))
    {
      after := SimulateNext(rooms, i, start, tick, after, stats);
    }
    SimulatedSoFarEnds(start, tick, WorldOf(rooms, after, stats));
  }

  /** The world when the first `n` rooms drained their events; the whole phase succeeds. */
  ghost predicate DrainedSoFar(start: World, n: nat, now: World) {
    && n <= |start.rooms| == |now.rooms| && DrainUpTo(start, |start.rooms|).Some?
    && DrainUpTo(start, n) == Some(now)
  }

  lemma DrainedSoFarStep(start: World, n: nat, now: World)
    requires DrainedSoFar(start, n, now) && n < |start.rooms|
    ensures DrainUpTo(start, n + 1).Some?
    ensures DrainedSoFar(start, n + 1, DrainUpTo(start, n + 1).value)
    ensures DrainUpTo(start, n) == Some(now)
  {
    hide DrainGameplayEvents;
    DrainPrefix(start, n + 1, |start.rooms|);
  }

  lemma DrainedSoFarEnds(start: World, now: World)
    requires DrainedSoFar(start, |start.rooms|, now)
    ensures DrainUpTo(start, |start.rooms|) == Some(now)
  {
  }

  lemma DrainedSoFarStarts(start: World)
    requires DrainUpTo(start, |start.rooms|).Some?
    ensures DrainedSoFar(start, 0, start)
  {
  }

  method DrainNext(
      rooms: seq<Room>, i: nat, ghost start: World, router: Events.Router, stats: Counters)
    returns (after: Events.Router)
    requires Owned(rooms) && i < |rooms| == |start.rooms|
    requires DrainedSoFar(start, i, WorldOf(rooms, router, stats))
    modifies rooms[i], stats
    ensures DrainedSoFar(start, i + 1, WorldOf(rooms, after, stats))
  {
    hide DrainGameplayEvents, States, DrainedSoFar;
    DrainedSoFarStep(start, i, WorldOf(rooms, router, stats));
    ghost var before := States(rooms);
    after := rooms[i].DrainGameplayEvents(router, stats);
    OneRoomChanged(before, States(rooms), i);
  }

  method DrainRooms(rooms: seq<Room>, router: Events.Router, stats: Counters)
    returns (after: Events.Router)
    requires Owned(rooms) && DrainUpTo(WorldOf(rooms, router, stats), |rooms|).Some?
    modifies rooms, stats
    ensures DrainUpTo(old(WorldOf(rooms, router, stats)), |rooms|) == Some(WorldOf(rooms, after, stats))
  {
    hide States, Owned;
    ghost var start := WorldOf(rooms, router, stats);
    DrainedSoFarStarts(start);
    hide DrainedSoFar, DrainUpTo;
    after := router;
    for i := 0 to |rooms|
      invariant DrainedSoFar(start, i, WorldOf(rooms, after, stats))
    {
      after := DrainNext(rooms, i, start, after, stats);
    }
    DrainedSoFarEnds(start, WorldOf(rooms, after, stats));
  }

  /** The world when the first `n` rooms replicated; the whole phase succeeds. */
  ghost predicate ReplicatedSoFar(start: World, queries: Queries, tick: nat, n: nat, now: World) {
    && n <= |start.rooms| == |now.rooms| && ReplicateUpTo(start, queries, tick, |start.rooms|).Some?
    && ReplicateUpTo(start, queries, tick, n) == Some(now)
  }

  lemma ReplicatedSoFarStep(start: World, queries: Queries, tick: nat, n: nat, now: World)
    requires ReplicatedSoFar(start, queries, tick, n, now) && n < |start.rooms|
    ensures ReplicateUpTo(start, queries, tick, n + 1).Some?
    ensures ReplicatedSoFar(start, queries, tick, n + 1, ReplicateUpTo(start, queries, tick, n + 1).value)
    ensures ReplicateUpTo(start, queries, tick, n) == Some(now)
  {
    hide ReplicateRoom, RoomQueries;
    ReplicatePrefix(start, queries, tick, n + 1, |start.rooms|);
  }

  lemma ReplicatedSoFarEnds(start: World, queries: Queries, tick: nat, now: World)
    requires ReplicatedSoFar(start, queries, tick, |start.rooms|, now)
    ensures ReplicateUpTo(start, queries, tick, |start.rooms|) == Some(now)
  {
  }

  lemma ReplicatedSoFarStarts(start: World, queries: Queries, tick: nat)
    requires ReplicateUpTo(start, queries, tick, |start.rooms|).Some?
    ensures ReplicatedSoFar(start, queries, tick, 0, start)
  {
  }

  method ReplicateNext(
      rooms: seq<Room>, i: nat, ghost start: World, queries: Queries, tick: nat,
      ghost router: Events.Router, stats: Counters)
    requires Owned(rooms) && i < |rooms| == |start.rooms|
    requires ReplicatedSoFar(start, queries, tick, i, WorldOf(rooms, router, stats))
    modifies rooms[i], stats
    ensures ReplicatedSoFar(start, queries, tick, i + 1, WorldOf(rooms, router, stats))
  {
    hide ReplicateRoom, RoomQueries, States, ReplicatedSoFar;
    ReplicatedSoFarStep(start, queries, tick, i, WorldOf(rooms, router, stats));
    ghost var before := States(rooms);
    rooms[i].Replicate(RoomQueries(queries, tick, i), stats);
    OneRoomChanged(before, States(rooms), i);
  }

  method ReplicateRooms(rooms: seq<Room>, queries: Queries, tick: nat, ghost router: Events.Router, stats: Counters)
    requires Owned(rooms) && ReplicateUpTo(WorldOf(rooms, router, stats), queries, tick, |rooms|).Some?
    modifies rooms, stats
    ensures ReplicateUpTo(old(WorldOf(rooms, router, stats)), queries, tick, |rooms|)
            == Some(WorldOf(rooms, router, stats))
  {
    hide States, Owned;
    ghost var start := WorldOf(rooms, router, stats);
    ReplicatedSoFarStarts(start, queries, tick);
    hide ReplicatedSoFar, ReplicateUpTo;
    for i := 0 to |rooms|
      invariant ReplicatedSoFar(start, queries, tick, i, WorldOf(rooms, router, stats))
    {
      ReplicateNext(rooms, i, start, queries, tick, router, stats);
    }
    ReplicatedSoFarEnds(start, queries, tick, WorldOf(rooms, router, stats));
  }

  // ----- ticks and runs -----

  /** Replaces the room that is due by a new one. */
  method RecreateDueRoom(
      rooms: seq<Room>, config: Config, due: Option<nat>, ghost tick: nat, router: Events.Router,
      stats: Counters)
    returns (after: seq<Room>, registered: Events.Router)
    requires Owned(rooms) && |rooms| == config.rooms > 0 && due == RecreatedRoom(config, tick)
    requires RecreateDue(WorldOf(rooms, router, stats), config, tick).Some?
    modifies rooms, stats
    ensures Owned(after) && |after| == |rooms|
    ensures forall i | 0 <= i < |after| :: after[i] == rooms[i] || fresh(after[i])
    ensures RecreateDue(old(WorldOf(rooms, router, stats)), config, tick)
            == Some(WorldOf(after, registered, stats))
  {
    hide RecreatedRoom, CreateRoom, TeardownRoom, States, Counters.Value;
    if due.None? {
      return rooms, router;
    }
    var id := due.value;
    ghost var before := States(rooms);
    var torn := rooms[id].Teardown(router, stats);
    var room := new Room(id, config.entitiesPerRoom);
    after := rooms[id := room];
    registered := torn.RegisterStation(StationIdOf(room.id));
    stats.CountRecreated();
    assert States(after) == before[id := room.State()];
  }

  method Tick(
      rooms: seq<Room>, config: Config, due: Option<nat>, tick: nat, queries: Queries,
      router: Events.Router, stats: Counters)
    returns (after: seq<Room>, routed: Events.Router)
    requires Owned(rooms) && |rooms| == config.rooms > 0 && due == RecreatedRoom(config, tick)
    requires RunTick(WorldOf(rooms, router, stats), config, tick, queries).Some?
    modifies rooms, stats
    ensures Owned(after) && |after| == |rooms|
    ensures forall i | 0 <= i < |after| :: after[i] == rooms[i] || fresh(after[i])
    ensures RunTick(old(WorldOf(rooms, router, stats)), config, tick, queries)
            == Some(WorldOf(after, routed, stats))
  {
    hide RecreateDue, AdvanceUpTo, CommandsUpTo, SimulateUpTo, DrainUpTo, ReplicateUpTo, RecreatedRoom,
      States, Counters.Value;
    after, routed := RecreateDueRoom(rooms, config, due, tick, router, stats);
    AdvanceRooms(after, WorldOf(after, routed, stats));
    CommandRooms(after, tick, routed, stats);
    routed := SimulateRooms(after, tick, routed, stats);
    routed := DrainRooms(after, routed, stats);
    ReplicateRooms(after, queries, tick, routed, stats);
    stats.CountTick();
  }

  lemma StatesAppend(rooms: seq<Room>, room: Room)
    ensures States(rooms + [room]) == States(rooms) + [room.State()]
  {
  }

  method AddRoom(config: Config, rooms: seq<Room>) returns (more: seq<Room>)
    requires Owned(rooms) && |rooms| < config.rooms && CreateUpTo(config, config.rooms).Some?
    requires CreateUpTo(config, |rooms|) == Some(States(rooms))
    ensures Owned(more) && |more| == |rooms| + 1 && rooms == more[..|rooms|] && fresh(more[|rooms|])
    ensures more[|rooms|].id == |rooms|
    ensures CreateUpTo(config, |more|) == Some(States(more))
  {
    hide CreateRoom, States, Room.State;
    CreatePrefix(config, |rooms| + 1, config.rooms);
    var room := new Room(|rooms|, config.entitiesPerRoom);
    StatesAppend(rooms, room);
    more := rooms + [room];
  }

  method CreateRooms(config: Config) returns (rooms: seq<Room>)
    requires CreateUpTo(config, config.rooms).Some?
    ensures Owned(rooms) && fresh(rooms) && CreateUpTo(config, config.rooms) == Some(States(rooms))
    ensures |rooms| == config.rooms && forall i | 0 <= i < |rooms| :: rooms[i].id == i
  {
    rooms := [];
    hide CreateRoom, Room.State;
    for id := 0 to config.rooms
      invariant |rooms| == id && Owned(rooms) && fresh(rooms)
      invariant forall i | 0 <= i < |rooms| :: rooms[i].id == i
      invariant CreateUpTo(config, id) == Some(States(rooms))
    {
      rooms := AddRoom(config, rooms);
    }
  }

  method StartRun(config: Config, stats: Counters) returns (rooms: seq<Room>, router: Events.Router)
    requires Start(config).Some? && stats.Value() == NO_STATS
    modifies stats
    ensures Owned(rooms) && fresh(rooms) && |rooms| == config.rooms
    ensures Start(config) == Some(WorldOf(rooms, router, stats))
  {
    hide CreateUpTo, States;
    rooms := CreateRooms(config);
    stats.roomsCreated := Min(|rooms|, U64_MAX);
    router := Events.EMPTY;
    for i := 0 to |rooms|
      invariant router == RegisterUpTo(i)
    {
      router := router.RegisterStation(StationIdOf(rooms[i].id));
    }
  }

  lemma AdmissiblePrefix(config: Config, m: nat, n: nat)
    requires Admissible(config, n) && m <= n
    ensures Admissible(config, m)
  {
  }

  method TickNext(
      rooms: seq<Room>, config: Config, queries: Queries, trace: seq<Option<nat>>, tick: nat,
      router: Events.Router, stats: Counters)
    returns (after: seq<Room>, routed: Events.Router)
    requires Admissible(config, config.ticks) && trace == BuildTrace(config) && tick < |trace|
    requires Owned(rooms) && |rooms| == config.rooms
    requires RunUpTo(config, queries, tick) == Some(WorldOf(rooms, router, stats))
    modifies rooms, stats
    ensures Owned(after) && |after| == |rooms|
    ensures forall i | 0 <= i < |after| :: after[i] == rooms[i] || fresh(after[i])
    ensures RunUpTo(config, queries, tick + 1) == Some(WorldOf(after, routed, stats))
  {
    hide Start, RunTick, RunInvariant, AllClean, RecreatedRoom, States, Owned;
    AdmissiblePrefix(config, tick + 1, config.ticks);
    RunSucceeds(config, queries, tick + 1);
    TraceEntry(config, tick);
    after, routed := Tick(rooms, config, trace[tick], tick, queries, router, stats);
  }

  /** The loop over the trace. */
  method RunTicks(config: Config, queries: Queries, allowedTicks: nat)
    returns (rooms: seq<Room>, router: Events.Router, stats: Counters, exhausted: bool)
    requires Admissible(config, config.ticks)
    ensures exhausted <==> allowedTicks < config.ticks
    ensures RunUpTo(config, queries, Min(config.ticks, allowedTicks)) == Some(WorldOf(rooms, router, stats))
    ensures |rooms| == config.rooms
  {
    hide Start, RunTick, RunInvariant, AllClean, RecreatedRoom, States, Owned;
    stats := new Counters();
    AdmissiblePrefix(config, 0, config.ticks);
    RunSucceeds(config, queries, 0);
    rooms, router := StartRun(config, stats);
    var trace := BuildTrace(config);
    TraceLength(config);
    hide BuildTrace, Admissible, RunUpTo;
    exhausted := false;
    var tick := 0;
    while tick < |trace|
      invariant tick <= |trace| == config.ticks && tick <= allowedTicks && !exhausted
      invariant Owned(rooms) && fresh(rooms) && |rooms| == config.rooms && fresh(stats)
      invariant RunUpTo(config, queries, tick) == Some(WorldOf(rooms, router, stats))
      decreases |trace| - tick
    {
      if tick >= allowedTicks {
        exhausted := true;
        break;
      }
      rooms, router := TickNext(rooms, config, queries, trace, tick, router, stats);
      tick := tick + 1;
    }
  }

  lemma TraceLength(config: Config)
    requires config.rooms > 0
    ensures |BuildTrace(config)| == config.ticks
  {
  }

  lemma TraceEntry(config: Config, tick: nat)
    requires config.rooms > 0 && tick < config.ticks
    ensures |BuildTrace(config)| == config.ticks && BuildTrace(config)[tick] == RecreatedRoom(config, tick)
  {
  }

  /** A run of an admissible configuration; `allowedTicks` ticks start before the time budget is
      exhausted. No modelled expectation fails, the rooms, the router and the counters end in
      the state the specification predicts, and the verdict is exact. */
  method Run(config: Config, queries: Queries, allowedTicks: nat)
    returns (rooms: seq<Room>, router: Events.Router, stats: Counters, exhausted: bool)
    requires Admissible(config, config.ticks)
    ensures exhausted <==> allowedTicks < config.ticks
    ensures var n := Min(config.ticks, allowedTicks);
            && RunUpTo(config, queries, n) == Some(WorldOf(rooms, router, stats))
            && RunInvariant(WorldOf(rooms, router, stats), config, n)
    ensures |rooms| == config.rooms
    ensures forall denied: bool ::
              ModelledChecksPass(
                config, denied, exhausted, stats.Value(), CollectUpTo(States(rooms), config.rooms))
              <==> !denied && !exhausted && config.ticks > 0
  {
    hide RunUpTo, RunInvariant, AllClean, ModelledChecksPass, CollectUpTo, States;
    rooms, router, stats, exhausted := RunTicks(config, queries, allowedTicks);
    var n := Min(config.ticks, allowedTicks);
    AdmissiblePrefix(config, n, config.ticks);
    RunSucceeds(config, queries, n);
    forall denied: bool
      ensures ModelledChecksPass(
                config, denied, exhausted, stats.Value(), CollectUpTo(States(rooms), config.rooms))
              <==> !denied && !exhausted && config.ticks > 0
    {
      VerdictExactly(config, queries, n, denied);
    }
  }

  /** Adds up the trackers' and the stores' figures over the rooms. */
  method CollectStats(rooms: seq<Room>) returns (totals: Totals)
    ensures totals == CollectUpTo(States(rooms), |rooms|)
  {
    totals := Totals(0, 0, 0, 0);
    for i := 0 to |rooms|
      invariant totals == CollectUpTo(States(rooms), i)
    {
      totals := Totals(
        SatAdd(totals.trackerRecords, rooms[i].tracker.sent),
        SatAdd(totals.trackerAcks, rooms[i].tracker.acked),
        SatAdd(totals.columns, |rooms[i].components.columns|),
        SatAdd(totals.indexed, |rooms[i].index|));
    }
  }

  /** The benchmark from the parsed arguments to the modelled checks of its verdict: they pass
      exactly when no heavy profile was denied and the time budget sufficed for the guarded number
      of ticks, which is at least one. */
  method Benchmark(
      requested: Profile, allowHeavy: bool, rooms: Option<nat>, entities: Option<nat>, ticks: Option<nat>,
      queries: Queries, allowedTicks: nat)
    returns (ok: bool, config: Config)
    ensures config == Guarded(allowHeavy, RequestedSizes(requested, allowHeavy, rooms, entities, ticks))
    ensures ok <==> (requested == Smoke || allowHeavy) && config.ticks <= allowedTicks
  {
    hide ModelledChecksPass, RunInvariant, CollectUpTo, States;
    var settings := new Settings(requested, allowHeavy, rooms, entities, ticks);
    config := settings.Sizes();
    var live, router, stats, exhausted := Run(config, queries, allowedTicks);
    var totals := CollectStats(live);
    ok := ModelledChecksPass(config, settings.heavyProfileDenied, exhausted, stats.Value(), totals);
  }
}
