/** The size guard of the many-room benchmark, and what it means for the sharding of rooms:
    within the guard no product saturates and no reservation is ever too small. */
module ManyRoomsGuard {
  import opened MachineInts
  import opened RoundRobin
  import opened ManyRooms

  const GUARD_MAX_ROOMS: nat := 500
  const GUARD_MAX_PLAYERS: nat := 32
  const GUARD_MIN_PLAYERS_PER_STATION: nat := 4
  const GUARD_MAX_STATIONS_PER_ROOM: nat := 8
  const GUARD_MAX_ENTITIES_PER_PLAYER: nat := 16
  const GUARD_MAX_ENTITIES_PER_ROOM: nat := 256
  const GUARD_MAX_COMPONENT_BYTES: nat := 256
  const GUARD_MAX_TICKS: nat := 10

  datatype Sizes = Sizes(
    rooms: word,
    minPlayers: word,
    maxPlayers: word,
    playersPerStation: word,
    maxStationsPerRoom: word,
    entitiesPerPlayer: word,
    entitiesPerRoom: word,
    componentBytes: word,
    dirtyPercent: word,
    componentUpdatePercent: word,
    movingPercent: word,
    ticks: word)

  /** Players of a room: the counts between the two bounds in turn. */
  function PlayersForRoom(sizes: Sizes, room: nat): nat {
    sizes.minPlayers + room % SatAdd(SatSub(sizes.maxPlayers, sizes.minPlayers), 1)
  }

  /** A fixed number of entities, or so many per player if none is given. */
  function EntitiesForPlayers(sizes: Sizes, players: nat): nat {
    if sizes.entitiesPerRoom == 0 then SatMul(players, sizes.entitiesPerPlayer) else sizes.entitiesPerRoom
  }

  /** What room creation relies on. */
  predicate Workable(sizes: Sizes) {
    && sizes.rooms >= 1 && 1 <= sizes.minPlayers <= sizes.maxPlayers
    && sizes.playersPerStation >= 1 && sizes.maxStationsPerRoom >= 1
    && sizes.entitiesPerPlayer >= 1 && sizes.componentBytes >= 1 && sizes.ticks >= 1
    && sizes.dirtyPercent <= 100 && sizes.componentUpdatePercent <= 100 && sizes.movingPercent <= 100
  }

  predicate WithinGuard(sizes: Sizes) {
    && sizes.rooms <= GUARD_MAX_ROOMS && sizes.maxPlayers <= GUARD_MAX_PLAYERS
    && sizes.playersPerStation >= GUARD_MIN_PLAYERS_PER_STATION
    && sizes.maxStationsPerRoom <= GUARD_MAX_STATIONS_PER_ROOM
    && sizes.entitiesPerPlayer <= GUARD_MAX_ENTITIES_PER_PLAYER
    && sizes.entitiesPerRoom <= GUARD_MAX_ENTITIES_PER_ROOM
    && sizes.componentBytes <= GUARD_MAX_COMPONENT_BYTES && sizes.ticks <= GUARD_MAX_TICKS
  }

  function Floored(sizes: Sizes): Sizes {
    var minPlayers := Max(sizes.minPlayers, 1);
    sizes.(
      rooms := Max(sizes.rooms, 1), minPlayers := minPlayers,
      maxPlayers := Max(sizes.maxPlayers, minPlayers),
      playersPerStation := Max(sizes.playersPerStation, 1),
      maxStationsPerRoom := Max(sizes.maxStationsPerRoom, 1),
      entitiesPerPlayer := Max(sizes.entitiesPerPlayer, 1),
      componentBytes := Max(sizes.componentBytes, 1), dirtyPercent := Min(sizes.dirtyPercent, 100),
      componentUpdatePercent := Min(sizes.componentUpdatePercent, 100),
      movingPercent := Min(sizes.movingPercent, 100), ticks := Max(sizes.ticks, 1))
  }

  function Limited(sizes: Sizes): Sizes {
    var maxPlayers := Min(sizes.maxPlayers, GUARD_MAX_PLAYERS);
    sizes.(
      rooms := Min(sizes.rooms, GUARD_MAX_ROOMS), maxPlayers := maxPlayers,
      minPlayers := Min(sizes.minPlayers, maxPlayers),
      playersPerStation := Max(sizes.playersPerStation, GUARD_MIN_PLAYERS_PER_STATION),
      maxStationsPerRoom := Min(sizes.maxStationsPerRoom, GUARD_MAX_STATIONS_PER_ROOM),
      entitiesPerPlayer := Min(sizes.entitiesPerPlayer, GUARD_MAX_ENTITIES_PER_PLAYER),
      entitiesPerRoom := Min(sizes.entitiesPerRoom, GUARD_MAX_ENTITIES_PER_ROOM),
      componentBytes := Min(sizes.componentBytes, GUARD_MAX_COMPONENT_BYTES),
      ticks := Min(sizes.ticks, GUARD_MAX_TICKS))
  }

  function Normalized(requested: Sizes, allowHeavy: bool): Sizes {
    if allowHeavy then Floored(requested) else Limited(Floored(requested))
  }

  /** A normalized request is workable and, without the heavy flag, within the guard; exactly the
      requests that are so already are left alone. */
  lemma NormalizedExactly(requested: Sizes, allowHeavy: bool)
    ensures var sizes := Normalized(requested, allowHeavy);
            && Workable(sizes) && (allowHeavy || WithinGuard(sizes))
            && (sizes == requested <==> Workable(requested) && (allowHeavy || WithinGuard(requested)))
            && Normalized(sizes, allowHeavy) == sizes
  {
  }

  /** Every size outside its bounds moves to the nearest bound, and the larger player count first
      makes room for the smaller. */
  lemma NormalizedFieldwise(requested: Sizes, allowHeavy: bool)
    ensures var sizes := Normalized(requested, allowHeavy);
            && sizes.rooms == Clamped(requested.rooms, GUARD_MAX_ROOMS, allowHeavy)
            && sizes.maxPlayers
               == Clamped(Max(requested.minPlayers, requested.maxPlayers), GUARD_MAX_PLAYERS, allowHeavy)
            && sizes.minPlayers == Clamped(requested.minPlayers, GUARD_MAX_PLAYERS, allowHeavy)
            && sizes.playersPerStation
               == Max(requested.playersPerStation, if allowHeavy then 1 else GUARD_MIN_PLAYERS_PER_STATION)
            && sizes.maxStationsPerRoom
               == Clamped(requested.maxStationsPerRoom, GUARD_MAX_STATIONS_PER_ROOM, allowHeavy)
            && sizes.entitiesPerPlayer
               == Clamped(requested.entitiesPerPlayer, GUARD_MAX_ENTITIES_PER_PLAYER, allowHeavy)
            && sizes.entitiesPerRoom
               == (if allowHeavy then requested.entitiesPerRoom
                   else Min(requested.entitiesPerRoom, GUARD_MAX_ENTITIES_PER_ROOM))
            && sizes.componentBytes == Clamped(requested.componentBytes, GUARD_MAX_COMPONENT_BYTES, allowHeavy)
            && sizes.ticks == Clamped(requested.ticks, GUARD_MAX_TICKS, allowHeavy)
            && sizes.dirtyPercent == Min(requested.dirtyPercent, 100)
            && sizes.componentUpdatePercent == Min(requested.componentUpdatePercent, 100)
            && sizes.movingPercent == Min(requested.movingPercent, 100)
  {
  }

  class Config {
    var rooms: word
    var minPlayers: word
    var maxPlayers: word
    var playersPerStation: word
    var maxStationsPerRoom: word
    var entitiesPerPlayer: word
    var entitiesPerRoom: word
    var componentBytes: word
    var dirtyPercent: word
    var componentUpdatePercent: word
    var movingPercent: word
    var ticks: word
    const allowHeavy: bool
    var guardApplied: bool

    constructor (requested: Sizes, allowHeavy: bool)
      ensures Current() == requested && this.allowHeavy == allowHeavy
    {
      rooms, minPlayers, maxPlayers := requested.rooms, requested.minPlayers, requested.maxPlayers;
      playersPerStation, maxStationsPerRoom := requested.playersPerStation, requested.maxStationsPerRoom;
      entitiesPerPlayer, entitiesPerRoom := requested.entitiesPerPlayer, requested.entitiesPerRoom;
      componentBytes, dirtyPercent := requested.componentBytes, requested.dirtyPercent;
      componentUpdatePercent, movingPercent := requested.componentUpdatePercent, requested.movingPercent;
      ticks, this.allowHeavy, guardApplied := requested.ticks, allowHeavy, false;
    }

    function Current(): Sizes
      reads this
    {
      Sizes(
        rooms, minPlayers, maxPlayers, playersPerStation, maxStationsPerRoom, entitiesPerPlayer,
        entitiesPerRoom, componentBytes, dirtyPercent, componentUpdatePercent, movingPercent, ticks)
    }

    method Normalize()
      modifies this
      ensures Current() == Normalized(old(Current()), allowHeavy)
      ensures Workable(Current()) && (allowHeavy || WithinGuard(Current()))
      ensures guardApplied
              <==> !Workable(old(Current())) || (!allowHeavy && !WithinGuard(old(Current())))
    {
      hide Workable, WithinGuard, Floored, Limited;
      var before := Current();
      NormalizedExactly(before, allowHeavy);
      ApplyFloors();
      if !allowHeavy {
        ApplyLimits();
      }
      guardApplied := before != Current();
    }

    method ApplyFloors()
      modifies this
      ensures Current() == Floored(old(Current()))
    {
      rooms, minPlayers := Max(rooms, 1), Max(minPlayers, 1);
      maxPlayers := Max(maxPlayers, minPlayers);
      playersPerStation, maxStationsPerRoom := Max(playersPerStation, 1), Max(maxStationsPerRoom, 1);
      entitiesPerPlayer, componentBytes := Max(entitiesPerPlayer, 1), Max(componentBytes, 1);
      dirtyPercent := Min(dirtyPercent, 100);
      componentUpdatePercent, movingPercent := Min(componentUpdatePercent, 100), Min(movingPercent, 100);
      ticks := Max(ticks, 1);
    }

    method ApplyLimits()
      modifies this
      ensures Current() == Limited(old(Current()))
    {
      rooms, maxPlayers := Min(rooms, GUARD_MAX_ROOMS), Min(maxPlayers, GUARD_MAX_PLAYERS);
      minPlayers := Min(minPlayers, maxPlayers);
      playersPerStation := Max(playersPerStation, GUARD_MIN_PLAYERS_PER_STATION);
      maxStationsPerRoom := Min(maxStationsPerRoom, GUARD_MAX_STATIONS_PER_ROOM);
      entitiesPerPlayer := Min(entitiesPerPlayer, GUARD_MAX_ENTITIES_PER_PLAYER);
      entitiesPerRoom := Min(entitiesPerRoom, GUARD_MAX_ENTITIES_PER_ROOM);
      componentBytes, ticks := Min(componentBytes, GUARD_MAX_COMPONENT_BYTES), Min(ticks, GUARD_MAX_TICKS);
    }
  }

  lemma PlayersWithinBounds(sizes: Sizes, room: nat)
    requires Workable(sizes)
    ensures sizes.minPlayers <= PlayersForRoom(sizes, room) <= sizes.maxPlayers
    ensures room <= sizes.maxPlayers - sizes.minPlayers ==>
              PlayersForRoom(sizes, room) == sizes.minPlayers + room
  {
    var span := SatAdd(SatSub(sizes.maxPlayers, sizes.minPlayers), 1);
    assert span == sizes.maxPlayers - sizes.minPlayers + 1;
    if room < span {
      DivModUnique(room, span, 0, room);
    }
  }

  /** Rooms use every player count between the bounds, and no other. */
  lemma PlayerCountsExactly(sizes: Sizes, players: nat)
    requires Workable(sizes)
    ensures (exists room: nat :: PlayersForRoom(sizes, room) == players)
            <==> sizes.minPlayers <= players <= sizes.maxPlayers
  {
    forall room: nat ensures sizes.minPlayers <= PlayersForRoom(sizes, room) <= sizes.maxPlayers {
      PlayersWithinBounds(sizes, room);
    }
    if sizes.minPlayers <= players <= sizes.maxPlayers {
      PlayersWithinBounds(sizes, players - sizes.minPlayers);
    }
  }

  /** In a guarded run a room without players has the fixed number of entities, and each player
      brings its own unless that number is given. */
  lemma PlayersBringEntities(sizes: Sizes, players: nat)
    requires WithinGuard(sizes) && players < GUARD_MAX_PLAYERS
    ensures EntitiesForPlayers(sizes, 0) == sizes.entitiesPerRoom
    ensures EntitiesForPlayers(sizes, players + 1)
            == EntitiesForPlayers(sizes, players) + if sizes.entitiesPerRoom == 0 then sizes.entitiesPerPlayer else 0
  {
    ProductMonotone(players + 1, GUARD_MAX_PLAYERS, sizes.entitiesPerPlayer);
    assert (players + 1) * sizes.entitiesPerPlayer == players * sizes.entitiesPerPlayer + sizes.entitiesPerPlayer;
  }

  /** In every room of a guarded run every station's moving and updating entities fit the vectors
      reserved for them. The percentages alone do not give this: it needs the guard's limits. */
  lemma GuardedReservesSuffice(sizes: Sizes, room: nat, station: nat, percent: nat)
    requires Workable(sizes) && WithinGuard(sizes) && percent <= 100
    requires var players := PlayersForRoom(sizes, room);
             station < StationsForPlayers(players, sizes.playersPerStation, sizes.maxStationsPerRoom)
    ensures var players := PlayersForRoom(sizes, room);
            var entities := EntitiesForPlayers(sizes, players);
            var stations := StationsForPlayers(players, sizes.playersPerStation, sizes.maxStationsPerRoom);
            && entities <= GUARD_MAX_PLAYERS * GUARD_MAX_ENTITIES_PER_PLAYER
            && SlotSize(Chosen(entities, percent), stations, station)
               <= Reserve(SlotSize(entities, stations, station), percent)
  {
    hide SlotSize, Chosen, Reserve, StationsForPlayers;
    var players := PlayersForRoom(sizes, room);
    PlayersWithinBounds(sizes, room);
    var entities := EntitiesForPlayers(sizes, players);
    ProductMonotone(players, GUARD_MAX_PLAYERS, sizes.entitiesPerPlayer);
    ProductMonotone(entities, GUARD_MAX_PLAYERS * GUARD_MAX_ENTITIES_PER_PLAYER, percent);
    ReserveSuffices(
      entities, StationsForPlayers(players, sizes.playersPerStation, sizes.maxStationsPerRoom), station, percent);
  }
}
