/** The many-room benchmark: how a room's players and entities are sharded over stations, and
    why the capacities computed beforehand are the ones the distribution needs. */
module ManyRooms {
  import opened MachineInts
  import opened RoundRobin

  /** The part of a station's work list that room creation fills. Entities and players are
      named by their index in the room. */
  datatype StationWork = StationWork(
    entityCapacity: nat,
    movingReserve: nat,
    updatingReserve: nat,
    viewers: seq<nat>,
    entities: seq<nat>,
    moving: seq<nat>,
    updating: seq<nat>,
    dirty: seq<nat>)

  function StationsForPlayers(players: nat, playersPerStation: nat, maxStations: nat): (stations: nat)
    requires playersPerStation > 0 && maxStations > 0
    ensures 1 <= stations <= maxStations
  {
    Max(1, Min(DivCeil(players, playersPerStation), maxStations))
  }

  function EntityCapacity(entities: nat, stations: nat, station: nat): nat
    requires station < stations
  {
    entities / stations + if station < entities % stations then 1 else 0
  }

  /** `Vec::with_capacity` argument for the entities of one station chosen at `percent`. */
  function Reserve(capacity: nat, percent: nat): nat {
    DivCeil(SatMul(capacity, percent), 100)
  }

  predicate InBucket(entity: nat, entities: nat, percent: nat) {
    SatMul(entity, 100) / Max(entities, 1) < percent
  }

  /** How many entities of a room fall into the first `percent` buckets. */
  function Chosen(entities: nat, percent: nat): nat {
    if entities * percent <= U64_MAX then DivCeil(entities * percent, 100) else entities
  }

  /** The bucket test selects exactly a prefix of the room's entities, for every entity count
      and even where the multiplication saturates. */
  lemma BucketIsPrefix(entity: nat, entities: nat, percent: nat)
    requires entity < entities && percent <= 100
    ensures InBucket(entity, entities, percent) <==> entity < Chosen(entities, percent)
    ensures Chosen(entities, percent) <= entities
  {
    hide DivCeil, SatMul;
    DivFits(SatMul(entity, 100), entities, percent);
    ProductMonotone(percent, 100, entities);
    DivCeilCovers(entities * percent, 100, entity);
    DivCeilCovers(entities * percent, 100, entities);
    ScaledExactly(entity, entities, percent);
  }

  lemma ScaledExactly(entity: nat, entities: nat, percent: nat)
    requires entity < entities && percent <= 100
    ensures percent * entities <= SatMul(entity, 100)
            <==> if entities * percent <= U64_MAX then percent * entities <= entity * 100 else false
  {
    if entities * percent > U64_MAX {
      assert SatMul(entity, 100) <= U64_MAX;
    }
  }

  /** The selection is `ceil(entities * percent / 100)` exactly when the product fits the
      machine word or every entity is requested anyway. */
  lemma ChosenIsPercentage(entities: nat, percent: nat)
    requires percent <= 100
    ensures Chosen(entities, percent) == DivCeil(entities * percent, 100)
            <==> entities * percent <= U64_MAX || percent == 100
  {
    var product := entities * percent;
    if product > U64_MAX {
      ProductMonotone(percent, 100, entities);
      DivCeilCovers(product, 100, entities);
      DivCeilCovers(product, 100, entities - 1);
      if percent < 100 {
        ProductMonotone(percent, 99, entities);
      }
    }
  }

  /** The entities of one station that are chosen at `percent` fit the vector reserved for
      them whenever the selection product fits the machine word. */
  lemma ReserveSuffices(entities: nat, stations: nat, station: nat, percent: nat)
    requires station < stations && percent <= 100
    requires entities * percent <= U64_MAX
    ensures SlotSize(Chosen(entities, percent), stations, station)
            <= Reserve(SlotSize(entities, stations, station), percent)
  {
    var capacity := SlotSize(entities, stations, station);
    var chosen := Chosen(entities, percent);
    var used := SlotSize(chosen, stations, station);
    SlotSizeCovers(entities, stations, station, capacity);
    CapacityWithinRoom(entities, stations, station);
    ProductMonotone(capacity, entities, percent);
    if used > 0 {
      var last := used - 1;
      var item := station + last * stations;
      SlotSizeCovers(chosen, stations, station, last);
      DivCeilCovers(entities * percent, 100, item);
      LastChosenIndex(station, stations, capacity, last, entities, percent);
      DivCeilCovers(capacity * percent, 100, last);
    }
  }

  lemma CapacityWithinRoom(entities: nat, stations: nat, station: nat)
    requires station < stations
    ensures SlotSize(entities, stations, station) <= entities
  {
    hide SlotSize;
    ProductMonotone(1, stations, entities);
    SlotSizeCovers(entities, stations, station, entities);
  }

  lemma LastChosenIndex(
      station: nat, stations: nat, capacity: nat, index: nat, entities: nat, percent: nat)
    requires station < stations && percent <= 100
    requires entities <= station + capacity * stations
    requires (station + index * stations) * 100 < entities * percent
    ensures index * 100 < capacity * percent
  {
    Scale(station, index, stations, 100);
    Scale(station, capacity, stations, percent);
    ProductMonotone(entities, station + capacity * stations, percent);
    ProductMonotone(percent, 100, station);
    ProductCancel(stations, index * 100, capacity * percent);
  }

  lemma Scale(base: int, index: int, step: int, factor: int)
    ensures (base + index * step) * factor == base * factor + step * (index * factor)
  {
  }

  /** Once the selection product saturates, every entity is chosen; the reservation then
      suffices exactly when it covers the station's whole capacity. */
  lemma ReserveWhenSaturated(entities: nat, stations: nat, station: nat, percent: nat)
    requires station < stations && percent <= 100
    requires entities * percent > U64_MAX
    ensures var capacity := SlotSize(entities, stations, station);
            SlotSize(Chosen(entities, percent), stations, station) <= Reserve(capacity, percent)
            <==> if percent == 100 then capacity <= DivCeil(U64_MAX, 100)
                 else capacity * (100 - percent) < 100
  {
    ReserveCoversAll(SlotSize(entities, stations, station), percent);
  }

  lemma ReserveCoversAll(capacity: nat, percent: nat)
    requires percent <= 100
    ensures capacity <= Reserve(capacity, percent)
            <==> if percent == 100 then capacity <= DivCeil(U64_MAX, 100)
                 else capacity * (100 - percent) < 100
  {
    var product := capacity * percent;
    assert capacity * (100 - percent) == capacity * 100 - product;
    if capacity > 0 {
      DivCeilCovers(Min(product, U64_MAX), 100, capacity - 1);
      DivCeilCovers(U64_MAX, 100, capacity - 1);
      if percent < 100 {
        ProductMonotone(percent, 99, capacity);
      }
    }
  }

  /** A concrete room that overruns its reservation: one station, 2 percent, and an entity
      count whose selection product no longer fits. */
  lemma SaturationOverrunsReserve()
    ensures SlotSize(Chosen(U64_MAX, 2), 1, 0) > Reserve(SlotSize(U64_MAX, 1, 0), 2)
  {
    SlotSizeFormula(U64_MAX, 1, 0);
    ReserveWhenSaturated(U64_MAX, 1, 0, 2);
  }

  /** No station serves more viewers than `playersPerStation`, unless the station limit
      stopped the room from opening enough of them; then that limit is the station count. */
  lemma ViewersPerStation(
      players: nat, playersPerStation: nat, maxStations: nat, station: nat)
    requires playersPerStation > 0 && maxStations > 0
    requires station < StationsForPlayers(players, playersPerStation, maxStations)
    ensures var stations := StationsForPlayers(players, playersPerStation, maxStations);
            (SlotSize(players, stations, station) <= playersPerStation
             || (stations == maxStations && stations * playersPerStation < players))
  {
    var stations := StationsForPlayers(players, playersPerStation, maxStations);
    var needed := DivCeil(players, playersPerStation);
    DivCeilCovers(players, playersPerStation, needed);
    DivCeilCovers(players, playersPerStation, stations);
    if needed <= stations {
      assert stations * playersPerStation == playersPerStation * stations >= players;
      SlotSizeCovers(players, stations, station, playersPerStation);
    }
  }

  /** A room opens the fewest stations that serve its players, one at least, up to the limit. */
  lemma StationsExactly(players: nat, playersPerStation: nat, maxStations: nat, stations: nat)
    requires playersPerStation > 0 && maxStations > 0
    ensures stations == StationsForPlayers(players, playersPerStation, maxStations)
            <==> && 1 <= stations <= maxStations
                 && (players <= stations * playersPerStation || stations == maxStations)
                 && (stations == 1 || (stations - 1) * playersPerStation < players)
  {
    hide DivCeil;
    DivCeilCovers(players, playersPerStation, stations);
    if stations > 0 {
      DivCeilCovers(players, playersPerStation, stations - 1);
    }
  }

  /** A room with one station uses its reservation to the last place. */
  lemma ReserveIsTight(entities: nat, percent: nat)
    requires percent <= 100 && entities * percent <= U64_MAX
    ensures SlotSize(Chosen(entities, percent), 1, 0) == Reserve(SlotSize(entities, 1, 0), percent)
  {
    SlotSizeFormula(Chosen(entities, percent), 1, 0);
    SlotSizeFormula(entities, 1, 0);
  }

  /** What one station must hold after `players` players and `entities` entities of a room of
      `total` entities have been distributed. */
  ghost predicate Distributed(
      work: StationWork, stations: nat, station: nat, players: nat, entities: nat, total: nat,
      moving: nat, updating: nat, dirty: nat)
    requires station < stations
  {
    && work.viewers == Slot(players, stations, station)
    && work.entities == Slot(entities, stations, station)
    && work.moving == Slot(Min(entities, Chosen(total, moving)), stations, station)
    && work.updating == Slot(Min(entities, Chosen(total, updating)), stations, station)
    && work.dirty == Slot(Min(entities, Chosen(total, dirty)), stations, station)
  }

  lemma BucketSlotStep(
      entity: nat, entities: nat, percent: nat, stations: nat, station: nat, slot: seq<nat>)
    requires station < stations && entity < entities && percent <= 100
    requires slot == Slot(Min(entity, Chosen(entities, percent)), stations, station)
    ensures Slot(Min(entity + 1, Chosen(entities, percent)), stations, station)
            == if entity % stations == station && InBucket(entity, entities, percent)
               then slot + [entity] else slot
  {
    BucketIsPrefix(entity, entities, percent);
    if InBucket(entity, entities, percent) {
      SlotStep(entity, stations, station);
    }
  }

  /** Placing one entity turns the distribution of the first `entity` entities into that of
      the first `entity + 1`. */
  function Place(
      work: StationWork, entity: nat, entities: nat, moving: nat, updating: nat, dirty: nat)
    : StationWork
  {
    work.(
      entities := work.entities + [entity],
      moving := if InBucket(entity, entities, moving) then work.moving + [entity] else work.moving,
      updating := if InBucket(entity, entities, updating) then work.updating + [entity] else work.updating,
      dirty := if InBucket(entity, entities, dirty) then work.dirty + [entity] else work.dirty)
  }

  lemma PlaceStep(
      before: StationWork, after: StationWork, stations: nat, station: nat, players: nat, entity: nat,
      total: nat, moving: nat, updating: nat, dirty: nat)
    requires station < stations && entity < total
    requires moving <= 100 && updating <= 100 && dirty <= 100
    requires Distributed(before, stations, station, players, entity, total, moving, updating, dirty)
    requires after == if entity % stations == station
                      then Place(before, entity, total, moving, updating, dirty) else before
    ensures Distributed(after, stations, station, players, entity + 1, total, moving, updating, dirty)
  {
    SlotStep(entity, stations, station);
    BucketSlotStep(entity, total, moving, stations, station, before.moving);
    BucketSlotStep(entity, total, updating, stations, station, before.updating);
    BucketSlotStep(entity, total, dirty, stations, station, before.dirty);
  }

  /** Stations of a room with their capacities, before anyone is placed. */
  method ReserveStations(entities: nat, stationCount: nat, moving: nat, updating: nat)
    returns (stations: seq<StationWork>)
    requires stationCount > 0
    ensures |stations| == stationCount
    ensures forall s | 0 <= s < stationCount ::
              stations[s] == StationWork(
                SlotSize(entities, stationCount, s),
                Reserve(SlotSize(entities, stationCount, s), moving),
                Reserve(SlotSize(entities, stationCount, s), updating), [], [], [], [], [])
  {
    hide Reserve, SlotSize;
    stations := [];
    for s := 0 to stationCount
      invariant |stations| == s
      invariant forall i | 0 <= i < s ::
                  stations[i] == StationWork(
                    SlotSize(entities, stationCount, i),
                    Reserve(SlotSize(entities, stationCount, i), moving),
                    Reserve(SlotSize(entities, stationCount, i), updating), [], [], [], [], [])
    {
      var capacity := EntityCapacity(entities, stationCount, s);
      SlotSizeFormula(entities, stationCount, s);
      stations := stations
        + [StationWork(capacity, Reserve(capacity, moving), Reserve(capacity, updating), [], [], [], [], [])];
    }
  }

  /** Players in turn over the stations. */
  method SeatPlayers(created: seq<StationWork>, players: nat) returns (stations: seq<StationWork>)
    requires created != [] && forall s | 0 <= s < |created| :: created[s].viewers == []
    ensures |stations| == |created|
    ensures forall s | 0 <= s < |created| ::
              stations[s] == created[s].(viewers := Slot(players, |created|, s))
  {
    var stationCount := |created|;
    stations := created;
    for player := 0 to players
      invariant |stations| == stationCount
      invariant forall i | 0 <= i < stationCount ::
                  stations[i] == created[i].(viewers := Slot(player, stationCount, i))
    {
      forall i | 0 <= i < stationCount
        ensures Slot(player + 1, stationCount, i)
                == if player % stationCount == i then stations[i].viewers + [player] else stations[i].viewers
      {
        SlotStep(player, stationCount, i);
      }
      var station := player % stationCount;
      stations := stations[station := stations[station].(viewers := stations[station].viewers + [player])];
    }
  }

  /** The stations when the first `placed` entities were placed. */
  ghost predicate PlacedSoFar(
      stations: seq<StationWork>, players: nat, placed: nat, entities: nat, moving: nat, updating: nat,
      dirty: nat)
  {
    forall s | 0 <= s < |stations| ::
      && Distributed(stations[s], |stations|, s, players, placed, entities, moving, updating, dirty)
      && stations[s].entityCapacity == SlotSize(entities, |stations|, s)
      && stations[s].movingReserve == Reserve(SlotSize(entities, |stations|, s), moving)
      && stations[s].updatingReserve == Reserve(SlotSize(entities, |stations|, s), updating)
  }

  lemma PlaceNext(
      before: seq<StationWork>, after: seq<StationWork>, players: nat, entity: nat, entities: nat,
      moving: nat, updating: nat, dirty: nat)
    requires before != [] && entity < entities && moving <= 100 && updating <= 100 && dirty <= 100
    requires PlacedSoFar(before, players, entity, entities, moving, updating, dirty)
    requires var station := entity % |before|;
             after == before[station := Place(before[station], entity, entities, moving, updating, dirty)]
    ensures PlacedSoFar(after, players, entity + 1, entities, moving, updating, dirty)
  {
    hide Distributed, SlotSize, Reserve;
    forall s | 0 <= s < |after|
      ensures Distributed(after[s], |after|, s, players, entity + 1, entities, moving, updating, dirty)
    {
      PlaceStep(before[s], after[s], |after|, s, players, entity, entities, moving, updating, dirty);
    }
  }

  /** Entities in turn over the stations. */
  method PlaceEntities(
      seated: seq<StationWork>, ghost players: nat, entities: nat, moving: nat, updating: nat, dirty: nat)
    returns (stations: seq<StationWork>)
    requires seated != [] && moving <= 100 && updating <= 100 && dirty <= 100
    requires PlacedSoFar(seated, players, 0, entities, moving, updating, dirty)
    ensures |stations| == |seated|
    ensures PlacedSoFar(stations, players, entities, entities, moving, updating, dirty)
  {
    hide PlacedSoFar, Place;
    stations := seated;
    for entity := 0 to entities
      invariant |stations| == |seated|
      invariant PlacedSoFar(stations, players, entity, entities, moving, updating, dirty)
    {
      var station := entity % |stations|;
      var placed := stations[station := Place(stations[station], entity, entities, moving, updating, dirty)];
      PlaceNext(stations, placed, players, entity, entities, moving, updating, dirty);
      stations := placed;
    }
  }

  /** Creates the stations of one room and distributes its players and entities. Every station
      ends with exactly the entities its capacity was computed for. */
  method CreateRoomStations(
      players: nat, entities: nat, stationCount: nat, moving: nat, updating: nat, dirtyPercent: nat)
    returns (stations: seq<StationWork>)
    requires stationCount > 0
    requires moving <= 100 && updating <= 100 && dirtyPercent <= 100
    ensures |stations| == stationCount
    ensures forall s | 0 <= s < stationCount ::
              && Distributed(
                   stations[s], stationCount, s, players, entities, entities, moving, updating, dirtyPercent)
              && stations[s].entityCapacity == |stations[s].entities|
              && stations[s].movingReserve == Reserve(|stations[s].entities|, moving)
              && stations[s].updatingReserve == Reserve(|stations[s].entities|, updating)
  {
    stations := ReserveStations(entities, stationCount, moving, updating);
    stations := SeatPlayers(stations, players);
    stations := PlaceEntities(stations, players, entities, moving, updating, dirtyPercent);
    hide Reserve, Chosen;
    if entities > 0 {
      BucketIsPrefix(0, entities, moving);
      BucketIsPrefix(0, entities, updating);
      BucketIsPrefix(0, entities, dirtyPercent);
    }
  }

  /** Room-wide consequences of the distribution: entities, viewers and chosen entities are
      conserved over the stations. */
  lemma RoomConservation(players: nat, entities: nat, stations: nat, percent: nat)
    requires stations > 0 && percent <= 100
    ensures TotalSize(players, stations, stations) == players
    ensures TotalSize(entities, stations, stations) == entities
    ensures TotalSize(Chosen(entities, percent), stations, stations) == Chosen(entities, percent)
  {
    SlotsPartition(players, stations);
    SlotsPartition(entities, stations);
    SlotsPartition(Chosen(entities, percent), stations);
  }
}
