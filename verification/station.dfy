/** The station's generational slot table: dense handles whose generation detects reuse. */
module StationTable {
  import opened MachineInts
  import opened Options

  /** Positions are counted in quarter units: the benchmark only produces multiples of 0.25,
      which its 32-bit floats represent exactly. */
  datatype Position = Position(x: nat, z: nat)

  datatype EntityHandle = EntityHandle(index: nat, generation: nat)

  datatype Entity = Entity(id: nat, handle: EntityHandle, position: Position)

  /** An allocated handle and the station that holds it. */
  datatype Spawned = Spawned(station: Station, handle: EntityHandle)

  datatype Station = Station(
    tick: nat,
    records: seq<Option<Entity>>,
    generations: seq<nat>,
    free: seq<nat>,
    byId: map<nat, EntityHandle>)
  {
    /** Slots, generations, the free list and the id index agree. */
    ghost predicate Valid() {
      && |records| == |generations| <= U32_MAX + 1
      && (forall i | 0 <= i < |generations| :: generations[i] <= U32_MAX)
      && SlotsValid() && FreeValid() && IdsValid()
    }

    /** A live record knows its own handle and is found by its id. */
    ghost predicate SlotsValid()
      requires |records| == |generations|
    {
      forall i | 0 <= i < |records| && records[i].Some? ::
        && records[i].value.handle == EntityHandle(i, generations[i])
        && records[i].value.id in byId && byId[records[i].value.id] == records[i].value.handle
    }

    /** The free list names the empty slots, each once. */
    ghost predicate FreeValid() {
      && (forall k | 0 <= k < |free| :: free[k] < |records| && records[free[k]].None?)
      && (forall k, l | 0 <= k < l < |free| :: free[k] != free[l])
    }

    /** The id index names live records only. */
    ghost predicate IdsValid()
      requires |records| == |generations|
    {
      forall id | id in byId ::
        var index := byId[id].index;
        index < |records| && records[index].Some? && records[index].value.id == id
    }

    /** Resolves a handle if its generation is still current. */
    function Get(handle: EntityHandle): Option<Entity> {
      if handle.index < |generations| && generations[handle.index] == handle.generation
         && handle.index < |records|
      then records[handle.index]
      else None
    }

    predicate IsLive(handle: EntityHandle) { Get(handle).Some? }

    function AdvanceTick(): Station { this.(tick := SatAdd(tick, 1)) }

    /** Spawns an entity in a recycled slot if there is one. `None` stands for the error or the
        panic of a duplicate id or an exhausted table. */
    function SpawnOwned(id: nat, position: Position): Option<Spawned> {
      if id in byId then None
      else if free == [] then
        if |records| > U32_MAX then None
        else
          var handle := EntityHandle(|records|, 0);
          Some(Spawned(
            this.(records := records + [Some(Entity(id, handle, position))],
                  generations := generations + [0],
                  byId := byId[id := handle]),
            handle))
      else
        var index := free[|free| - 1];
        if index >= |records| || index >= |generations| then None
        else
          var handle := EntityHandle(index, generations[index]);
          Some(Spawned(
            this.(records := records[index := Some(Entity(id, handle, position))],
                  free := free[..|free| - 1],
                  byId := byId[id := handle]),
            handle))
    }

    /** Moves a live entity; fails on a stale handle. */
    function MoveOwned(handle: EntityHandle, position: Position): Option<Station> {
      var entity :- Get(handle);
      Some(this.(records := records[handle.index := Some(entity.(position := position))]))
    }

    /** Removes a live entity: its slot is recycled under the next generation, which saturates. */
    function Remove(handle: EntityHandle): Option<Station> {
      var entity :- Get(handle);
      Some(this.(
        records := records[handle.index := None],
        generations := generations[handle.index := Min(generations[handle.index] + 1, U32_MAX)],
        free := free + [handle.index],
        byId := byId - {entity.id}))
    }
  }

  const EMPTY := Station(0, [], [], [], map[])

  /** Spawning a fresh id on a table with room succeeds, issues a handle that was not live,
      and changes nothing else. */
  lemma SpawnEffect(station: Station, id: nat, position: Position)
    requires station.Valid() && id !in station.byId && |station.records| <= U32_MAX
    ensures var spawned := station.SpawnOwned(id, position);
            && spawned.Some?
            && var Spawned(after, handle) := spawned.value;
               && after.Valid() && after.tick == station.tick
               && !station.IsLive(handle)
               && after.Get(handle) == Some(Entity(id, handle, position))
               && (forall other | other != handle :: after.Get(other) == station.Get(other))
               && after.byId == station.byId[id := handle]
  {
    if station.free == [] {
      AppendKeepsTable(station, id, position);
    } else {
      RecycleKeepsTable(station, id, position);
    }
    hide Station.Valid;
  }

  lemma AppendKeepsTable(station: Station, id: nat, position: Position)
    requires station.Valid() && id !in station.byId && |station.records| <= U32_MAX && station.free == []
    ensures station.SpawnOwned(id, position).Some?
    ensures station.SpawnOwned(id, position).value.station.Valid()
  {
    assert station.SpawnOwned(id, position).value.station.SlotsValid();
  }

  lemma RecycleKeepsTable(station: Station, id: nat, position: Position)
    requires station.Valid() && id !in station.byId && station.free != []
    ensures station.SpawnOwned(id, position).Some?
    ensures station.SpawnOwned(id, position).value.station.Valid()
    ensures station.records[station.free[|station.free| - 1]].None?
  {
    var after := station.SpawnOwned(id, position).value.station;
    var index := station.free[|station.free| - 1];
    assert forall k | 0 <= k < |after.free| :: station.free[k] != index;
  }

  /** How a spawn changes the slots: a free slot is reused under its current generation, or the
      table grows by one slot of generation zero. */
  lemma SpawnSlots(station: Station, id: nat, position: Position)
    requires station.Valid() && station.SpawnOwned(id, position).Some?
    ensures var Spawned(after, handle) := station.SpawnOwned(id, position).value;
            if station.free == [] then
              && after.free == [] && |after.records| == |station.records| + 1
              && handle == EntityHandle(|station.records|, 0)
              && after.generations == station.generations + [0]
            else
              && |after.free| == |station.free| - 1 && |after.records| == |station.records|
              && after.generations == station.generations
              && handle.index < |station.records|
              && handle.generation == station.generations[handle.index]
  {
  }

  lemma MoveEffect(station: Station, handle: EntityHandle, position: Position)
    requires station.Valid() && station.IsLive(handle)
    ensures var moved := station.MoveOwned(handle, position);
            && moved.Some?
            && var after := moved.value;
               && after.Valid() && after.tick == station.tick
               && after.Get(handle) == Some(station.Get(handle).value.(position := position))
               && (forall other | other != handle :: after.Get(other) == station.Get(other))
               && after.byId == station.byId && after.generations == station.generations
               && after.free == station.free && |after.records| == |station.records|
  {
    var after := station.MoveOwned(handle, position).value;
    assert after.SlotsValid();
  }

  /** Removing a live entity makes its handle stale as long as its generation can still grow. */
  lemma RemoveEffect(station: Station, handle: EntityHandle)
    requires station.Valid() && station.IsLive(handle)
    ensures var removed := station.Remove(handle);
            && removed.Some?
            && var after := removed.value;
               && after.Valid() && after.tick == station.tick
               && !after.IsLive(handle)
               && (forall other | other != handle :: after.Get(other) == station.Get(other))
               && after.byId == station.byId - {station.Get(handle).value.id}
               && |after.records| == |station.records|
               && after.free == station.free + [handle.index]
               && after.generations
                  == station.generations[handle.index := Min(handle.generation + 1, U32_MAX)]
  {
    var after := station.Remove(handle).value;
    RemoveKeepsTable(station, handle);
    forall other | other != handle ensures after.Get(other) == station.Get(other) {
      if other.index == handle.index {
        assert station.Get(other) == None;
      }
    }
  }

  lemma RemoveKeepsTable(station: Station, handle: EntityHandle)
    requires station.Valid() && station.IsLive(handle)
    ensures station.Remove(handle).value.Valid()
  {
    var after := station.Remove(handle).value;
    var id := station.Get(handle).value.id;
    forall i | 0 <= i < |after.records| && after.records[i].Some?
      ensures after.records[i].value.id != id
    {
      var other := station.records[i].value;
      assert station.byId[other.id] == EntityHandle(i, station.generations[i]);
    }
    assert after.SlotsValid();
    assert after.FreeValid();
  }

  /** The operations that can follow on a station. */
  datatype Operation =
    | Spawn(id: nat, position: Position)
    | Move(handle: EntityHandle, position: Position)
    | Despawn(handle: EntityHandle)
    | Advance

  /** A failing operation leaves the station as it was. */
  function Perform(station: Station, operation: Operation): Station {
    match operation
    case Spawn(id, position) =>
      var spawned := station.SpawnOwned(id, position);
      if spawned.Some? then spawned.value.station else station
    case Move(handle, position) =>
      var moved := station.MoveOwned(handle, position);
      if moved.Some? then moved.value else station
    case Despawn(handle) =>
      var removed := station.Remove(handle);
      if removed.Some? then removed.value else station
    case Advance => station.AdvanceTick()
  }

  function PerformAll(station: Station, operations: seq<Operation>): Station {
    if operations == [] then station
    else Perform(PerformAll(station, operations[..|operations| - 1]), operations[|operations| - 1])
  }

  /** Every operation keeps the table valid, and no generation ever decreases. */
  lemma PerformKeepsTable(station: Station, operation: Operation)
    requires station.Valid()
    ensures Perform(station, operation).Valid()
    ensures |station.generations| <= |Perform(station, operation).generations|
    ensures forall i | 0 <= i < |station.generations| ::
              station.generations[i] <= Perform(station, operation).generations[i]
  {
    match operation {
      case Spawn(id, position) =>
        if station.SpawnOwned(id, position).Some? {
          SpawnSlots(station, id, position);
          SpawnKeepsTable(station, id, position);
        }
      case Move(handle, position) =>
        if station.IsLive(handle) {
          MoveEffect(station, handle, position);
        }
      case Despawn(handle) =>
        if station.IsLive(handle) {
          RemoveEffect(station, handle);
        }
      case Advance =>
        assert station.AdvanceTick().SlotsValid();
    }
  }

  lemma SpawnKeepsTable(station: Station, id: nat, position: Position)
    requires station.Valid() && station.SpawnOwned(id, position).Some?
    ensures station.SpawnOwned(id, position).value.station.Valid()
  {
    if |station.records| <= U32_MAX {
      SpawnEffect(station, id, position);
    } else {
      var after := station.SpawnOwned(id, position).value.station;
      var index := station.free[|station.free| - 1];
      assert forall k | 0 <= k < |after.free| :: station.free[k] != index;
    }
  }

  /** Handle safety over whole runs: once removed, a handle never resolves again, whatever
      operations follow and however often its slot is reused, provided its generation was
      below the saturation point. */
  lemma {:induction false} StaleHandleNeverResolves(
      station: Station, handle: EntityHandle, operations: seq<Operation>)
    requires station.Valid() && station.IsLive(handle) && handle.generation < U32_MAX
    ensures var later := PerformAll(station.Remove(handle).value, operations);
            later.Valid() && handle.index < |later.generations|
            && handle.generation < later.generations[handle.index] && !later.IsLive(handle)
  {
    RemoveEffect(station, handle);
    if operations != [] {
      StaleHandleNeverResolves(station, handle, operations[..|operations| - 1]);
      var before := PerformAll(station.Remove(handle).value, operations[..|operations| - 1]);
      PerformKeepsTable(before, operations[|operations| - 1]);
    }
  }

  /** At the saturation point the protection ends, and only there: respawning right after a
      removal re-issues the removed handle exactly when its generation has saturated. */
  lemma HandleReissuedOnlyWhenSaturated(
      station: Station, handle: EntityHandle, id: nat, position: Position)
    requires station.Valid() && station.IsLive(handle)
    requires id !in station.byId
    ensures var respawned := station.Remove(handle).value.SpawnOwned(id, position);
            && respawned.Some? && respawned.value.handle.index == handle.index
            && (respawned.value.handle == handle <==> handle.generation == U32_MAX)
  {
    RemoveEffect(station, handle);
  }

  /** A table after one entity was spawned and removed `n` times. */
  function Churned(id: nat, position: Position, n: nat): Station {
    if n == 0 then EMPTY
    else
      var spawned := Perform(Churned(id, position, n - 1), Spawn(id, position));
      Perform(spawned, Despawn(EntityHandle(0, Min(n - 1, U32_MAX))))
  }

  /** Saturation is reached by using one slot again and again. */
  lemma {:induction false} ChurnedGeneration(id: nat, position: Position, n: nat)
    requires n > 0
    ensures Churned(id, position, n) == Station(0, [None], [Min(n, U32_MAX)], [0], map[])
  {
    if n > 1 {
      ChurnedGeneration(id, position, n - 1);
      ChurnStep(id, position, Min(n - 1, U32_MAX));
    }
  }

  lemma ChurnStep(id: nat, position: Position, generation: nat)
    ensures var spawned := Perform(Station(0, [None], [generation], [0], map[]), Spawn(id, position));
            Perform(spawned, Despawn(EntityHandle(0, generation)))
            == Station(0, [None], [Min(generation + 1, U32_MAX)], [0], map[])
  {
  }
}
