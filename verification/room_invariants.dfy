/** What holds of a gameplay room in every state a run can reach. */
module RoomInvariants {
  import opened MachineInts
  import opened Options
  import opened StationTable
  import opened Components
  import opened GatewaySessions
  import opened RoomSpec
  import opened RoomAccounts
  import Commands = CommandQueues

  /** The entities and players of a room are the ones it was created with. */
  ghost predicate Layout(room: RoomState) {
    && MAX_PLAYERS <= |room.entities|
    && (forall i | 0 <= i < |room.entities| :: room.entities[i] == EntityHandle(i, 0))
    && |room.players| == PlayerCount(room.id)
    && (forall k | 0 <= k < |room.players| ::
          room.players[k] == Player(RoomClientId(room.id, k), RoomEntityId(room.id, k), EntityHandle(k, 0)))
  }

  /** Permanent entities and projectiles are live, under distinct handles. */
  ghost predicate Population(room: RoomState) {
    && (forall i | 0 <= i < |room.entities| ::
          && room.station.IsLive(room.entities[i])
          && room.station.Get(room.entities[i]).value.id == RoomEntityId(room.id, i))
    && (forall j | 0 <= j < |room.projectiles| ::
          && room.station.IsLive(room.projectiles[j].handle)
          && room.projectiles[j].handle.index >= |room.entities|)
    && (forall j, k | 0 <= j < k < |room.projectiles| ::
          room.projectiles[j].handle != room.projectiles[k].handle)
  }

  /** Every slot of the station holds an entity or a projectile, or is free. */
  ghost predicate SlotsCounted(room: RoomState) {
    |room.station.records| == |room.entities| + |room.projectiles| + |room.station.free|
  }

  /** The next projectile's id is above every id in use. */
  ghost predicate NextIdFresh(room: RoomState) {
    forall id | id in room.station.byId :: id < RoomEntityId(room.id, room.nextEntityLocal)
  }

  predicate InWorld(position: Position) { position.x < WORLD && position.z < WORLD }

  /** The three views of an entity agree: the station, the spatial index and the component store
      know the same handles, and the same position for each. */
  ghost predicate EntityAgrees(room: RoomState, handle: EntityHandle) {
    && (handle in room.index <==> room.station.IsLive(handle))
    && (room.station.IsLive(handle) ==>
          var position := room.station.Get(handle).value.position;
          && InWorld(position) && room.index[handle] == position
          && BlobKey(STATE, handle) in room.components.blobs
          && BlobKey(TRANSFORM, handle) in room.components.blobs
          && room.components.blobs[BlobKey(TRANSFORM, handle)].payload == Transform(position))
  }

  ghost predicate Coherent(room: RoomState) {
    && (forall handle: EntityHandle :: EntityAgrees(room, handle))
    && (forall key | key in room.components.blobs :: room.station.IsLive(key.handle))
    && room.components.columns == {TRANSFORM, STATE, INVENTORY}
  }

  /** Dirty tracking is complete: whatever is marked dirty belongs to a listed handle. */
  ghost predicate DirtyTracked(room: RoomState) {
    forall key | key in room.components.blobs && room.components.blobs[key].dirty ::
      key.handle in room.dirtyHandles
  }

  /** Dirty tracking is sound: listed handles are live. */
  ghost predicate DirtyLive(room: RoomState) {
    forall handle | handle in room.dirtyHandles :: room.station.IsLive(handle)
  }

  /** Before projectiles are updated only permanent entities are listed. */
  ghost predicate DirtyPermanent(room: RoomState) {
    forall handle | handle in room.dirtyHandles :: handle in room.entities
  }

  ghost predicate NothingDirty(room: RoomState) {
    && room.dirtyHandles == []
    && forall key | key in room.components.blobs :: !room.components.blobs[key].dirty
  }

  /** A slot is recycled at most once a tick, so no generation exceeds the room's age. */
  ghost predicate GenerationsBounded(room: RoomState) {
    forall i | 0 <= i < |room.station.generations| :: room.station.generations[i] <= room.station.tick
  }

  /** The invariant of every state of a room, within a tick as well as between ticks. */
  ghost predicate Core(room: RoomState) {
    && room.station.Valid()
    && Layout(room) && Population(room) && SlotsCounted(room) && NextIdFresh(room)
    && Coherent(room) && DirtyTracked(room) && DirtyLive(room) && GenerationsBounded(room)
    && Accounts(room)
  }

  /** Only blobs of one component were written, at one version, and each of those is dirty. */
  ghost predicate WritesOnly(before: ComponentStore, after: ComponentStore, component: nat, version: nat) {
    && after.columns == before.columns && after.blobs.Keys == before.blobs.Keys
    && forall key | key in before.blobs ::
         after.blobs[key] == before.blobs[key]
         || (key.component == component && after.blobs[key].dirty && after.blobs[key].version == version)
  }

  /** What moving entities leaves alone: of the components it writes transforms, at the current tick. */
  ghost predicate OnlyMoved(before: RoomState, after: RoomState) {
    && after == before.(
         station := after.station, index := after.index, components := after.components,
         dirtyHandles := after.dirtyHandles, commands := after.commands)
    && after.station.tick == before.station.tick && after.station.free == before.station.free
    && after.station.generations == before.station.generations
    && |after.station.records| == |before.station.records| && after.station.byId == before.station.byId
    && WritesOnly(before.components, after.components, TRANSFORM, before.station.tick)
  }

  lemma MovedPositionInWorld(current: Position, sequence: nat)
    ensures InWorld(MovedPosition(current, sequence))
  {
  }

  /** A move steps by 1.25 units in one direction and by 0.75 in the other: forward where the bit of
      the sequence is zero, and what such a step undoes where it is one. */
  lemma MoveSteps(position: Position, sequence: nat)
    requires InWorld(position)
    ensures var moved := MovedPosition(position, sequence);
            && (if sequence % 2 == 0 then moved.x == (position.x + 5) % WORLD
                else (moved.x + 5) % WORLD == position.x)
            && (if sequence / 2 % 2 == 0 then moved.z == (position.z + 3) % WORLD
                else (moved.z + 3) % WORLD == position.z)
  {
  }

  lemma Scaled(n: nat, m: nat)
    requires m > 0
    ensures n % m * 4 == n * 4 % (m * 4)
  {
    assert n * 4 == n / m * (m * 4) + n % m * 4;
    DivModUnique(n * 4, m * 4, n / m, n % m * 4);
  }

  /** Initial positions: the first entity of the first room stands in the corner, the next one of a
      room is 17 and 29 units further, and that of the next room 3 and 5. */
  lemma PositionsAdvance(room: nat, local: nat)
    requires (local + 1) * 29 + (room + 1) * 5 <= U64_MAX
    ensures EntityPosition(0, 0) == Position(0, 0)
    ensures var position := EntityPosition(room, local);
            && EntityPosition(room, local + 1)
               == Position((position.x + 17 * 4) % WORLD, (position.z + 29 * 4) % WORLD)
            && EntityPosition(room + 1, local)
               == Position((position.x + 3 * 4) % WORLD, (position.z + 5 * 4) % WORLD)
  {
    var x, z := local * 17 + room * 3, local * 29 + room * 5;
    Scaled(x, 192);
    Scaled(x + 17, 192);
    Scaled(x + 3, 192);
    Scaled(z, 192);
    Scaled(z + 29, 192);
    Scaled(z + 5, 192);
    SumMod(x * 4, 17 * 4, WORLD);
    SumMod(x * 4, 3 * 4, WORLD);
    SumMod(z * 4, 29 * 4, WORLD);
    SumMod(z * 4, 5 * 4, WORLD);
  }

  /** Two moves undo each other exactly when their sequences differ in both direction bits; the
      wrap-around at the border makes no difference. */
  lemma OppositeMovesCancel(position: Position, first: nat, second: nat)
    requires InWorld(position)
    ensures MovedPosition(MovedPosition(position, first), second) == position
            <==> first % 2 != second % 2 && first / 2 % 2 != second / 2 % 2
  {
    var x := position.x + if first % 2 == 0 then 5 else WORLD - 5;
    var z := position.z + if first / 2 % 2 == 0 then 3 else WORLD - 3;
    assert x % WORLD == if x < WORLD then x else x - WORLD;
    assert z % WORLD == if z < WORLD then z else z - WORLD;
  }

  /** Moving a live entity succeeds, keeps the invariant, and moves that entity alone. */
  lemma MoveKeepsCore(sim: Sim, handle: EntityHandle, position: Position)
    requires Core(sim.room) && sim.room.station.IsLive(handle) && InWorld(position)
    ensures var moved := MoveEntity(sim, handle, position);
            && moved.Some?
            && var after := moved.value.room;
               && Core(after) && OnlyMoved(sim.room, after)
               && after.commands == sim.room.commands
               && after.dirtyHandles == sim.room.dirtyHandles + [handle]
               && after.station.Get(handle)
                  == Some(sim.room.station.Get(handle).value.(position := position))
               && forall other | other != handle :: after.station.Get(other) == sim.room.station.Get(other)
  {
    hide Accounts, Coherent, DirtyTracked, WritesOnly;
    MoveKeepsViews(sim, handle, position);
    MoveEffect(sim.room.station, handle, position);
  }

  lemma MoveKeepsViews(sim: Sim, handle: EntityHandle, position: Position)
    requires sim.room.station.Valid() && Coherent(sim.room) && DirtyTracked(sim.room) && Accounts(sim.room)
    requires sim.room.station.IsLive(handle) && InWorld(position)
    ensures var moved := MoveEntity(sim, handle, position);
            && moved.Some? && Coherent(moved.value.room) && DirtyTracked(moved.value.room)
            && Accounts(moved.value.room)
            && WritesOnly(sim.room.components, moved.value.room.components, TRANSFORM, sim.room.station.tick)
  {
    hide Accounts;
    MoveEffect(sim.room.station, handle, position);
    assert EntityAgrees(sim.room, handle);
    MoveKeepsAccounts(sim, handle, position);
    var after := MoveEntity(sim, handle, position).value.room;
    forall other: EntityHandle ensures EntityAgrees(after, other) {
      assert EntityAgrees(sim.room, other);
    }
  }

  /** Steps on the gateway, the queues, the transport and the lookup array keep the invariant. */
  lemma SideStateKeepsCore(before: RoomState, after: RoomState)
    requires Core(before)
    requires after == before.(
               gateway := after.gateway, commands := after.commands, hub := after.hub,
               dirtyGenerations := after.dirtyGenerations, readyEvents := after.readyEvents)
    ensures Core(after)
  {
    hide Accounts;
    SideStateKeepsAccounts(before, after);
    forall handle: EntityHandle ensures EntityAgrees(after, handle) {
      assert EntityAgrees(before, handle);
    }
  }

  lemma AdvanceKeepsCore(room: RoomState)
    requires Core(room)
    ensures Core(room.(station := room.station.AdvanceTick()))
    ensures forall handle :: room.station.AdvanceTick().Get(handle) == room.station.Get(handle)
  {
    hide Accounts, Coherent;
    var after := room.(station := room.station.AdvanceTick());
    SideStateKeepsAccounts(room, after);
    AdvanceKeepsViews(room, after);
    assert after.station.SlotsValid();
  }

  lemma AdvanceKeepsViews(room: RoomState, after: RoomState)
    requires Coherent(room) && after == room.(station := room.station.AdvanceTick())
    ensures Coherent(after)
  {
    forall handle: EntityHandle ensures EntityAgrees(after, handle) {
      assert EntityAgrees(room, handle);
    }
  }

  // ----- commands -----

  /** Queued commands in the order they will be applied. */
  function Pending(queues: Commands.Queues): seq<Commands.Command> {
    queues.high + queues.normal + queues.low
  }

  lemma PopTakesFirst(queues: Commands.Queues)
    ensures var popped := queues.PopNext();
            if Pending(queues) == [] then popped.None?
            else popped.Some? && popped.value.command == Pending(queues)[0]
                 && Pending(popped.value.rest) == Pending(queues)[1..]
  {
  }

  function PlayerCommands(room: RoomState, tickIndex: nat, first: nat): seq<Commands.Command>
    requires first <= |room.players|
  {
    seq(|room.players| - first,
        i requires 0 <= i < |room.players| - first => CommandOf(room, tickIndex, first + i))
  }

  /** The first `n` admissions leave exactly the commands of the first `n` players queued. */
  ghost predicate Admitted(before: Sim, after: Sim, tickIndex: nat, n: nat)
    requires n <= |before.room.players|
  {
    && after.room == before.room.(gateway := after.room.gateway, commands := after.room.commands)
    && after.room.commands == Commands.Queues(
         if n == 0 then [] else [CommandOf(before.room, tickIndex, 0)],
         seq(if n == 0 then 0 else n - 1,
             i requires 0 <= i < n - 1 => CommandOf(before.room, tickIndex, i + 1)),
         [])
    && after.stats == before.stats.(commandsAdmitted := SatAdd(before.stats.commandsAdmitted, n))
  }

  /** Sessions are ready for the commands of a tick: no sequence at or above `bound` was used,
      and none was admitted at the current station tick. */
  ghost predicate SessionsReady(room: RoomState, bound: nat, first: nat) {
    && room.gateway.maxCommandsPerTick == 4
    && forall k | first <= k < |room.players| ::
         && room.players[k].client in room.gateway.sessions
         && var session := room.gateway.sessions[room.players[k].client];
            && (session.lastSequence.Some? ==> session.lastSequence.value <= bound)
            && session.commandTick < room.station.tick
  }

  /** Sessions after the commands of tick `tickIndex` were admitted. */
  ghost predicate SessionsUsed(room: RoomState, tickIndex: nat, n: nat) {
    forall k | 0 <= k < n && k < |room.players| ::
      && room.players[k].client in room.gateway.sessions
      && var session := room.gateway.sessions[room.players[k].client];
         session.lastSequence == Some(CommandSequence(tickIndex, k))
         && session.commandTick == session.lastSeen == room.station.tick && session.commandsThisTick == 1
  }

  lemma ClientIdsDistinct(room: nat, j: nat, k: nat)
    requires room <= PORT_MAX && j <= MAX_PLAYERS && k <= MAX_PLAYERS
    ensures RoomClientId(room, j) == RoomClientId(room, k) <==> j == k
    ensures RoomClientId(room, j) != ServerClientId(room)
  {
  }

  /** Every player's command is admitted: nothing is replayed, rate limited or refused. */
  lemma {:induction false} AdmitSucceeds(sim: Sim, tickIndex: nat, n: nat)
    requires Layout(sim.room) && n <= |sim.room.players| && sim.room.id <= PORT_MAX
    requires sim.room.commands == Commands.EMPTY
    requires SessionsReady(sim.room, SatMul(tickIndex, MAX_PLAYERS), 0)
    ensures var admitted := AdmitUpTo(sim, tickIndex, n);
            && admitted.Some?
            && Admitted(sim, admitted.value, tickIndex, n)
            && SessionsReady(admitted.value.room, SatMul(tickIndex, MAX_PLAYERS), n)
            && SessionsUsed(admitted.value.room, tickIndex, n)
  {
    hide AdmitOne, Admitted, SessionsReady, SessionsUsed, Layout;
    if n == 0 {
      NobodyAdmitted(sim, tickIndex);
    } else {
      AdmitSucceeds(sim, tickIndex, n - 1);
      AdmitOneSucceeds(sim, AdmitUpTo(sim, tickIndex, n - 1).value, tickIndex, n - 1);
    }
  }

  lemma NobodyAdmitted(sim: Sim, tickIndex: nat)
    requires sim.room.commands == Commands.EMPTY
    ensures Admitted(sim, sim, tickIndex, 0) && SessionsUsed(sim.room, tickIndex, 0)
  {
  }

  lemma AdmitOneSucceeds(start: Sim, sim: Sim, tickIndex: nat, player: nat)
    requires Layout(start.room) && player < |start.room.players| && start.room.id <= PORT_MAX
    requires Admitted(start, sim, tickIndex, player)
    requires SessionsReady(sim.room, SatMul(tickIndex, MAX_PLAYERS), player)
    requires SessionsUsed(sim.room, tickIndex, player)
    ensures var admitted := AdmitOne(sim, tickIndex, player);
            && admitted.Some?
            && Admitted(start, admitted.value, tickIndex, player + 1)
            && SessionsReady(admitted.value.room, SatMul(tickIndex, MAX_PLAYERS), player + 1)
            && SessionsUsed(admitted.value.room, tickIndex, player + 1)
  {
    forall k | 0 <= k < |sim.room.players| && k != player
      ensures sim.room.players[k].client != sim.room.players[player].client
    {
      ClientIdsDistinct(sim.room.id, k, player);
    }
    assert CommandOf(sim.room, tickIndex, player) == CommandOf(start.room, tickIndex, player);
    SessionAdmits(sim.room, tickIndex, player);
    hide SessionsReady, SessionsUsed, Gateway.AdmitSequence, CommandSequence, Layout;
    var gateway := sim.room.gateway.AdmitSequence(
      sim.room.players[player].client, CommandSequence(tickIndex, player), sim.room.station.tick).value;
    SameSessions(
      sim.room.(gateway := gateway), AdmitOne(sim, tickIndex, player).value.room, tickIndex, player + 1);
  }

  /** The player's own session admits its command, and the others stay as they are. */
  lemma SessionAdmits(room: RoomState, tickIndex: nat, player: nat)
    requires player < |room.players| <= MAX_PLAYERS
    requires forall k | 0 <= k < |room.players| && k != player ::
               room.players[k].client != room.players[player].client
    requires SessionsReady(room, SatMul(tickIndex, MAX_PLAYERS), player)
    requires SessionsUsed(room, tickIndex, player)
    ensures var gateway := room.gateway.AdmitSequence(
              room.players[player].client, CommandSequence(tickIndex, player), room.station.tick);
            && gateway.Some?
            && SessionsReady(room.(gateway := gateway.value), SatMul(tickIndex, MAX_PLAYERS), player + 1)
            && SessionsUsed(room.(gateway := gateway.value), tickIndex, player + 1)
  {
  }

  lemma SameSessions(before: RoomState, after: RoomState, tickIndex: nat, n: nat)
    requires after.players == before.players && after.gateway == before.gateway
    requires after.station == before.station
    requires SessionsReady(before, SatMul(tickIndex, MAX_PLAYERS), n) && SessionsUsed(before, tickIndex, n)
    ensures SessionsReady(after, SatMul(tickIndex, MAX_PLAYERS), n) && SessionsUsed(after, tickIndex, n)
  {
  }

  /** Each player from `first` on is moved once, by its own command, and listed as dirty;
      everything else stays where it was. */
  ghost predicate PlayersMoved(before: Sim, after: Sim, tickIndex: nat, first: nat, last: nat) {
    && first <= last <= |before.room.players|
    && OnlyMoved(before.room, after.room)
    && after.room.dirtyHandles == before.room.dirtyHandles + PlayerHandles(before.room, first, last)
    && (forall k | first <= k < last ::
          var handle := before.room.players[k].handle;
          && before.room.station.IsLive(handle)
          && after.room.station.Get(handle) == Some(CommandMoved(before.room, tickIndex, k)))
    && (forall handle: EntityHandle | handle.index < first || handle.index >= last ::
          after.room.station.Get(handle) == before.room.station.Get(handle))
    && after.stats == MovementCounted(before.stats, last - first).(
         commandsApplied := SatAdd(before.stats.commandsApplied, last - first))
  }

  function PlayerHandles(room: RoomState, first: nat, last: nat): seq<EntityHandle>
    requires first <= last <= |room.players|
  {
    seq(last - first, i requires 0 <= i < last - first => room.players[first + i].handle)
  }

  function MovementCounted(stats: Stats, moves: nat): Stats {
    stats.(movementUpdates := SatAdd(stats.movementUpdates, moves),
           componentUpdates := SatAdd(stats.componentUpdates, moves))
  }

  /** The player's entity after its command of the tick. */
  function CommandMoved(room: RoomState, tickIndex: nat, player: nat): Entity
    requires player < |room.players| && room.station.IsLive(room.players[player].handle)
  {
    var entity := room.station.Get(room.players[player].handle).value;
    entity.(position := MovedPosition(entity.position, CommandSequence(tickIndex, player)))
  }

  lemma CorePlayer(room: RoomState, player: nat)
    requires Core(room) && player < |room.players|
    ensures var Player(_, entity, handle) := room.players[player];
            && handle == EntityHandle(player, 0) && room.station.IsLive(handle)
            && entity in room.station.byId && room.station.byId[entity] == handle
  {
    hide Accounts, Coherent, DirtyTracked, DirtyLive, GenerationsBounded, NextIdFresh, SlotsCounted;
    assert room.players[player].handle == room.entities[player];
    assert room.station.records[player].Some?;
  }

  lemma ApplyCommandMoves(sim: Sim, tickIndex: nat, player: nat)
    requires Core(sim.room) && player < |sim.room.players|
    ensures var applied := ApplyCommand(sim, CommandOf(sim.room, tickIndex, player));
            && applied.Some?
            && Core(applied.value.room) && applied.value.room.commands == sim.room.commands
            && PlayersMoved(sim, applied.value, tickIndex, player, player + 1)
  {
    hide Core;
    CorePlayer(sim.room, player);
    var handle := sim.room.players[player].handle;
    var entity := sim.room.station.Get(handle).value;
    var position := MovedPosition(entity.position, CommandSequence(tickIndex, player));
    MovedPositionInWorld(entity.position, CommandSequence(tickIndex, player));
    MoveKeepsCore(sim, handle, position);
  }

  lemma CoreLayout(room: RoomState)
    requires Core(room)
    ensures Layout(room)
  {
  }

  lemma PlayersMovedCompose(
      before: Sim, between: Sim, after: Sim, tickIndex: nat, first: nat, middle: nat, last: nat)
    requires Core(before.room)
    requires PlayersMoved(before, between, tickIndex, first, middle)
    requires PlayersMoved(between, after, tickIndex, middle, last)
    ensures PlayersMoved(before, after, tickIndex, first, last)
  {
    hide Core, PlayersMoved;
    CoreLayout(before.room);
    assert middle <= last && first <= middle && last <= |before.room.players| by {
      MovedRange(before, between, after, tickIndex, first, middle, last);
    }
    forall k | first <= k < last
      ensures var handle := before.room.players[k].handle;
              && before.room.station.IsLive(handle)
              && after.room.station.Get(handle) == Some(CommandMoved(before.room, tickIndex, k))
    {
      PlayerMovedOnce(before, between, after, tickIndex, first, middle, last, k);
    }
    ComposeMoved(before, between, after, tickIndex, first, middle, last);
  }

  lemma MovedRange(
      before: Sim, between: Sim, after: Sim, tickIndex: nat, first: nat, middle: nat, last: nat)
    requires PlayersMoved(before, between, tickIndex, first, middle)
    requires PlayersMoved(between, after, tickIndex, middle, last)
    ensures first <= middle <= last <= |before.room.players|
  {
    hide Station.Get;
  }

  lemma ComposeMoved(
      before: Sim, between: Sim, after: Sim, tickIndex: nat, first: nat, middle: nat, last: nat)
    requires first <= middle <= last <= |before.room.players|
    requires PlayersMoved(before, between, tickIndex, first, middle)
    requires PlayersMoved(between, after, tickIndex, middle, last)
    requires forall k | first <= k < last ::
               var handle := before.room.players[k].handle;
               && before.room.station.IsLive(handle)
               && after.room.station.Get(handle) == Some(CommandMoved(before.room, tickIndex, k))
    ensures PlayersMoved(before, after, tickIndex, first, last)
  {
    hide OnlyMoved, Station.Get, CommandMoved;
    OnlyMovedThrough(before.room, between.room, after.room);
    HandlesConcat(before.room, between.room, first, middle, last);
    hide PlayerHandles;
  }

  lemma PlayerMovedOnce(
      before: Sim, between: Sim, after: Sim, tickIndex: nat, first: nat, middle: nat, last: nat, k: nat)
    requires Layout(before.room) && first <= k < last
    requires PlayersMoved(before, between, tickIndex, first, middle)
    requires PlayersMoved(between, after, tickIndex, middle, last)
    ensures var handle := before.room.players[k].handle;
            && before.room.station.IsLive(handle)
            && after.room.station.Get(handle) == Some(CommandMoved(before.room, tickIndex, k))
  {
    hide PlayerHandles, RoomClientId, RoomEntityId, MovedPosition, CommandSequence;
    assert before.room.players[k].handle == EntityHandle(k, 0);
    if k >= middle {
      assert between.room.station.Get(EntityHandle(k, 0)) == before.room.station.Get(EntityHandle(k, 0));
    }
  }

  lemma OnlyMovedThrough(before: RoomState, between: RoomState, after: RoomState)
    requires OnlyMoved(before, between) && OnlyMoved(between, after)
    ensures OnlyMoved(before, after)
    ensures between.players == before.players && between.id == before.id
  {
  }

  lemma HandlesConcat(before: RoomState, between: RoomState, first: nat, middle: nat, last: nat)
    requires first <= middle <= last <= |before.players| && between.players == before.players
    ensures PlayerHandles(before, first, last)
            == PlayerHandles(before, first, middle) + PlayerHandles(between, middle, last)
  {
  }

  lemma PlayerCommandsTail(before: RoomState, after: RoomState, tickIndex: nat, first: nat)
    requires first < |before.players| && after.players == before.players
    requires after.station.tick == before.station.tick
    ensures PlayerCommands(before, tickIndex, first)
            == [CommandOf(before, tickIndex, first)] + PlayerCommands(after, tickIndex, first + 1)
  {
    var all, tail := PlayerCommands(before, tickIndex, first), PlayerCommands(after, tickIndex, first + 1);
    forall i | 0 <= i < |tail| ensures all[i + 1] == tail[i] {
      var player := first + 1 + i;
      assert all[i + 1] == CommandOf(before, tickIndex, player);
      assert tail[i] == CommandOf(after, tickIndex, player);
    }
  }

  lemma DequeuedMoves(sim: Sim, rest: Commands.Queues, applied: Sim, tickIndex: nat, player: nat)
    requires player < |sim.room.players|
    requires PlayersMoved(
               sim.(room := sim.room.(commands := rest)), applied, tickIndex, player, player + 1)
    ensures PlayersMoved(sim, applied, tickIndex, player, player + 1)
  {
  }

  /** Applying the first queued command is one step of applying them all. */
  lemma ApplyFirst(sim: Sim, tickIndex: nat, first: nat) returns (applied: Sim)
    requires Core(sim.room) && first < |sim.room.players|
    requires Pending(sim.room.commands) == PlayerCommands(sim.room, tickIndex, first)
    ensures ApplyAll(sim) == ApplyAll(applied) && applied.room.players == sim.room.players
    ensures Core(applied.room) && PlayersMoved(sim, applied, tickIndex, first, first + 1)
    ensures Pending(applied.room.commands) == PlayerCommands(applied.room, tickIndex, first + 1)
  {
    PopTakesFirst(sim.room.commands);
    var Popped(command, rest) := sim.room.commands.PopNext().value;
    var taken := sim.(room := sim.room.(commands := rest));
    SideStateKeepsCore(sim.room, taken.room);
    PlayerCommandsTail(sim.room, taken.room, tickIndex, first);
    ApplyCommandMoves(taken, tickIndex, first);
    applied := ApplyCommand(taken, command).value;
    DequeuedMoves(sim, rest, applied, tickIndex, first);
    PlayerCommandsTail(sim.room, applied.room, tickIndex, first);
  }

  lemma NothingPending(sim: Sim, tickIndex: nat, first: nat)
    requires first == |sim.room.players|
    requires Pending(sim.room.commands) == PlayerCommands(sim.room, tickIndex, first)
    ensures ApplyAll(sim) == Some(sim) && sim.room.commands == Commands.EMPTY
    ensures PlayersMoved(sim, sim, tickIndex, first, first)
  {
    PopTakesFirst(sim.room.commands);
  }

  /** Applying the queued commands empties the queues and moves each player once. */
  lemma {:induction false} ApplySucceeds(sim: Sim, tickIndex: nat, first: nat)
    requires Core(sim.room) && first <= |sim.room.players|
    requires Pending(sim.room.commands) == PlayerCommands(sim.room, tickIndex, first)
    ensures var applied := ApplyAll(sim);
            && applied.Some?
            && Core(applied.value.room) && applied.value.room.commands == Commands.EMPTY
            && PlayersMoved(sim, applied.value, tickIndex, first, |sim.room.players|)
    decreases |sim.room.players| - first
  {
    hide Core, PlayersMoved, PlayerCommands, ApplyAll, Pending;
    if first < |sim.room.players| {
      var applied := ApplyFirst(sim, tickIndex, first);
      ApplySucceeds(applied, tickIndex, first + 1);
      PlayersMovedCompose(
        sim, applied, ApplyAll(applied).value, tickIndex, first, first + 1, |sim.room.players|);
    } else {
      NothingPending(sim, tickIndex, first);
    }
  }
}
