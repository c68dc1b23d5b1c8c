/** The phases of a tick, each shown to succeed from every reachable state, to keep the room's
    invariant, and to do exactly what the benchmark counts on. */
module RoomSteps {
  import opened MachineInts
  import opened Options
  import opened StationTable
  import opened RoomSpec
  import opened RoomInvariants
  import Commands = CommandQueues

  // ----- commands -----

  /** Sessions at a tick boundary: all sequences used so far are at most `bound`. */
  ghost predicate SessionsBounded(room: RoomState, bound: nat) {
    && room.gateway.maxCommandsPerTick == 4
    && forall k | 0 <= k < |room.players| ::
         && room.players[k].client in room.gateway.sessions
         && var session := room.gateway.sessions[room.players[k].client];
            && (session.lastSequence.Some? ==> session.lastSequence.value <= bound)
            && session.commandTick <= room.station.tick
  }

  /** Players that issue a command at a tick of the run. */
  function CommandCount(room: RoomState, tickIndex: nat): nat {
    if tickIndex % ClassOf(room.id).CommandInterval() == 0 then |room.players| else 0
  }

  /** The outcome of the command phase: one command per player of a due room, admitted and
      applied, with the queues empty again. */
  ghost predicate CommandsDone(before: Sim, after: Sim, tickIndex: nat) {
    var count := CommandCount(before.room, tickIndex);
    && after.room.commands == Commands.EMPTY
    && SessionsBounded(after.room, SatMul(tickIndex + 1, MAX_PLAYERS))
    && OnlyMoved(before.room.(gateway := after.room.gateway), after.room)
    && after.stats == MovementCounted(before.stats, count).(
         commandsAdmitted := SatAdd(before.stats.commandsAdmitted, count),
         commandsApplied := SatAdd(before.stats.commandsApplied, count))
  }

  lemma CommandsSucceed(sim: Sim, tickIndex: nat)
    requires Core(sim.room) && sim.room.id <= PORT_MAX && tickIndex < U32_MAX
    requires sim.room.commands == Commands.EMPTY && DirtyPermanent(sim.room)
    requires SessionsReady(sim.room, SatMul(tickIndex, MAX_PLAYERS), 0)
    ensures var applied := EnqueueAndApplyCommands(sim, tickIndex);
            && applied.Some? && Core(applied.value.room) && DirtyPermanent(applied.value.room)
            && CommandsDone(sim, applied.value, tickIndex)
  {
    if tickIndex % ClassOf(sim.room.id).CommandInterval() == 0 {
      DueCommandsSucceed(sim, tickIndex);
      var admitted := AdmitUpTo(sim, tickIndex, |sim.room.players|).value;
      var applied := EnqueueAndApplyCommands(sim, tickIndex).value;
      PlayersAreEntities(sim, admitted, applied, tickIndex);
      DueCommandsDone(sim, admitted, applied, tickIndex);
    } else {
      IdleCommandsDone(sim, tickIndex);
    }
  }

  lemma DueCommandsDone(sim: Sim, admitted: Sim, applied: Sim, tickIndex: nat)
    requires tickIndex % ClassOf(sim.room.id).CommandInterval() == 0
    requires Admitted(sim, admitted, tickIndex, |sim.room.players|)
    requires PlayersMoved(admitted, applied, tickIndex, 0, |sim.room.players|)
    requires applied.room.commands == Commands.EMPTY
    requires SessionsBounded(applied.room, SatMul(tickIndex + 1, MAX_PLAYERS))
    ensures CommandsDone(sim, applied, tickIndex)
  {
  }

  lemma IdleCommandsDone(sim: Sim, tickIndex: nat)
    requires tickIndex % ClassOf(sim.room.id).CommandInterval() != 0
    requires sim.room.commands == Commands.EMPTY
    requires SessionsReady(sim.room, SatMul(tickIndex, MAX_PLAYERS), 0)
    ensures CommandsDone(sim, sim, tickIndex)
  {
  }

  lemma PlayersAreEntities(start: Sim, before: Sim, after: Sim, tickIndex: nat)
    requires Layout(start.room) && DirtyPermanent(start.room)
    requires before.room.entities == start.room.entities && before.room.players == start.room.players
    requires before.room.dirtyHandles == start.room.dirtyHandles
    requires PlayersMoved(before, after, tickIndex, 0, |before.room.players|)
    ensures DirtyPermanent(after.room)
  {
    forall handle | handle in after.room.dirtyHandles ensures handle in after.room.entities {
      if handle !in start.room.dirtyHandles {
        assert handle in PlayerHandles(before.room, 0, |before.room.players|);
        assert handle == start.room.entities[handle.index];
      }
    }
  }

  /** In a due room every player is moved by exactly its own command of the tick. */
  lemma DueCommandsSucceed(sim: Sim, tickIndex: nat)
    requires Core(sim.room) && sim.room.id <= PORT_MAX && tickIndex < U32_MAX
    requires sim.room.commands == Commands.EMPTY
    requires SessionsReady(sim.room, SatMul(tickIndex, MAX_PLAYERS), 0)
    requires tickIndex % ClassOf(sim.room.id).CommandInterval() == 0
    ensures var admitted := AdmitUpTo(sim, tickIndex, |sim.room.players|);
            var applied := EnqueueAndApplyCommands(sim, tickIndex);
            && admitted.Some? && applied.Some?
            && Core(applied.value.room) && applied.value.room.commands == Commands.EMPTY
            && Admitted(sim, admitted.value, tickIndex, |sim.room.players|)
            && PlayersMoved(admitted.value, applied.value, tickIndex, 0, |sim.room.players|)
            && SessionsBounded(applied.value.room, SatMul(tickIndex + 1, MAX_PLAYERS))
  {
    hide Core, PlayersMoved, AdmitUpTo, ApplyAll, SessionsReady, SessionsUsed, SessionsBounded;
    CoreLimitsPlayers(sim.room);
    AdmitSucceeds(sim, tickIndex, |sim.room.players|);
    var admitted := AdmitUpTo(sim, tickIndex, |sim.room.players|).value;
    SideStateKeepsCore(sim.room, admitted.room);
    AdmittedPending(sim, admitted, tickIndex);
    ApplySucceeds(admitted, tickIndex, 0);
    SessionsAfterCommands(admitted, ApplyAll(admitted).value, tickIndex);
  }

  lemma CoreLimitsPlayers(room: RoomState)
    requires Core(room)
    ensures Layout(room) && |room.players| <= MAX_PLAYERS
  {
  }

  lemma SessionsAfterCommands(admitted: Sim, applied: Sim, tickIndex: nat)
    requires SessionsUsed(admitted.room, tickIndex, |admitted.room.players|)
    requires SessionsReady(admitted.room, SatMul(tickIndex, MAX_PLAYERS), |admitted.room.players|)
    requires |admitted.room.players| <= MAX_PLAYERS && tickIndex < U32_MAX
    requires PlayersMoved(admitted, applied, tickIndex, 0, |admitted.room.players|)
    ensures SessionsBounded(applied.room, SatMul(tickIndex + 1, MAX_PLAYERS))
  {
  }

  lemma AdmittedPending(sim: Sim, admitted: Sim, tickIndex: nat)
    requires Admitted(sim, admitted, tickIndex, |sim.room.players|)
    ensures Pending(admitted.room.commands) == PlayerCommands(admitted.room, tickIndex, 0)
  {
    var pending, expected :=
      Pending(admitted.room.commands), PlayerCommands(admitted.room, tickIndex, 0);
    forall i | 0 <= i < |expected| ensures pending[i] == expected[i] {
      assert CommandOf(sim.room, tickIndex, i) == CommandOf(admitted.room, tickIndex, i);
    }
  }

  // ----- non-player entities -----

  /** The entities chosen at one tick are distinct non-players. */
  lemma NpcIndexDistinct(room: RoomState, tickIndex: nat, a: nat, b: nat)
    requires a < NpcCount(room) && b < NpcCount(room)
    ensures |room.players| <= NpcIndex(room, tickIndex, a) < |room.entities|
    ensures NpcIndex(room, tickIndex, a) == NpcIndex(room, tickIndex, b) <==> a == b
  {
    var base, count := SatMul(tickIndex, 17), NpcCount(room);
    if (base + a) % count == (base + b) % count {
      SameRemainder(base + a, base + b, count);
    }
  }

  /** The turns go round: the entities chosen in a tick follow each other, and the next tick starts
      17 places further. */
  lemma NpcTurnsAdvance(room: RoomState, tickIndex: nat, offset: nat)
    requires NpcCount(room) > 0 && (tickIndex + 1) * 17 <= U64_MAX
    ensures var first, count := |room.players|, NpcCount(room);
            var turn := NpcIndex(room, tickIndex, offset) - first;
            && NpcIndex(room, 0, 0) == first
            && NpcIndex(room, tickIndex, offset + 1) == first + (turn + 1) % count
            && NpcIndex(room, tickIndex + 1, offset) == first + (turn + 17) % count
  {
    ShortTurn(room, 0, 0, 0);
    TurnMoves(room, tickIndex, offset, tickIndex, offset + 1, 1);
    TurnMoves(room, tickIndex, offset, tickIndex + 1, offset, 17);
    hide NpcIndex;
  }

  lemma TurnMoves(room: RoomState, tickIndex: nat, offset: nat, nextTick: nat, nextOffset: nat, step: nat)
    requires NpcCount(room) > 0 && tickIndex * 17 <= U64_MAX && nextTick * 17 <= U64_MAX
    requires tickIndex * 17 + offset + step == nextTick * 17 + nextOffset
    ensures NpcIndex(room, nextTick, nextOffset)
            == |room.players| + (NpcIndex(room, tickIndex, offset) - |room.players| + step) % NpcCount(room)
  {
    var turn := tickIndex * 17 + offset;
    ShortTurn(room, tickIndex, offset, turn);
    ShortTurn(room, nextTick, nextOffset, turn + step);
    hide NpcIndex;
    SumMod(turn, step, NpcCount(room));
  }

  lemma ShortTurn(room: RoomState, tickIndex: nat, offset: nat, turn: nat)
    requires NpcCount(room) > 0 && tickIndex * 17 <= U64_MAX && turn == tickIndex * 17 + offset
    ensures NpcIndex(room, tickIndex, offset) == |room.players| + turn % NpcCount(room)
  {
  }

  lemma SameRemainder(x: nat, y: nat, m: nat)
    requires m > 0 && x % m == y % m && x < y + m && y < x + m
    ensures x == y
  {
    SameQuotient(x, y, m, x / m, y / m, x % m);
  }

  lemma SameQuotient(x: nat, y: nat, m: nat, p: nat, q: nat, r: nat)
    requires x == p * m + r && y == q * m + r && x < y + m && y < x + m
    ensures x == y
  {
    WholeStep(p, q, m);
    WholeStep(q, p, m);
  }

  lemma WholeStep(p: nat, q: nat, m: nat)
    ensures p < q ==> p * m + m <= q * m
  {
    if p < q {
      ProductMonotone(p + 1, q, m);
    }
  }

  /** The entity chosen by `offset` was moved once, by the tick and the offset. */
  ghost predicate NpcMovedAt(before: RoomState, after: RoomState, tickIndex: nat, offset: nat) {
    var i := NpcIndex(before, tickIndex, offset);
    && i < |before.entities| && before.station.IsLive(before.entities[i])
    && var entity := before.station.Get(before.entities[i]).value;
       after.station.Get(before.entities[i])
       == Some(entity.(position := MovedPosition(entity.position, tickIndex + offset)))
  }

  function NpcIndices(room: RoomState, tickIndex: nat, n: nat): set<nat> {
    if n == 0 then {} else NpcIndices(room, tickIndex, n - 1) + {NpcIndex(room, tickIndex, n - 1)}
  }

  /** Handles of the first `n` chosen entities. */
  function NpcHandles(room: RoomState, tickIndex: nat, n: nat): seq<EntityHandle> {
    seq(n, offset requires offset >= 0 => EntityHandle(NpcIndex(room, tickIndex, offset), 0))
  }

  /** Every entity whose turn it is in the tick is listed. */
  ghost predicate NpcsListed(room: RoomState, tickIndex: nat) {
    forall offset: nat | offset < Min(ClassOf(room.id).NpcUpdates(), NpcCount(room)) ::
      EntityHandle(NpcIndex(room, tickIndex, offset), 0) in room.dirtyHandles
  }

  /** The first `n` chosen entities were each moved once and listed; nothing else moved. */
  ghost predicate NpcsMoved(before: Sim, after: Sim, tickIndex: nat, n: nat) {
    && n <= NpcCount(before.room)
    && OnlyMoved(before.room, after.room) && after.room.commands == before.room.commands
    && after.room.dirtyHandles == before.room.dirtyHandles + NpcHandles(before.room, tickIndex, n)
    && (forall offset | 0 <= offset < n :: NpcMovedAt(before.room, after.room, tickIndex, offset))
    && (forall handle: EntityHandle | handle.index !in NpcIndices(before.room, tickIndex, n) ::
          after.room.station.Get(handle) == before.room.station.Get(handle))
    && after.stats == MovementCounted(before.stats, n)
  }

  lemma {:induction false} NpcsSucceed(sim: Sim, tickIndex: nat, n: nat)
    requires Core(sim.room) && DirtyPermanent(sim.room) && n <= NpcCount(sim.room)
    ensures var moved := UpdateNpcsUpTo(sim, tickIndex, n);
            && moved.Some? && Core(moved.value.room) && DirtyPermanent(moved.value.room)
            && NpcsMoved(sim, moved.value, tickIndex, n)
  {
    hide UpdateNpc, Core, DirtyPermanent, NpcsMoved, NpcMoved, NpcCount;
    if n == 0 {
      NoNpcsMoved(sim, tickIndex);
    } else {
      NpcsSucceed(sim, tickIndex, n - 1);
      var before := UpdateNpcsUpTo(sim, tickIndex, n - 1).value;
      SameNpcCount(sim, before, tickIndex, n - 1);
      NpcMoves(before, tickIndex, n - 1);
      NpcsMovedStep(sim, before, UpdateNpc(before, tickIndex, n - 1).value, tickIndex, n - 1);
    }
  }

  lemma NoNpcsMoved(sim: Sim, tickIndex: nat)
    ensures NpcsMoved(sim, sim, tickIndex, 0)
  {
  }

  lemma SameNpcCount(before: Sim, after: Sim, tickIndex: nat, n: nat)
    requires NpcsMoved(before, after, tickIndex, n)
    ensures NpcCount(after.room) == NpcCount(before.room)
  {
  }

  ghost predicate NpcMoved(before: Sim, after: Sim, tickIndex: nat, offset: nat) {
    && OnlyMoved(before.room, after.room) && after.room.commands == before.room.commands
    && NpcMovedAt(before.room, after.room, tickIndex, offset)
    && after.room.dirtyHandles
       == before.room.dirtyHandles + [EntityHandle(NpcIndex(before.room, tickIndex, offset), 0)]
    && (forall handle: EntityHandle | handle.index != NpcIndex(before.room, tickIndex, offset) ::
          after.room.station.Get(handle) == before.room.station.Get(handle))
    && after.stats == MovementCounted(before.stats, 1)
  }

  lemma NpcMoves(sim: Sim, tickIndex: nat, offset: nat)
    requires Core(sim.room) && DirtyPermanent(sim.room) && offset < NpcCount(sim.room)
    ensures var moved := UpdateNpc(sim, tickIndex, offset);
            && moved.Some? && Core(moved.value.room) && DirtyPermanent(moved.value.room)
            && NpcMoved(sim, moved.value, tickIndex, offset)
  {
    NpcIndexDistinct(sim.room, tickIndex, offset, offset);
    var handle := sim.room.entities[NpcIndex(sim.room, tickIndex, offset)];
    var position := MovedPosition(sim.room.station.Get(handle).value.position, tickIndex + offset);
    MovedPositionInWorld(sim.room.station.Get(handle).value.position, tickIndex + offset);
    MoveKeepsCore(sim, handle, position);
  }

  lemma NpcsMovedStep(start: Sim, before: Sim, after: Sim, tickIndex: nat, n: nat)
    requires Core(start.room) && n < NpcCount(start.room)
    requires NpcsMoved(start, before, tickIndex, n) && NpcMoved(before, after, tickIndex, n)
    ensures NpcsMoved(start, after, tickIndex, n + 1)
  {
    hide Core, NpcHandles;
    CoreLayout(start.room);
    NpcHandlesStep(start.room, before.room, tickIndex, n);
    forall offset | 0 <= offset < n + 1
      ensures NpcMovedAt(start.room, after.room, tickIndex, offset)
    {
      NpcIndexDistinct(start.room, tickIndex, offset, n);
      assert offset < n ==> NpcMovedAt(start.room, before.room, tickIndex, offset);
      if offset == n {
        NpcUntouched(start.room, tickIndex, n);
        assert NpcMovedAt(before.room, after.room, tickIndex, n);
      }
    }
  }

  lemma NpcHandlesStep(start: RoomState, before: RoomState, tickIndex: nat, n: nat)
    requires before.players == start.players && before.entities == start.entities
    ensures NpcHandles(start, tickIndex, n + 1)
            == NpcHandles(start, tickIndex, n) + [EntityHandle(NpcIndex(before, tickIndex, n), 0)]
  {
  }

  /** All chosen entities of a tick are listed once they were all moved. */
  lemma MovedAreListed(before: Sim, after: Sim, tickIndex: nat, n: nat)
    requires NpcsMoved(before, after, tickIndex, n)
    requires n == Min(ClassOf(before.room.id).NpcUpdates(), NpcCount(before.room))
    ensures NpcsListed(after.room, tickIndex)
  {
    forall offset: nat | offset < n
      ensures EntityHandle(NpcIndex(after.room, tickIndex, offset), 0) in after.room.dirtyHandles
    {
      assert NpcHandles(before.room, tickIndex, n)[offset]
          == EntityHandle(NpcIndex(before.room, tickIndex, offset), 0);
    }
  }

  lemma NpcUntouched(room: RoomState, tickIndex: nat, n: nat)
    requires n < NpcCount(room)
    ensures NpcIndex(room, tickIndex, n) !in NpcIndices(room, tickIndex, n)
  {
    NpcUntouchedUpTo(room, tickIndex, n, n);
  }

  lemma {:induction false} NpcUntouchedUpTo(room: RoomState, tickIndex: nat, n: nat, upTo: nat)
    requires upTo <= n < NpcCount(room)
    ensures NpcIndex(room, tickIndex, n) !in NpcIndices(room, tickIndex, upTo)
  {
    if upTo > 0 {
      NpcUntouchedUpTo(room, tickIndex, n, upTo - 1);
      NpcIndexDistinct(room, tickIndex, upTo - 1, n);
    }
  }
}
