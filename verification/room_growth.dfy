/** Until a room replicates, its dirty list only grows, and every handle issued meanwhile is
    listed. */
module RoomGrowth {
  import opened StationTable
  import opened RoomSpec
  import Commands = CommandQueues
  import Events = EventRouter

  /** The handle was given to an entity: it is live, or its slot has moved on. */
  predicate Given(station: Station, handle: EntityHandle) {
    && handle.index < |station.generations|
    && (handle.generation < station.generations[handle.index] || station.IsLive(handle))
  }

  predicate Paired(station: Station) { |station.records| == |station.generations| }

  ghost predicate Grows(before: RoomState, after: RoomState) {
    && after.id == before.id && after.players == before.players && after.entities == before.entities
    && after.tracker == before.tracker
    && before.dirtyHandles <= after.dirtyHandles
    && (Paired(before.station) ==> Paired(after.station))
    && forall handle | Given(after.station, handle) ::
         Given(before.station, handle) || handle in after.dirtyHandles
  }

  lemma GrowsThrough(before: RoomState, between: RoomState, after: RoomState)
    requires Grows(before, between) && Grows(between, after)
    ensures Grows(before, after)
  {
    hide Given;
    forall handle | Given(after.station, handle)
      ensures Given(before.station, handle) || handle in after.dirtyHandles
    {
      assert handle in between.dirtyHandles ==> handle in after.dirtyHandles;
    }
  }

  lemma GrowsPaired(before: RoomState, after: RoomState)
    requires Grows(before, after) && Paired(before.station)
    ensures Paired(after.station)
  {
  }

  lemma StaysSame(before: RoomState, after: RoomState)
    requires after.id == before.id && after.players == before.players && after.entities == before.entities
    requires after.tracker == before.tracker && after.dirtyHandles == before.dirtyHandles
    requires after.station.records == before.station.records
    requires after.station.generations == before.station.generations
    ensures Grows(before, after)
  {
  }

  lemma MoveGrows(sim: Sim, handle: EntityHandle, position: Position)
    requires MoveEntity(sim, handle, position).Some?
    ensures Grows(sim.room, MoveEntity(sim, handle, position).value.room)
  {
  }

  lemma {:induction false} AdmitGrows(sim: Sim, tickIndex: nat, n: nat)
    requires n <= |sim.room.players| && AdmitUpTo(sim, tickIndex, n).Some?
    ensures var after := AdmitUpTo(sim, tickIndex, n).value.room;
            after == sim.room.(gateway := after.gateway, commands := after.commands)
  {
    if n > 0 {
      AdmitGrows(sim, tickIndex, n - 1);
    }
  }

  lemma {:induction false} ApplyGrows(sim: Sim)
    requires ApplyAll(sim).Some?
    ensures Grows(sim.room, ApplyAll(sim).value.room)
    decreases sim.room.commands.Length()
  {
    hide MoveEntity, MovedPosition, Grows;
    var popped := sim.room.commands.PopNext();
    if popped.None? {
      StaysSame(sim.room, sim.room);
    } else {
      var taken := sim.(room := sim.room.(commands := popped.value.rest));
      StaysSame(sim.room, taken.room);
      var handle := taken.room.station.byId[popped.value.command.entity];
      var entity := taken.room.station.Get(handle).value;
      MoveGrows(taken, handle, MovedPosition(entity.position, popped.value.command.sequence));
      var applied := ApplyCommand(taken, popped.value.command).value;
      GrowsThrough(sim.room, taken.room, applied.room);
      AppliedShorter(taken, popped.value.command);
      ApplyGrows(applied);
      GrowsThrough(sim.room, applied.room, ApplyAll(sim).value.room);
    }
  }

  lemma AppliedShorter(sim: Sim, command: Commands.Command)
    requires ApplyCommand(sim, command).Some?
    ensures ApplyCommand(sim, command).value.room.commands == sim.room.commands
  {
  }

  lemma CommandsGrow(sim: Sim, tickIndex: nat)
    requires EnqueueAndApplyCommands(sim, tickIndex).Some?
    ensures Grows(sim.room, EnqueueAndApplyCommands(sim, tickIndex).value.room)
  {
    hide ApplyAll, AdmitUpTo, Grows;
    if tickIndex % ClassOf(sim.room.id).CommandInterval() != 0 {
      StaysSame(sim.room, sim.room);
    } else {
      AdmitGrows(sim, tickIndex, |sim.room.players|);
      var admitted := AdmitUpTo(sim, tickIndex, |sim.room.players|).value;
      StaysSame(sim.room, admitted.room);
      ApplyGrows(admitted);
      GrowsThrough(sim.room, admitted.room, ApplyAll(admitted).value.room);
    }
  }

  lemma {:induction false} NpcsGrow(sim: Sim, tickIndex: nat, n: nat)
    requires UpdateNpcsUpTo(sim, tickIndex, n).Some?
    ensures Grows(sim.room, UpdateNpcsUpTo(sim, tickIndex, n).value.room)
  {
    hide MoveEntity, MovedPosition, NpcIndex, Grows;
    if n == 0 {
      StaysSame(sim.room, sim.room);
    } else {
      NpcsGrow(sim, tickIndex, n - 1);
      var before := UpdateNpcsUpTo(sim, tickIndex, n - 1).value;
      var handle := before.room.entities[NpcIndex(before.room, tickIndex, n - 1)];
      var current := before.room.station.Get(handle);
      if current.Some? {
        MoveGrows(before, handle, MovedPosition(current.value.position, tickIndex + (n - 1)));
        GrowsThrough(sim.room, before.room, UpdateNpcsUpTo(sim, tickIndex, n).value.room);
      }
    }
  }

  lemma PopGrows(sim: Sim)
    requires sim.room.projectiles != []
    ensures Grows(sim.room, PopProjectile(sim).room)
  {
  }

  lemma {:induction false} ExpireGrows(sim: Sim)
    ensures Grows(sim.room, ExpireProjectiles(sim).room)
    decreases |sim.room.projectiles|
  {
    hide Grows;
    if FrontExpired(sim.room) {
      PopGrows(sim);
      ExpireGrows(PopProjectile(sim));
      GrowsThrough(sim.room, PopProjectile(sim).room, ExpireProjectiles(sim).room);
    } else {
      StaysSame(sim.room, sim.room);
    }
  }

  lemma SpawnGrows(sim: Sim, offset: nat)
    requires SpawnProjectile(sim, offset).Some? && Paired(sim.room.station)
    ensures Grows(sim.room, SpawnProjectile(sim, offset).value.room)
  {
  }

  lemma {:induction false} LaunchGrows(sim: Sim, n: nat)
    requires SpawnProjectilesUpTo(sim, n).Some? && Paired(sim.room.station)
    ensures Grows(sim.room, SpawnProjectilesUpTo(sim, n).value.room)
  {
    hide SpawnProjectile, Grows;
    if n == 0 {
      StaysSame(sim.room, sim.room);
    } else {
      LaunchGrows(sim, n - 1);
      var before := SpawnProjectilesUpTo(sim, n - 1).value;
      GrowsPaired(sim.room, before.room);
      SpawnGrows(before, n - 1);
      GrowsThrough(sim.room, before.room, SpawnProjectile(before, n - 1).value.room);
    }
  }

  lemma ProjectilesGrow(sim: Sim)
    requires UpdateProjectiles(sim).Some? && Paired(sim.room.station)
    ensures Grows(sim.room, UpdateProjectiles(sim).value.room)
  {
    hide Grows, ExpireProjectiles, SpawnProjectilesUpTo;
    ExpireGrows(sim);
    GrowsPaired(sim.room, ExpireProjectiles(sim).room);
    LaunchGrows(ExpireProjectiles(sim), ClassOf(sim.room.id).ProjectilesPerTick());
    GrowsThrough(sim.room, ExpireProjectiles(sim).room, UpdateProjectiles(sim).value.room);
  }

  lemma DrainGrows(sim: Sim, router: Events.Router)
    requires DrainGameplayEvents(sim, router).Some?
    ensures Grows(sim.room, DrainGameplayEvents(sim, router).value.sim.room)
  {
  }
}
