/** The work of a run in numbers: how often rooms of each class issue commands, move entities,
    launch projectiles and route events, summed over rooms and ticks. */
module GameplayRates {
  import opened MachineInts
  import opened RoomSpec
  import opened RoomProjectiles
  import opened GameplaySpec
  import opened GameplayPhases
  import opened GameplayWorld
  import opened GameplayRun

  // ----- one room -----

  /** Commands of one player in ten ticks: of every ten rooms the first is hot, the next four are
      active and the others idle. */
  function CommandsPerTen(id: nat): nat {
    if id % 10 == 0 then 10 else if id % 10 <= 4 then 5 else 1
  }

  function CommandsDueUpTo(id: nat, first: nat, n: nat): nat {
    if n == 0 then 0 else CommandsDueUpTo(id, first, n - 1) + CommandsDue(id, first + n - 1)
  }

  lemma CommandsAtTick(id: nat, window: nat, k: nat)
    requires k < 10
    ensures CommandsDue(id, 10 * window + k)
            == if id % 10 == 0 || (id % 10 <= 4 && k % 2 == 0) || k == 0 then 4 + id % 7 else 0
  {
    TickRemainders(window, k);
    assert PlayerCount(id) == 4 + id % 7;
    hide PlayerCount;
  }

  lemma TickRemainders(window: nat, k: nat)
    requires k < 10
    ensures (10 * window + k) % 10 == k && (10 * window + k) % 2 == k % 2 && (10 * window + k) % 1 == 0
  {
    var tick := 10 * window + k;
    DivModUnique(tick, 10, window, k);
    DivModUnique(tick, 2, 5 * window + k / 2, k % 2);
    DivModUnique(tick, 1, tick, 0);
  }

  /** Of the first ten ticks, those in which a room is due. */
  function DueTicks(id: nat, n: nat): nat {
    if id % 10 == 0 then n else if id % 10 <= 4 then (n + 1) / 2 else Min(n, 1)
  }

  lemma DueTicksStep(id: nat, k: nat)
    ensures DueTicks(id, 0) == 0
    ensures DueTicks(id, k + 1)
            == DueTicks(id, k) + if id % 10 == 0 || (id % 10 <= 4 && k % 2 == 0) || k == 0 then 1 else 0
  {
  }

  lemma {:induction false} CommandsUpToTick(id: nat, window: nat, n: nat)
    requires n <= 10
    ensures CommandsDueUpTo(id, 10 * window, n)
            == (4 + id % 7) * DueTicks(id, n)
  {
    hide CommandsDue, DueTicks;
    DueTicksStep(id, Max(n - 1, 0));
    if n > 0 {
      CommandsUpToTick(id, window, n - 1);
      CommandsAtTick(id, window, n - 1);
      var players, before := 4 + id % 7, DueTicks(id, n - 1);
      assert players * (before + 1) == players * before + players;
    }
  }

  lemma CommandsInTenTicks(id: nat, window: nat)
    ensures CommandsDueUpTo(id, 10 * window, 10) == (4 + id % 7) * CommandsPerTen(id)
  {
    CommandsUpToTick(id, window, 10);
  }

  lemma EventsInFiveTicks(id: nat, window: nat, k: nat)
    requires k < 5
    ensures EventsDue(id, 5 * window + k) == if k == 0 && id % 10 < 5 then 1 else 0
  {
  }

  // ----- all rooms -----

  /** Commands of all rooms in ten ticks. */
  function CommandsOfRooms(rooms: nat): nat {
    if rooms == 0 then 0
    else CommandsOfRooms(rooms - 1) + (4 + (rooms - 1) % 7) * CommandsPerTen(rooms - 1)
  }

  function CommandSumUpTo(rooms: nat, first: nat, n: nat): nat {
    if n == 0 then 0 else CommandSumUpTo(rooms, first, n - 1) + CommandSum(first + n - 1, rooms)
  }

  lemma {:induction false} SumsExchange(rooms: nat, first: nat, n: nat)
    requires rooms > 0
    ensures CommandSumUpTo(rooms, first, n)
            == CommandSumUpTo(rooms - 1, first, n) + CommandsDueUpTo(rooms - 1, first, n)
  {
    hide CommandsDue;
    if n > 0 {
      SumsExchange(rooms, first, n - 1);
    }
  }

  lemma {:induction false} NoRoomsNoCommands(first: nat, n: nat)
    ensures CommandSumUpTo(0, first, n) == 0
  {
    if n > 0 {
      NoRoomsNoCommands(first, n - 1);
    }
  }

  lemma {:induction false} RoomsInTenTicks(rooms: nat, window: nat)
    ensures CommandSumUpTo(rooms, 10 * window, 10) == CommandsOfRooms(rooms)
  {
    hide CommandsPerTen, CommandSumUpTo, CommandsDueUpTo;
    if rooms == 0 {
      NoRoomsNoCommands(10 * window, 10);
    } else {
      RoomsInTenTicks(rooms - 1, window);
      SumsExchange(rooms, 10 * window, 10);
      CommandsInTenTicks(rooms - 1, window);
    }
  }

  lemma {:induction false} TotalSplits(config: Config, first: nat, n: nat)
    ensures TotalCommands(config, first + n)
            == TotalCommands(config, first) + CommandSumUpTo(config.rooms, first, n)
  {
    hide CommandSum;
    if n > 0 {
      TotalSplits(config, first, n - 1);
    }
  }

  /** Commands of a run of whole tens of ticks: ten of every player of a hot room, five of an active
      one and one of an idle one in each; a room has from four to ten players in turn. */
  lemma {:induction false} CommandsInNumbers(config: Config, windows: nat)
    ensures TotalCommands(config, 10 * windows) == windows * CommandsOfRooms(config.rooms)
  {
    hide CommandSumUpTo, CommandsOfRooms, TotalCommands;
    if windows == 0 {
      NoTicksNoCommands(config);
    } else {
      CommandsInNumbers(config, windows - 1);
      TotalSplits(config, 10 * (windows - 1), 10);
      RoomsInTenTicks(config.rooms, windows - 1);
      var each := CommandsOfRooms(config.rooms);
      assert windows * each == (windows - 1) * each + each;
    }
  }

  lemma NoTicksNoCommands(config: Config)
    ensures TotalCommands(config, 0) == 0
  {
  }

  /** Half of every ten rooms route events. */
  lemma {:induction false} RoutingRooms(tick: nat, rooms: nat)
    ensures EventSum(tick, rooms) == if tick % 5 == 0 then rooms / 10 * 5 + Min(rooms % 10, 5) else 0
  {
    hide EventsDue;
    if rooms > 0 {
      RoutingRooms(tick, rooms - 1);
      EventsInFiveTicks(rooms - 1, tick / 5, tick % 5);
      NextRemainder(rooms - 1, 10);
    }
  }

  /** Events of a run: one of every busy room at every fifth tick, the first included. */
  lemma {:induction false} EventsInNumbers(config: Config, n: nat)
    ensures TotalEvents(config, n) == DivCeil(n, 5) * (config.rooms / 10 * 5 + Min(config.rooms % 10, 5))
  {
    hide EventSum;
    if n > 0 {
      EventsInNumbers(config, n - 1);
      RoutingRooms(n - 1, config.rooms);
      var busy := config.rooms / 10 * 5 + Min(config.rooms % 10, 5);
      FifthTick(n - 1);
      assert (DivCeil(n - 1, 5) + 1) * busy == DivCeil(n - 1, 5) * busy + busy;
    }
  }

  lemma FifthTick(n: nat)
    ensures DivCeil(n + 1, 5) == DivCeil(n, 5) + if n % 5 == 0 then 1 else 0
  {
  }

  lemma NextRemainder(n: nat, m: nat)
    requires m > 0
    ensures if n % m == m - 1 then (n + 1) / m == n / m + 1 && (n + 1) % m == 0
            else (n + 1) / m == n / m && (n + 1) % m == n % m + 1
  {
    assert n == n / m * m + n % m;
    assert (n / m + 1) * m == n / m * m + m;
    if n % m == m - 1 {
      DivModUnique(n + 1, m, n / m + 1, 0);
    } else {
      DivModUnique(n + 1, m, n / m, n % m + 1);
    }
  }

  lemma LaunchesOfRoom(id: nat)
    ensures RateOf(id) == if id % 10 == 0 then 2 else if id % 10 <= 4 then 1 else 0
  {
  }

  /** Ten rooms launch six projectiles a tick: two in the hot room and one in each active one. */
  lemma {:induction false} LaunchesInNumbers(rooms: nat)
    ensures RateSum(rooms)
            == rooms / 10 * 6 + if rooms % 10 == 0 then 0 else 2 + Min(rooms % 10 - 1, 4)
  {
    hide RateOf;
    if rooms > 0 {
      LaunchesInNumbers(rooms - 1);
      LaunchesOfRoom(rooms - 1);
      NextRemainder(rooms - 1, 10);
    }
  }

  /** Players of the first rooms of a cycle of seven. */
  function PlayersOfCycle(rooms: nat): nat { if rooms == 0 then 0 else PlayersOfCycle(rooms - 1) + rooms + 3 }

  /** Seven rooms in a row have from four to ten players each, 49 together. */
  lemma {:induction false} PlayersInNumbers(rooms: nat)
    ensures PlayerSum(rooms) == rooms / 7 * 49 + PlayersOfCycle(rooms % 7)
    ensures PlayersOfCycle(6) == 39
  {
    assert PlayersOfCycle(3) == 15;
    if rooms > 0 {
      PlayersInNumbers(rooms - 1);
      NextRemainder(rooms - 1, 7);
    }
  }

  lemma MovesOfRoom(id: nat, entitiesPerRoom: nat)
    requires entitiesPerRoom >= MAX_PLAYERS + 16
    ensures NpcsDue(id, entitiesPerRoom) == if id % 10 == 0 then 16 else if id % 10 <= 4 then 4 else 0
  {
  }

  /** In rooms with enough entities ten rooms move 32 non-players a tick: sixteen in the hot room
      and four in each active one. */
  lemma {:induction false} MovesInNumbers(config: Config, rooms: nat)
    requires config.entitiesPerRoom >= MAX_PLAYERS + 16
    ensures NpcSum(config, rooms)
            == rooms / 10 * 32 + if rooms % 10 == 0 then 0 else 16 + 4 * Min(rooms % 10 - 1, 4)
  {
    hide NpcsDue;
    if rooms > 0 {
      MovesInNumbers(config, rooms - 1);
      MovesOfRoom(rooms - 1, config.entitiesPerRoom);
      NextRemainder(rooms - 1, 10);
    }
  }
}
