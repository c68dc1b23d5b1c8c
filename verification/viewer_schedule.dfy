/** The viewer schedule of the main benchmark: every client is assigned one station and one
    replication phase, and tick `t` replicates the clients of phase `t % phases`. */
module ViewerSchedule {
  import opened MachineInts
  import opened RoundRobin

  /** A schedule lists client indices by phase, then by station. */
  type Schedule = seq<seq<seq<nat>>>

  function PhaseOf(client: nat, stations: nat, phases: nat): (phase: nat)
    requires stations > 0 && phases > 0
    ensures phase < phases
  {
    (client / stations) % phases
  }

  /** The (phase, station) pairs, flattened to remainders modulo `stations * phases`. */
  function SlotIndex(station: nat, stations: nat, phase: nat): nat {
    station + stations * phase
  }

  lemma SlotIndexBound(station: nat, stations: nat, phase: nat, phases: nat)
    requires station < stations && phase < phases
    ensures SlotIndex(station, stations, phase) < stations * phases
  {
    ProductMonotone(phase + 1, phases, stations);
    assert stations * (phase + 1) == stations * phase + stations;
  }

  /** Distributing by station and then by phase is one round robin over the flattened pairs. */
  lemma ClientSlot(client: nat, stations: nat, phases: nat)
    requires stations > 0 && phases > 0
    ensures SlotIndex(client % stations, stations, PhaseOf(client, stations, phases)) < stations * phases
    ensures client % (stations * phases)
            == SlotIndex(client % stations, stations, PhaseOf(client, stations, phases))
  {
    var station, rest := client % stations, client / stations;
    var phase, rounds := rest % phases, rest / phases;
    assert client == rest * stations + station;
    assert rest == rounds * phases + phase;
    SlotOfParts(station, stations, phase, phases, rounds);
  }

  lemma SlotOfParts(station: nat, stations: nat, phase: nat, phases: nat, rounds: nat)
    requires station < stations && phase < phases
    ensures SlotIndex(station, stations, phase) < stations * phases
    ensures ((rounds * phases + phase) * stations + station) % (stations * phases)
            == SlotIndex(station, stations, phase)
  {
    SlotIndexBound(station, stations, phase, phases);
    Regrouped(rounds, phases, phase, stations);
    DivModUnique(
      (rounds * phases + phase) * stations + station, stations * phases, rounds,
      SlotIndex(station, stations, phase));
  }

  lemma Regrouped(rounds: nat, phases: nat, phase: nat, stations: nat)
    ensures (rounds * phases + phase) * stations == rounds * (stations * phases) + stations * phase
  {
    assert rounds * phases * stations == rounds * (stations * phases);
  }

  lemma SlotIndexInjective(s1: nat, s2: nat, stations: nat, p1: nat, p2: nat)
    requires s1 < stations && s2 < stations
    ensures SlotIndex(s1, stations, p1) == SlotIndex(s2, stations, p2) <==> s1 == s2 && p1 == p2
  {
    if SlotIndex(s1, stations, p1) == SlotIndex(s2, stations, p2) {
      DivModUnique(SlotIndex(s1, stations, p1), stations, p1, s1);
      DivModUnique(SlotIndex(s1, stations, p1), stations, p2, s2);
    }
  }

  /** The clients of one batch, in order. */
  function Batch(clients: nat, stations: nat, phases: nat, phase: nat, station: nat): seq<nat>
    requires station < stations && phase < phases
  {
    SlotIndexBound(station, stations, phase, phases);
    Slot(clients, stations * phases, SlotIndex(station, stations, phase))
  }

  predicate IsSchedule(schedule: Schedule, clients: nat, stations: nat, phases: nat)
    requires stations > 0 && phases > 0
  {
    && |schedule| == phases
    && (forall p | 0 <= p < phases :: |schedule[p]| == stations)
    && (forall p, s | 0 <= p < phases && 0 <= s < stations ::
          schedule[p][s] == Batch(clients, stations, phases, p, s))
  }

  lemma BatchStep(client: nat, stations: nat, phases: nat, phase: nat, station: nat)
    requires station < stations && phase < phases
    ensures Batch(client + 1, stations, phases, phase, station)
            == if station == client % stations && phase == PhaseOf(client, stations, phases)
               then Batch(client, stations, phases, phase, station) + [client]
               else Batch(client, stations, phases, phase, station)
  {
    ClientSlot(client, stations, phases);
    SlotIndexBound(station, stations, phase, phases);
    SlotStep(client, stations * phases, SlotIndex(station, stations, phase));
    SlotIndexInjective(
      station, client % stations, stations, phase, PhaseOf(client, stations, phases));
  }

  method CreateViewerSchedules(clients: nat, stations: nat, phases: nat) returns (schedule: Schedule)
    requires stations > 0 && phases > 0
    ensures IsSchedule(schedule, clients, stations, phases)
  {
    schedule := seq(phases, _ => seq(stations, _ => []));
    for client := 0 to clients
      invariant IsSchedule(schedule, client, stations, phases)
    {
      var station, phase := client % stations, PhaseOf(client, stations, phases);
      forall p, s | 0 <= p < phases && 0 <= s < stations
        ensures Batch(client + 1, stations, phases, p, s)
                == if s == station && p == phase then schedule[p][s] + [client] else schedule[p][s]
      {
        BatchStep(client, stations, phases, p, s);
      }
      schedule := schedule[phase := schedule[phase][station := schedule[phase][station] + [client]]];
    }
  }

  /** Partition: a client occurs in the batch of its own station and phase and in no other. */
  lemma ClientInOneBatch(
      schedule: Schedule, clients: nat, stations: nat, phases: nat, client: nat, phase: nat, station: nat)
    requires station < stations && phase < phases
    requires IsSchedule(schedule, clients, stations, phases)
    ensures client in schedule[phase][station]
            <==> client < clients && station == client % stations
                 && phase == PhaseOf(client, stations, phases)
  {
    ClientSlot(client, stations, phases);
    SlotIndexBound(station, stations, phase, phases);
    SlotMembership(clients, stations * phases, SlotIndex(station, stations, phase), client);
    SlotIndexInjective(
      station, client % stations, stations, phase, PhaseOf(client, stations, phases));
  }

  /** No batch lists a client twice. */
  lemma BatchDistinct(
      schedule: Schedule, clients: nat, stations: nat, phases: nat, phase: nat, station: nat, i: nat, j: nat)
    requires station < stations && phase < phases
    requires IsSchedule(schedule, clients, stations, phases)
    requires i < j < |schedule[phase][station]|
    ensures schedule[phase][station][i] != schedule[phase][station][j]
  {
    SlotIndexBound(station, stations, phase, phases);
    SlotIncreasing(clients, stations * phases, SlotIndex(station, stations, phase), i, j);
  }

  /** Balance: any two batches of the schedule differ in size by at most one. */
  lemma BatchesBalanced(
      schedule: Schedule, clients: nat, stations: nat, phases: nat, p1: nat, s1: nat, p2: nat, s2: nat)
    requires s1 < stations && s2 < stations && p1 < phases && p2 < phases
    requires IsSchedule(schedule, clients, stations, phases)
    ensures |schedule[p1][s1]| <= |schedule[p2][s2]| + 1
  {
    SlotIndexBound(s1, stations, p1, phases);
    SlotIndexBound(s2, stations, p2, phases);
    SlotSizeFormula(clients, stations * phases, SlotIndex(s1, stations, p1));
    SlotSizeFormula(clients, stations * phases, SlotIndex(s2, stations, p2));
  }

  /** How many of the ticks before `tick` replicate a given client. */
  function ServicesBefore(tick: nat, client: nat, stations: nat, phases: nat): nat
    requires stations > 0 && phases > 0
  {
    SlotSize(tick, phases, PhaseOf(client, stations, phases))
  }

  /** A tick adds a service to exactly the clients listed in the batches it replicates. */
  lemma TickServes(
      schedule: Schedule, clients: nat, stations: nat, phases: nat, tick: nat, client: nat)
    requires stations > 0 && phases > 0 && client < clients
    requires IsSchedule(schedule, clients, stations, phases)
    ensures ServicesBefore(tick + 1, client, stations, phases)
            == ServicesBefore(tick, client, stations, phases)
               + if client in schedule[tick % phases][client % stations] then 1 else 0
  {
    ClientInOneBatch(schedule, clients, stations, phases, client, tick % phases, client % stations);
    SlotStep(tick, phases, PhaseOf(client, stations, phases));
  }

  /** Fairness: any `phases` consecutive ticks serve every client exactly once. */
  lemma EveryWindowServesOnce(tick: nat, client: nat, stations: nat, phases: nat)
    requires stations > 0 && phases > 0
    ensures ServicesBefore(tick + phases, client, stations, phases)
            == ServicesBefore(tick, client, stations, phases) + 1
  {
    var phase := PhaseOf(client, stations, phases);
    DivModUnique(tick + phases, phases, tick / phases + 1, tick % phases);
    SlotSizeFormula(tick, phases, phase);
    SlotSizeFormula(tick + phases, phases, phase);
  }

  /** What serving a client once amounts to. */
  type Weight = nat -> nat

  /** Weight of all clients, each served once. */
  function ClientSum(clients: nat, weight: Weight): nat {
    if clients == 0 then 0 else ClientSum(clients - 1, weight) + weight(clients - 1)
  }

  function ListSum(served: seq<nat>, weight: Weight): nat {
    if served == [] then 0 else ListSum(served[..|served| - 1], weight) + weight(served[|served| - 1])
  }

  /** Weight of all services in the ticks before `tick`. */
  function TotalServices(tick: nat, clients: nat, stations: nat, phases: nat, weight: Weight): nat
    requires stations > 0 && phases > 0
  {
    if clients == 0 then 0
    else TotalServices(tick, clients - 1, stations, phases, weight)
         + ServicesBefore(tick, clients - 1, stations, phases) * weight(clients - 1)
  }

  lemma {:induction false} TotalServicesWindow(tick: nat, clients: nat, stations: nat, phases: nat, weight: Weight)
    requires stations > 0 && phases > 0
    ensures TotalServices(tick + phases, clients, stations, phases, weight)
            == TotalServices(tick, clients, stations, phases, weight) + ClientSum(clients, weight)
  {
    hide ServicesBefore;
    if clients > 0 {
      TotalServicesWindow(tick, clients - 1, stations, phases, weight);
      EveryWindowServesOnce(tick, clients - 1, stations, phases);
      var before := ServicesBefore(tick, clients - 1, stations, phases);
      assert (before + 1) * weight(clients - 1) == before * weight(clients - 1) + weight(clients - 1);
    }
  }

  /** After whole windows of ticks, every client was served once per window. */
  lemma {:induction false} TotalServicesWholeWindows(
      windows: nat, clients: nat, stations: nat, phases: nat, weight: Weight)
    requires stations > 0 && phases > 0
    ensures TotalServices(windows * phases, clients, stations, phases, weight)
            == windows * ClientSum(clients, weight)
  {
    hide TotalServices, ClientSum;
    if windows == 0 {
      TotalServicesStart(clients, stations, phases, weight);
    } else {
      TotalServicesWholeWindows(windows - 1, clients, stations, phases, weight);
      TotalServicesWindow((windows - 1) * phases, clients, stations, phases, weight);
      assert windows * phases == (windows - 1) * phases + phases;
      var sum := ClientSum(clients, weight);
      assert windows * sum == (windows - 1) * sum + sum;
    }
  }

  lemma {:induction false} TotalServicesStart(clients: nat, stations: nat, phases: nat, weight: Weight)
    requires stations > 0 && phases > 0
    ensures TotalServices(0, clients, stations, phases, weight) == 0
  {
    if clients > 0 {
      TotalServicesStart(clients - 1, stations, phases, weight);
    }
  }

  /** Weight of the clients of one phase, over the first `upTo` station batches. */
  function PhaseLoad(clients: nat, stations: nat, phases: nat, phase: nat, upTo: nat, weight: Weight): nat
    requires phase < phases && upTo <= stations
  {
    if upTo == 0 then 0
    else PhaseLoad(clients, stations, phases, phase, upTo - 1, weight)
         + ListSum(Batch(clients, stations, phases, phase, upTo - 1), weight)
  }

  lemma {:induction false} PhaseLoadStep(
      clients: nat, stations: nat, phases: nat, phase: nat, upTo: nat, weight: Weight)
    requires stations > 0 && phase < phases && upTo <= stations
    ensures PhaseLoad(clients + 1, stations, phases, phase, upTo, weight)
            == PhaseLoad(clients, stations, phases, phase, upTo, weight)
               + if clients % stations < upTo && phase == PhaseOf(clients, stations, phases)
                 then weight(clients) else 0
  {
    hide Batch, PhaseOf;
    if upTo > 0 {
      PhaseLoadStep(clients, stations, phases, phase, upTo - 1, weight);
      BatchStep(clients, stations, phases, phase, upTo - 1);
      var batch := Batch(clients, stations, phases, phase, upTo - 1);
      assert (batch + [clients])[..|batch|] == batch;
    }
  }

  /** What one tick replicates is what it adds to all services. */
  lemma {:induction false} TickLoad(tick: nat, clients: nat, stations: nat, phases: nat, weight: Weight)
    requires stations > 0 && phases > 0
    ensures TotalServices(tick + 1, clients, stations, phases, weight)
            == TotalServices(tick, clients, stations, phases, weight)
               + PhaseLoad(clients, stations, phases, tick % phases, stations, weight)
  {
    hide PhaseLoad, PhaseOf;
    if clients == 0 {
      EmptyPhaseLoad(stations, phases, tick % phases, stations, weight);
    } else {
      TickLoad(tick, clients - 1, stations, phases, weight);
      PhaseLoadStep(clients - 1, stations, phases, tick % phases, stations, weight);
      ServiceStep(tick, clients - 1, stations, phases, weight(clients - 1));
    }
  }

  lemma ServiceStep(tick: nat, client: nat, stations: nat, phases: nat, weight: nat)
    requires stations > 0 && phases > 0
    ensures ServicesBefore(tick + 1, client, stations, phases) * weight
            == ServicesBefore(tick, client, stations, phases) * weight
               + if tick % phases == PhaseOf(client, stations, phases) then weight else 0
  {
    SlotStep(tick, phases, PhaseOf(client, stations, phases));
    hide SlotSize;
    var before := SlotSize(tick, phases, PhaseOf(client, stations, phases));
    assert (before + 1) * weight == before * weight + weight;
  }

  lemma {:induction false} EmptyPhaseLoad(stations: nat, phases: nat, phase: nat, upTo: nat, weight: Weight)
    requires phase < phases && upTo <= stations
    ensures PhaseLoad(0, stations, phases, phase, upTo, weight) == 0
  {
    if upTo > 0 {
      EmptyPhaseLoad(stations, phases, phase, upTo - 1, weight);
    }
  }

  /** Clients weighted by their station alone add up station by station: each counts as often as
      it has clients. */
  function StationSum(clients: nat, stations: nat, weight: Weight, upTo: nat): nat
    requires upTo <= stations
  {
    if upTo == 0 then 0
    else StationSum(clients, stations, weight, upTo - 1)
         + SlotSize(clients, stations, upTo - 1) * weight(upTo - 1)
  }

  lemma {:induction false} StationSumStep(clients: nat, stations: nat, weight: Weight, upTo: nat)
    requires 0 < stations && upTo <= stations
    ensures StationSum(clients + 1, stations, weight, upTo)
            == StationSum(clients, stations, weight, upTo)
               + if clients % stations < upTo then weight(clients % stations) else 0
  {
    hide SlotSize;
    if upTo > 0 {
      StationSumStep(clients, stations, weight, upTo - 1);
      SlotStep(clients, stations, upTo - 1);
      var size := SlotSize(clients, stations, upTo - 1);
      assert (size + 1) * weight(upTo - 1) == size * weight(upTo - 1) + weight(upTo - 1);
    }
  }

  lemma {:induction false} EmptyStationSum(stations: nat, weight: Weight, upTo: nat)
    requires upTo <= stations
    ensures StationSum(0, stations, weight, upTo) == 0
  {
    if upTo > 0 {
      EmptyStationSum(stations, weight, upTo - 1);
    }
  }

  lemma {:induction false} ClientsByStation(clients: nat, stations: nat, weight: Weight, byClient: Weight)
    requires stations > 0
    requires forall client: nat :: byClient(client) == weight(client % stations)
    ensures ClientSum(clients, byClient) == StationSum(clients, stations, weight, stations)
  {
    if clients == 0 {
      EmptyStationSum(stations, weight, stations);
    } else {
      ClientsByStation(clients - 1, stations, weight, byClient);
      StationSumStep(clients - 1, stations, weight, stations);
    }
  }

  /** Clients of equal weight. */
  lemma {:induction false} EqualClients(clients: nat, weight: Weight, each: nat)
    requires forall client: nat :: weight(client) == each
    ensures ClientSum(clients, weight) == clients * each
  {
    if clients > 0 {
      EqualClients(clients - 1, weight, each);
      assert clients * each == (clients - 1) * each + each;
    }
  }

  lemma {:induction false} SameWeights(clients: nat, a: Weight, b: Weight)
    requires forall client: nat :: a(client) == b(client)
    ensures ClientSum(clients, a) == ClientSum(clients, b)
  {
    if clients > 0 {
      SameWeights(clients - 1, a, b);
    }
  }
}
