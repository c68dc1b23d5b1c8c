/** The gateway's promise to any caller, over all histories of commands. */
module GatewayLaws {
  import opened MachineInts
  import opened Options
  import opened GatewaySessions

  /** A command offered to the gateway. */
  datatype Attempt = Attempt(client: nat, sequence: nat, now: nat)

  datatype History = History(gateway: Gateway, admitted: seq<Attempt>)

  /** The gateway after a list of attempts, and those it admitted; a refused one changes nothing. */
  function After(gateway: Gateway, attempts: seq<Attempt>): History {
    if attempts == [] then History(gateway, [])
    else Offer(After(gateway, attempts[..|attempts| - 1]), attempts[|attempts| - 1])
  }

  function Offer(history: History, attempt: Attempt): History {
    match history.gateway.AdmitSequence(attempt.client, attempt.sequence, attempt.now)
    case None => history
    case Some(next) => History(next, history.admitted + [attempt])
  }

  /** Time does not run backwards. */
  ghost predicate Ordered(attempts: seq<Attempt>) {
    forall i, j | 0 <= i < j < |attempts| :: attempts[i].now <= attempts[j].now
  }

  /** Nobody has sent a command yet. */
  ghost predicate Unused(gateway: Gateway) {
    && gateway.maxCommandsPerTick < U64_MAX
    && forall client | client in gateway.sessions ::
         gateway.sessions[client].lastSequence == None && gateway.sessions[client].commandsThisTick == 0
  }

  /** Commands of a client that were admitted at one tick. */
  function AdmittedAt(admitted: seq<Attempt>, client: nat, now: nat): nat {
    if admitted == [] then 0
    else
      var last := admitted[|admitted| - 1];
      AdmittedAt(admitted[..|admitted| - 1], client, now)
        + if last.client == client && last.now == now then 1 else 0
  }

  /** What is to be admitted: a command of a connected client, newer than all it sent before, while
      fewer than the limit were admitted at the tick. */
  ghost predicate Acceptable(gateway: Gateway, admitted: seq<Attempt>, attempt: Attempt) {
    && attempt.client in gateway.sessions
    && (forall i | 0 <= i < |admitted| && admitted[i].client == attempt.client ::
          admitted[i].sequence < attempt.sequence)
    && AdmittedAt(admitted, attempt.client, attempt.now) < gateway.maxCommandsPerTick
  }

  /** A session knows the last of its client's admitted commands, and how many there were in the
      tick of that one. */
  ghost predicate Remembers(session: Session, admitted: seq<Attempt>, client: nat, limit: nat) {
    && (forall i | 0 <= i < |admitted| && admitted[i].client == client ::
          && session.lastSequence.Some? && admitted[i].sequence <= session.lastSequence.value
          && admitted[i].now <= session.commandTick)
    && (session.lastSequence.Some? ==>
          Attempt(client, session.lastSequence.value, session.commandTick) in admitted)
    && session.commandsThisTick == AdmittedAt(admitted, client, session.commandTick) <= limit
  }

  ghost predicate Faithful(start: Gateway, history: History) {
    && history.gateway == start.(sessions := history.gateway.sessions)
    && history.gateway.sessions.Keys == start.sessions.Keys
    && forall client | client in history.gateway.sessions ::
         Remembers(
           history.gateway.sessions[client], history.admitted, client, start.maxCommandsPerTick)
  }

  lemma {:induction false} NoneAdmittedAt(admitted: seq<Attempt>, client: nat, now: nat)
    requires forall i | 0 <= i < |admitted| && admitted[i].client == client :: admitted[i].now != now
    ensures AdmittedAt(admitted, client, now) == 0
  {
    if admitted != [] {
      NoneAdmittedAt(admitted[..|admitted| - 1], client, now);
    }
  }

  lemma AdmittedAppend(admitted: seq<Attempt>, attempt: Attempt, client: nat, now: nat)
    ensures AdmittedAt(admitted + [attempt], client, now)
            == AdmittedAt(admitted, client, now) + if attempt.client == client && attempt.now == now then 1 else 0
  {
    assert (admitted + [attempt])[..|admitted|] == admitted;
  }

  lemma OthersRemember(session: Session, admitted: seq<Attempt>, attempt: Attempt, client: nat, limit: nat)
    requires Remembers(session, admitted, client, limit) && attempt.client != client
    ensures Remembers(session, admitted + [attempt], client, limit)
  {
    AdmittedAppend(admitted, attempt, client, session.commandTick);
  }

  lemma OwnRemembered(session: Session, admitted: seq<Attempt>, attempt: Attempt, limit: nat)
    requires Remembers(session, admitted, attempt.client, limit)
    requires forall i | 0 <= i < |admitted| :: admitted[i].now <= attempt.now
    requires session.lastSequence.Some? ==> session.lastSequence.value < attempt.sequence
    requires AdmittedAt(admitted, attempt.client, attempt.now) < limit
    ensures Remembers(
              Session(
                Some(attempt.sequence), attempt.now, AdmittedAt(admitted, attempt.client, attempt.now) + 1,
                attempt.now),
              admitted + [attempt], attempt.client, limit)
  {
    AdmittedAppend(admitted, attempt, attempt.client, attempt.now);
    var after := admitted + [attempt];
    assert after[|admitted|] == attempt;
  }

  /** What a session remembers tells what is acceptable, and how many there were at the tick. */
  lemma DecidedByMemory(start: Gateway, gateway: Gateway, admitted: seq<Attempt>, attempt: Attempt)
    requires start.maxCommandsPerTick < U64_MAX && Faithful(start, History(gateway, admitted))
    requires attempt.client in gateway.sessions
    requires forall i | 0 <= i < |admitted| :: admitted[i].now <= attempt.now
    ensures var session := gateway.sessions[attempt.client];
            && (if session.commandTick != attempt.now then 0 else session.commandsThisTick)
               == AdmittedAt(admitted, attempt.client, attempt.now) <= start.maxCommandsPerTick
            && (Acceptable(start, admitted, attempt)
                <==> && (session.lastSequence.Some? ==> session.lastSequence.value < attempt.sequence)
                     && AdmittedAt(admitted, attempt.client, attempt.now) < start.maxCommandsPerTick)
  {
    var session := gateway.sessions[attempt.client];
    assert Remembers(session, admitted, attempt.client, start.maxCommandsPerTick);
    if session.commandTick != attempt.now {
      NoneAdmittedAt(admitted, attempt.client, attempt.now);
    }
  }

  /** A faithful gateway decides by the history, and stays faithful. */
  lemma OfferExactly(start: Gateway, history: History, attempt: Attempt)
    requires start.maxCommandsPerTick < U64_MAX && Faithful(start, history)
    requires forall i | 0 <= i < |history.admitted| :: history.admitted[i].now <= attempt.now
    ensures var offered := history.gateway.AdmitSequence(attempt.client, attempt.sequence, attempt.now);
            offered.Some? <==> Acceptable(start, history.admitted, attempt)
    ensures Faithful(start, Offer(history, attempt))
  {
    var client := attempt.client;
    if client in history.gateway.sessions {
      DecidedByMemory(start, history.gateway, history.admitted, attempt);
      hide Acceptable, AdmittedAt, Remembers;
      var after := Offer(history, attempt);
      if after != history {
        forall other | other in after.gateway.sessions
          ensures Remembers(after.gateway.sessions[other], after.admitted, other, start.maxCommandsPerTick)
        {
          assert Remembers(
            history.gateway.sessions[other], history.admitted, other, start.maxCommandsPerTick);
          if other == client {
            OwnRemembered(
              history.gateway.sessions[client], history.admitted, attempt, start.maxCommandsPerTick);
          } else {
            OthersRemember(
              history.gateway.sessions[other], history.admitted, attempt, other, start.maxCommandsPerTick);
          }
        }
      }
    }
  }

  lemma {:induction false} HistoryFaithful(gateway: Gateway, attempts: seq<Attempt>)
    requires Unused(gateway) && Ordered(attempts)
    ensures Faithful(gateway, After(gateway, attempts))
    ensures forall attempt | attempt in After(gateway, attempts).admitted :: attempt in attempts
  {
    hide Faithful, Acceptable, Gateway.AdmitSequence;
    if attempts == [] {
      NothingOffered(gateway);
    } else {
      var front, last := attempts[..|attempts| - 1], attempts[|attempts| - 1];
      HistoryFaithful(gateway, front);
      var before := After(gateway, front);
      forall i | 0 <= i < |before.admitted| ensures before.admitted[i].now <= last.now {
        assert before.admitted[i] in front;
      }
      OfferExactly(gateway, before, last);
    }
  }

  lemma NothingOffered(gateway: Gateway)
    requires Unused(gateway)
    ensures Faithful(gateway, History(gateway, []))
  {
  }

  /** Over every history of attempts a command is admitted exactly if its client is connected, its
      sequence exceeds all of that client's admitted before, and the tick's limit is not used up:
      nothing is ever replayed, and no newer command within the limit refused. */
  lemma AdmitsExactly(gateway: Gateway, attempts: seq<Attempt>, attempt: Attempt)
    requires Unused(gateway) && Ordered(attempts + [attempt])
    ensures var history := After(gateway, attempts);
            history.gateway.AdmitSequence(attempt.client, attempt.sequence, attempt.now).Some?
            <==> Acceptable(gateway, history.admitted, attempt)
  {
    hide Faithful, Acceptable, Gateway.AdmitSequence, After;
    var all := attempts + [attempt];
    assert forall i | 0 <= i < |attempts| :: all[i] == attempts[i];
    assert all[|attempts|] == attempt;
    HistoryFaithful(gateway, attempts);
    var history := After(gateway, attempts);
    forall i | 0 <= i < |history.admitted| ensures history.admitted[i].now <= attempt.now {
      assert history.admitted[i] in attempts;
    }
    OfferExactly(gateway, history, attempt);
  }

  /** Connecting opens a session for a new client while there is room, and only then. */
  lemma ConnectExactly(gateway: Gateway, client: nat, now: nat)
    requires |gateway.sessions| <= gateway.maxSessions
    ensures var connected := gateway.Connect(client, now);
            && (connected.Some? <==> client in gateway.sessions || |gateway.sessions| < gateway.maxSessions)
            && (connected.Some? ==>
                  && |connected.value.sessions| <= connected.value.maxSessions == gateway.maxSessions
                  && connected.value.sessions.Keys == gateway.sessions.Keys + {client}
                  && (client !in gateway.sessions ==>
                        connected.value.sessions[client] == Session(None, now, 0, now))
                  && (client in gateway.sessions ==>
                        connected.value.sessions[client] == gateway.sessions[client].(lastSeen := now))
                  && forall other | other in gateway.sessions && other != client ::
                       connected.value.sessions[other] == gateway.sessions[other])
  {
    var connected := gateway.Connect(client, now);
    if connected.Some? {
      var after := connected.value.sessions;
      assert after.Keys == gateway.sessions.Keys + {client};
      assert |after| == |after.Keys| && |gateway.sessions| == |gateway.sessions.Keys|;
      if client in gateway.sessions {
        assert after.Keys == gateway.sessions.Keys;
      }
    }
  }
}

/** What the queues, the transport and the router promise to any caller. */
module QueueLaws {
  import opened Options
  import Commands = CommandQueues
  import Transport = TransportHub
  import Events = EventRouter

  // ----- commands -----

  ghost predicate WithinLimits(queues: Commands.Queues) {
    |queues.high| <= 32 && |queues.normal| <= 128 && |queues.low| <= 32
  }

  /** The queue of one priority. */
  function QueueOf(queues: Commands.Queues, priority: Commands.Priority): seq<Commands.Command> {
    match priority
    case High => queues.high
    case Normal => queues.normal
    case Low => queues.low
  }

  /** A command is refused exactly when the queue of its priority is full; otherwise it is the last
      of that queue, and the others stay as they are. */
  lemma PushExactly(queues: Commands.Queues, command: Commands.Command, other: Commands.Priority)
    requires WithinLimits(queues)
    ensures var pushed := queues.Push(command);
            var limit := if command.priority == Commands.Normal then 128 else 32;
            && (pushed.None? <==> |QueueOf(queues, command.priority)| == limit)
            && (pushed.Some? ==>
                  && WithinLimits(pushed.value)
                  && QueueOf(pushed.value, other)
                     == QueueOf(queues, other) + if other == command.priority then [command] else [])
  {
  }

  // ----- endpoints -----

  /** Every endpoint owns its port, no two share one, and no port is kept for a client that left. */
  ghost predicate PortsOwned(hub: Transport.Hub) {
    && (forall client | client in hub.clients ::
          && hub.clients[client].port in hub.ports && hub.ports[hub.clients[client].port] == client
          && |hub.clients[client].queue| <= Transport.MAX_QUEUED_PACKETS)
    && (forall port | port in hub.ports ::
          hub.ports[port] in hub.clients && hub.clients[hub.ports[port]].port == port)
  }

  /** Registering takes the port over from whoever had it, who is no client any more, starts with an
      empty queue, and concerns nobody else. */
  lemma RegisterExactly(hub: Transport.Hub, client: nat, port: nat)
    requires PortsOwned(hub)
    ensures var after := hub.Register(client, port);
            && PortsOwned(after)
            && client in after.clients && after.clients[client] == Transport.Client(port, [])
            && forall other | other != client ::
                 && (other in after.clients
                     <==> other in hub.clients && hub.clients[other].port != port)
                 && (other in after.clients ==> after.clients[other] == hub.clients[other])
  {
  }

  lemma UnregisterExactly(hub: Transport.Hub, client: nat)
    requires PortsOwned(hub)
    ensures var released := hub.Unregister(client);
            && (released.Some? <==> client in hub.clients)
            && (released.Some? ==>
                  && PortsOwned(released.value.hub)
                  && released.value.queuedPackets == |hub.clients[client].queue|
                  && released.value.hub.clients == hub.clients - {client})
  {
  }

  /** A packet between registered endpoints is refused exactly when it is too large or its queue is
      full; otherwise it is the last of that queue. */
  lemma SendExactly(hub: Transport.Hub, source: nat, target: nat, bytes: nat)
    requires PortsOwned(hub)
    ensures var sent := hub.Send(source, target, bytes);
            && (sent.Some? <==> source in hub.clients && target in hub.clients && bytes <= 16 * 1024
                                && |hub.clients[target].queue| < 64)
            && (sent.Some? ==>
                  && PortsOwned(sent.value) && sent.value.clients.Keys == hub.clients.Keys
                  && forall client | client in hub.clients ::
                       sent.value.clients[client].queue
                       == hub.clients[client].queue + if client == target then [bytes] else [])
  {
  }

  /** Receiving takes the packet that was queued first, and finds none exactly in an empty queue. */
  lemma ReceiveExactly(hub: Transport.Hub, client: nat)
    requires PortsOwned(hub)
    ensures var received := hub.TryRecv(client);
            && (received.Some? <==> client in hub.clients)
            && (received.Some? ==>
                  && PortsOwned(received.value.hub) && received.value.hub.clients.Keys == hub.clients.Keys
                  && hub.clients[client].queue
                     == (match received.value.packet case None => [] case Some(bytes) => [bytes])
                        + received.value.hub.clients[client].queue
                  && (received.value.packet.None? <==> hub.clients[client].queue == [])
                  && forall other | other in hub.clients && other != client ::
                       received.value.hub.clients[other] == hub.clients[other])
  {
  }

  // ----- events -----

  lemma ReadyStep(event: Events.Event, rest: seq<Events.Event>, tick: nat)
    ensures Events.Ready([event] + rest, tick)
            == (if event.targetTick <= tick then [event] else []) + Events.Ready(rest, tick)
    ensures Events.Delayed([event] + rest, tick)
            == (if event.targetTick <= tick then [] else [event]) + Events.Delayed(rest, tick)
  {
    assert ([event] + rest)[1..] == rest;
  }

  /** Draining splits a queue event by event, so order is kept on both sides. */
  lemma {:induction false} DrainSplits(front: seq<Events.Event>, back: seq<Events.Event>, tick: nat)
    ensures Events.Ready(front + back, tick) == Events.Ready(front, tick) + Events.Ready(back, tick)
    ensures Events.Delayed(front + back, tick) == Events.Delayed(front, tick) + Events.Delayed(back, tick)
  {
    if front == [] {
      assert front + back == back;
    } else {
      hide Events.Ready, Events.Delayed;
      DrainSplits(front[1..], back, tick);
      ReadyStep(front[0], front[1..] + back, tick);
      ReadyStep(front[0], front[1..], tick);
      assert front + back == [front[0]] + (front[1..] + back) && front == [front[0]] + front[1..];
    }
  }

  /** No event is lost or made up: the due ones are drained and the others kept. */
  lemma {:induction false} DrainPartitions(queue: seq<Events.Event>, tick: nat)
    ensures var ready, delayed := Events.Ready(queue, tick), Events.Delayed(queue, tick);
            && multiset(ready) + multiset(delayed) == multiset(queue)
            && (forall event | event in ready :: event.targetTick <= tick)
            && (forall event | event in delayed :: event.targetTick > tick)
  {
    if queue != [] {
      DrainPartitions(queue[1..], tick);
      assert queue == [queue[0]] + queue[1..];
    }
  }

  /** Draining more often makes no difference to what is kept. */
  lemma {:induction false} DrainTwice(queue: seq<Events.Event>, tick: nat, later: nat)
    requires tick <= later
    ensures Events.Delayed(Events.Delayed(queue, tick), later) == Events.Delayed(queue, later)
  {
    if queue != [] {
      DrainTwice(queue[1..], tick, later);
      if queue[0].targetTick > tick {
        assert Events.Delayed(queue, tick)[1..] == Events.Delayed(queue[1..], tick);
      }
    }
  }

  /** An event is refused exactly when its station is not registered or has 64 queued; otherwise it
      is the last of that station's queue, and no other queue changes. */
  lemma RouteExactly(router: Events.Router, event: Events.Event)
    requires forall station | station in router.queues :: |router.queues[station]| <= 64
    ensures var routed := router.Route(event);
            && (routed.Some? <==> event.station in router.queues && |router.queues[event.station]| < 64)
            && (routed.Some? ==>
                  && routed.value.queues.Keys == router.queues.Keys
                  && forall station | station in router.queues ::
                       && |routed.value.queues[station]| <= 64
                       && routed.value.queues[station]
                          == router.queues[station] + if station == event.station then [event] else [])
  {
  }
}
