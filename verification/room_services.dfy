/** The services a gameplay room is built from, each with the operations the room uses. They
    are plain values: a room owns its services, so no other holder can observe an update. */
module Components {
  import opened Options
  import opened StationTable

  const TRANSFORM: nat := 1
  const STATE: nat := 2
  const INVENTORY: nat := 0xFFFF

  datatype Payload = Transform(position: Position) | State(value: nat) | Inventory {
    /** Encoded length. */
    function Bytes(): nat {
      match this
      case Transform(_) => 24
      case State(_) => 8
      case Inventory => 64
    }
  }

  datatype Descriptor = Descriptor(component: nat, maxBytes: nat)

  const TRANSFORM_DESCRIPTOR := Descriptor(TRANSFORM, 24)
  const STATE_DESCRIPTOR := Descriptor(STATE, 8)
  const INVENTORY_DESCRIPTOR := Descriptor(INVENTORY, 64)

  datatype BlobKey = BlobKey(component: nat, handle: EntityHandle)

  datatype Blob = Blob(version: nat, dirty: bool, payload: Payload)

  datatype ComponentStore = ComponentStore(columns: set<nat>, blobs: map<BlobKey, Blob>) {
    function ReserveComponent(component: nat): ComponentStore {
      this.(columns := columns + {component})
    }

    /** Writes a blob and marks it dirty; an oversized payload is refused. Copying from a slice
        has the same effect. */
    function SetBlob(descriptor: Descriptor, handle: EntityHandle, version: nat, payload: Payload)
      : Option<ComponentStore>
    {
      if payload.Bytes() > descriptor.maxBytes then None
      else Some(ComponentStore(
        columns + {descriptor.component},
        blobs[BlobKey(descriptor.component, handle) := Blob(version, true, payload)]))
    }

    predicate IsDirty(component: nat, handle: EntityHandle) {
      BlobKey(component, handle) in blobs && blobs[BlobKey(component, handle)].dirty
    }

    function ClearDirtyForEntity(handle: EntityHandle): ComponentStore {
      this.(blobs := map key | key in blobs ::
        if key.handle == handle then blobs[key].(dirty := false) else blobs[key])
    }

    function ClearEntity(handle: EntityHandle): ComponentStore {
      this.(blobs := map key | key in blobs && key.handle != handle :: blobs[key])
    }
  }
}

module GatewaySessions {
  import opened MachineInts
  import opened Options

  datatype Session = Session(lastSequence: Option<nat>, commandTick: nat, commandsThisTick: nat, lastSeen: nat)

  /** Sessions of connected clients; the room never disconnects one. */
  datatype Gateway = Gateway(maxSessions: nat, maxCommandsPerTick: nat, sessions: map<nat, Session>) {
    function Connect(client: nat, now: nat): Option<Gateway> {
      if client in sessions then
        Some(this.(sessions := sessions[client := sessions[client].(lastSeen := now)]))
      else if |sessions| >= maxSessions then None
      else Some(this.(sessions := sessions[client := Session(None, now, 0, now)]))
    }

    /** Admits one command: its sequence must exceed the last one, and the per-tick budget,
        reset on the first command of a tick, must not be exhausted. */
    function AdmitSequence(client: nat, sequence: nat, now: nat): Option<Gateway> {
      if client !in sessions then None
      else
        var session := sessions[client];
        if session.lastSequence.Some? && sequence <= session.lastSequence.value then None
        else
          var attempted := SatAdd(if session.commandTick != now then 0 else session.commandsThisTick, 1);
          if attempted > maxCommandsPerTick then None
          else Some(this.(sessions := sessions[client := Session(Some(sequence), now, attempted, now)]))
    }
  }
}

module CommandQueues {
  import opened Options

  datatype Priority = High | Normal | Low

  datatype Command = Command(client: nat, entity: nat, sequence: nat, receivedAt: nat, priority: Priority)

  const HIGH_LIMIT: nat := 32
  const NORMAL_LIMIT: nat := 128
  const LOW_LIMIT: nat := 32

  datatype Popped = Popped(command: Command, rest: Queues)

  /** Bounded queues by priority. */
  datatype Queues = Queues(high: seq<Command>, normal: seq<Command>, low: seq<Command>) {
    function Push(command: Command): Option<Queues> {
      match command.priority
      case High => if |high| < HIGH_LIMIT then Some(this.(high := high + [command])) else None
      case Normal => if |normal| < NORMAL_LIMIT then Some(this.(normal := normal + [command])) else None
      case Low => if |low| < LOW_LIMIT then Some(this.(low := low + [command])) else None
    }

    function PopNext(): (popped: Option<Popped>)
      ensures popped.Some? ==> popped.value.rest.Length() == Length() - 1
      ensures popped.None? <==> Length() == 0
    {
      if high != [] then Some(Popped(high[0], this.(high := high[1..])))
      else if normal != [] then Some(Popped(normal[0], this.(normal := normal[1..])))
      else if low != [] then Some(Popped(low[0], this.(low := low[1..])))
      else None
    }

    function Length(): nat { |high| + |normal| + |low| }
  }

  const EMPTY := Queues([], [], [])
}

module TransportHub {
  import opened Options

  const MAX_QUEUED_PACKETS: nat := 64
  const MAX_PACKET_BYTES: nat := 16 * 1024

  datatype Client = Client(port: nat, queue: seq<nat>)

  datatype Released = Released(hub: Hub, queuedPackets: nat)

  datatype Received = Received(hub: Hub, packet: Option<nat>)

  /** In-memory client transport; packets are represented by their lengths. */
  datatype Hub = Hub(clients: map<nat, Client>, ports: map<nat, nat>) {
    /** Registers an endpoint. A port that belonged to another client evicts that client. */
    function Register(client: nat, port: nat): Hub {
      var freed := if client in clients then ports - {clients[client].port} else ports;
      var registered := clients[client := Client(port, [])];
      Hub(
        if port in freed && freed[port] != client then registered - {freed[port]} else registered,
        freed[port := client])
    }

    function Send(source: nat, target: nat, bytes: nat): Option<Hub> {
      if bytes > MAX_PACKET_BYTES || source !in clients || target !in clients then None
      else if |clients[target].queue| >= MAX_QUEUED_PACKETS then None
      else Some(this.(clients :=
        clients[target := clients[target].(queue := clients[target].queue + [bytes])]))
    }

    function QueueLength(client: nat): nat {
      if client in clients then |clients[client].queue| else 0
    }

    function TryRecv(client: nat): (received: Option<Received>)
      ensures received.Some? && received.value.packet.Some? ==>
                received.value.hub.QueueLength(client) < QueueLength(client)
    {
      if client !in clients then None
      else
        var queue := clients[client].queue;
        if queue == [] then Some(Received(this, None))
        else Some(Received(
          this.(clients := clients[client := clients[client].(queue := queue[1..])]),
          Some(queue[0])))
    }

    /** Releases an endpoint and reports the packets it still had queued. */
    function Unregister(client: nat): Option<Released> {
      if client !in clients then None
      else Some(Released(
        Hub(clients - {client}, ports - {clients[client].port}),
        |clients[client].queue|))
    }
  }

  const EMPTY := Hub(map[], map[])
}

module EventRouter {
  import opened Options

  const IMPORTANT_LIMIT: nat := 64

  datatype Event = Event(id: nat, station: nat, targetTick: nat)

  datatype Drained = Drained(router: Router, ready: seq<Event>)

  datatype Dropped = Dropped(router: Router, queued: nat)

  function Ready(queue: seq<Event>, tick: nat): seq<Event> {
    if queue == [] then []
    else if queue[0].targetTick <= tick then [queue[0]] + Ready(queue[1..], tick)
    else Ready(queue[1..], tick)
  }

  function Delayed(queue: seq<Event>, tick: nat): seq<Event> {
    if queue == [] then []
    else if queue[0].targetTick <= tick then Delayed(queue[1..], tick)
    else [queue[0]] + Delayed(queue[1..], tick)
  }

  /** The important-priority queues of the registered stations. */
  datatype Router = Router(queues: map<nat, seq<Event>>) {
    function RegisterStation(station: nat): Router {
      if station in queues then this else Router(queues[station := []])
    }

    function UnregisterStation(station: nat): Option<Dropped> {
      if station !in queues then None
      else Some(Dropped(Router(queues - {station}), |queues[station]|))
    }

    function Route(event: Event): Option<Router> {
      if event.station !in queues || |queues[event.station]| >= IMPORTANT_LIMIT then None
      else Some(Router(queues[event.station := queues[event.station] + [event]]))
    }

    function DrainReady(station: nat, tick: nat): Option<Drained> {
      if station !in queues then None
      else Some(Drained(
        Router(queues[station := Delayed(queues[station], tick)]),
        Ready(queues[station], tick)))
    }
  }

  const EMPTY := Router(map[])
}
