/** The frame encoder: which planned entities and components a frame holds, and its length. */
module FrameEncoding {
  import opened StationTable
  import opened Components

  const HEADER_BYTES: nat := 1 + 8 + 8 + 4 + 4 + 4
  const ENTITY_BYTES: nat := 8 + 8 + 2
  const COMPONENT_BYTES: nat := 2 + 8 + 1 + 4
  const MAX_ENTITY_DELTAS: nat := 256
  const MAX_COMPONENTS: nat := 3
  const MAX_COMPONENT_BYTES: nat := 64
  const SELECTION: seq<nat> := [TRANSFORM, STATE, INVENTORY]

  /** One component of an entity as a frame carries it. */
  datatype Part = Part(component: nat, version: nat, payload: Payload)

  /** What a frame carries of one entity. */
  datatype EntityDelta = EntityDelta(entity: nat, parts: seq<Part>)

  /** The components of one entity that a frame would carry, and the bytes they take. */
  datatype Delta = Delta(bytes: nat, parts: seq<Part>)

  datatype Frame = Frame(bytes: nat, deltas: seq<EntityDelta>, components: nat, skipped: nat, full: bool) {
    function Entities(): nat { |deltas| }
  }

  /** An entity after the first `n` selected components: those present, dirty and small enough. */
  function DeltaUpTo(store: ComponentStore, handle: EntityHandle, n: nat): (delta: Delta)
    requires n <= |SELECTION|
    ensures |delta.parts| <= n
  {
    if n == 0 then Delta(ENTITY_BYTES, [])
    else
      var before := DeltaUpTo(store, handle, n - 1);
      var key := BlobKey(SELECTION[n - 1], handle);
      if |before.parts| >= MAX_COMPONENTS || key !in store.blobs || !store.blobs[key].dirty
         || store.blobs[key].payload.Bytes() > MAX_COMPONENT_BYTES
      then before
      else Delta(
        before.bytes + COMPONENT_BYTES + store.blobs[key].payload.Bytes(),
        before.parts + [Part(key.component, store.blobs[key].version, store.blobs[key].payload)])
  }

  function DeltaOf(store: ComponentStore, handle: EntityHandle): Delta {
    DeltaUpTo(store, handle, |SELECTION|)
  }

  /** A frame after one more planned entity: one without anything to send is passed over, and the
      first that does not fit ends the frame. */
  function EncodeEntity(station: Station, store: ComponentStore, maxBytes: nat, before: Frame, handle: EntityHandle)
    : Frame
  {
    if before.full || before.Entities() >= MAX_ENTITY_DELTAS || !station.IsLive(handle) then before
    else
      var delta := DeltaOf(store, handle);
      if delta.parts == [] then before
      else if before.bytes + delta.bytes > maxBytes then before.(skipped := before.skipped + 1, full := true)
      else Frame(
        before.bytes + delta.bytes,
        before.deltas + [EntityDelta(station.Get(handle).value.id, delta.parts)],
        before.components + |delta.parts|, before.skipped, false)
  }

  /** A frame after the first `n` planned entities. */
  function EncodeUpTo(station: Station, store: ComponentStore, plan: seq<EntityHandle>, maxBytes: nat, n: nat)
    : Frame
    requires n <= |plan|
  {
    if n == 0 then Frame(HEADER_BYTES, [], 0, 0, false)
    else EncodeEntity(
      station, store, maxBytes, EncodeUpTo(station, store, plan, maxBytes, n - 1), plan[n - 1])
  }

  function Encode(station: Station, store: ComponentStore, plan: seq<EntityHandle>, maxBytes: nat): Frame {
    EncodeUpTo(station, store, plan, maxBytes, |plan|)
  }
}

/** The bounded tracker of what was sent to whom. */
module ReplicationTracking {
  import opened Collections
  import opened MachineInts
  import opened Options
  import opened StationTable

  datatype TrackKey = TrackKey(client: nat, handle: EntityHandle)

  /** The tracked pairs of client and entity, and the totals of sent and acknowledged records. */
  datatype Tracker = Tracker(maxEntries: nat, records: set<TrackKey>, sent: word, acked: word) {
    /** How many of the first `n` entities the client has no record for. */
    function MissingUpTo(client: nat, plan: seq<EntityHandle>, n: nat): word
      requires n <= |plan|
    {
      if n == 0 then 0
      else if TrackKey(client, plan[n - 1]) in records then MissingUpTo(client, plan, n - 1)
      else SatAdd(MissingUpTo(client, plan, n - 1), 1)
    }

    /** A cheap bound first, and the exact count only if that does not suffice. */
    predicate HasRoomFor(client: nat, plan: seq<EntityHandle>) {
      || SatAdd(|records|, |plan|) <= maxEntries
      || SatAdd(|records|, MissingUpTo(client, plan, |plan|)) <= maxEntries
    }

    /** Records a sent plan, or refuses it as a whole. */
    function RecordPlanSent(client: nat, plan: seq<EntityHandle>): Option<Tracker> {
      if !HasRoomFor(client, plan) then None
      else Some(this.(
        records := records + (set handle | handle in plan :: TrackKey(client, handle)),
        sent := SatAdd(sent, |plan|)))
    }

    /** The tracker after the first `n` entities of a plan were acknowledged. */
    function AcknowledgeUpTo(client: nat, plan: seq<EntityHandle>, n: nat): Tracker
      requires n <= |plan|
    {
      if n == 0 then this
      else
        var before := AcknowledgeUpTo(client, plan, n - 1);
        if TrackKey(client, plan[n - 1]) in before.records then before.(acked := SatAdd(before.acked, 1))
        else before
    }

    function AcknowledgePlan(client: nat, plan: seq<EntityHandle>): Tracker {
      AcknowledgeUpTo(client, plan, |plan|)
    }
  }

  function KeysOf(client: nat, plan: seq<EntityHandle>): set<TrackKey> {
    set handle | handle in plan :: TrackKey(client, handle)
  }

  /** Recording a plan without repetitions is admitted exactly when the resulting records fit. */
  lemma RecordsExactlyWhatFits(tracker: Tracker, client: nat, plan: seq<EntityHandle>)
    requires Distinct(plan) && tracker.maxEntries < U64_MAX
    ensures tracker.RecordPlanSent(client, plan).Some?
            <==> |tracker.records + KeysOf(client, plan)| <= tracker.maxEntries
  {
    MissingIsGrowth(tracker, client, plan, |plan|);
    assert plan[..|plan|] == plan;
    KeysBounded(tracker.records, client, plan, |plan|);
  }

  lemma KeysStep(client: nat, plan: seq<EntityHandle>, n: nat)
    requires n < |plan|
    ensures KeysOf(client, plan[..n + 1]) == KeysOf(client, plan[..n]) + {TrackKey(client, plan[n])}
    ensures Distinct(plan) ==> TrackKey(client, plan[n]) !in KeysOf(client, plan[..n])
  {
    assert plan[..n + 1] == plan[..n] + [plan[n]];
  }

  lemma NoKeys(records: set<TrackKey>, client: nat, plan: seq<EntityHandle>)
    ensures records + KeysOf(client, plan[..0]) == records
  {
  }

  lemma {:induction false} MissingIsGrowth(tracker: Tracker, client: nat, plan: seq<EntityHandle>, n: nat)
    requires Distinct(plan) && n <= |plan|
    ensures Min(|tracker.records + KeysOf(client, plan[..n])| - |tracker.records|, U64_MAX)
            == tracker.MissingUpTo(client, plan, n)
    ensures |tracker.records| <= |tracker.records + KeysOf(client, plan[..n])|
  {
    hide KeysOf;
    if n == 0 {
      NoKeys(tracker.records, client, plan);
    } else {
      MissingIsGrowth(tracker, client, plan, n - 1);
      GrowthStep(tracker.records, client, plan, n - 1);
    }
  }

  lemma GrowthStep(records: set<TrackKey>, client: nat, plan: seq<EntityHandle>, n: nat)
    requires Distinct(plan) && n < |plan|
    ensures |records + KeysOf(client, plan[..n + 1])|
            == |records + KeysOf(client, plan[..n])| + if TrackKey(client, plan[n]) in records then 0 else 1
  {
    KeysStep(client, plan, n);
    var before := records + KeysOf(client, plan[..n]);
    hide KeysOf;
    InsertSize(before, TrackKey(client, plan[n]));
    assert records + KeysOf(client, plan[..n + 1]) == before + {TrackKey(client, plan[n])};
  }

  lemma {:induction false} KeysBounded(records: set<TrackKey>, client: nat, plan: seq<EntityHandle>, n: nat)
    requires Distinct(plan) && n <= |plan|
    ensures |records + KeysOf(client, plan[..n])| <= |records| + n
  {
    hide KeysOf, Distinct;
    if n == 0 {
      NoKeys(records, client, plan);
    } else {
      KeysBounded(records, client, plan, n - 1);
      GrowthStep(records, client, plan, n - 1);
    }
  }

  /** Every entity of a plan that was just recorded is acknowledged. */
  lemma {:induction false} RecordedPlanIsAcknowledged(tracker: Tracker, client: nat, plan: seq<EntityHandle>, n: nat)
    requires n <= |plan| && KeysOf(client, plan) <= tracker.records
    ensures tracker.AcknowledgeUpTo(client, plan, n) == tracker.(acked := SatAdd(tracker.acked, n))
  {
    if n > 0 {
      RecordedPlanIsAcknowledged(tracker, client, plan, n - 1);
      assert plan[n - 1] in plan;
      assert TrackKey(client, plan[n - 1]) in KeysOf(client, plan);
    }
  }
}
