/** Workload guards: whatever sizes are requested, the guarded sizes stay usable and their total
    work stays under the declared limit. */
module RetryGuard {
  import opened MachineInts

  const GUARD_MAX_PACKETS: nat := 2_000
  const GUARD_MAX_PAYLOAD_BYTES: nat := 4 * 1024
  const GUARD_MAX_CALLS_PER_TICK: nat := 25
  const GUARD_MAX_TICKS: nat := 10
  /** A reliable packet may be attempted 255 times, one of which is the first send. */
  const MAX_CALLS: nat := 254

  datatype Settings = Settings(packets: word, payloadBytes: word, callsPerTick: word, ticks: word)

  function Floored(requested: Settings): Settings {
    Settings(
      Max(requested.packets, 1), Max(requested.payloadBytes, 1),
      Max(requested.callsPerTick, 1), Max(requested.ticks, 1))
  }

  function Capped(settings: Settings): Settings {
    Settings(
      Min(settings.packets, GUARD_MAX_PACKETS), Min(settings.payloadBytes, GUARD_MAX_PAYLOAD_BYTES),
      Min(settings.callsPerTick, GUARD_MAX_CALLS_PER_TICK), Min(settings.ticks, GUARD_MAX_TICKS))
  }

  /** Lowers ticks first and calls per tick only if that was not enough. */
  function CallsLimited(settings: Settings): Settings
    requires settings.callsPerTick > 0
  {
    if SatMul(settings.callsPerTick, settings.ticks) <= MAX_CALLS then settings
    else
      var ticks := Max(DivCeil(MAX_CALLS, settings.callsPerTick), 1);
      if SatMul(settings.callsPerTick, ticks) > MAX_CALLS
      then settings.(ticks := ticks, callsPerTick := MAX_CALLS / ticks)
      else settings.(ticks := ticks)
  }

  function Normalized(requested: Settings, allowHeavy: bool): Settings {
    CallsLimited(if allowHeavy then Floored(requested) else Capped(Floored(requested)))
  }

  predicate WithinCaps(settings: Settings) {
    && settings.packets <= GUARD_MAX_PACKETS && settings.payloadBytes <= GUARD_MAX_PAYLOAD_BYTES
    && settings.callsPerTick <= GUARD_MAX_CALLS_PER_TICK && settings.ticks <= GUARD_MAX_TICKS
  }

  /** What a run may rely on. */
  predicate Usable(settings: Settings, allowHeavy: bool) {
    && settings.packets >= 1 && settings.payloadBytes >= 1
    && settings.callsPerTick >= 1 && settings.ticks >= 1
    && settings.callsPerTick * settings.ticks <= MAX_CALLS
    && (allowHeavy || WithinCaps(settings))
  }

  lemma CallsLimitedBounds(settings: Settings)
    requires settings.callsPerTick >= 1 && settings.ticks >= 1
    ensures var limited := CallsLimited(settings);
            && 1 <= limited.callsPerTick <= settings.callsPerTick
            && 1 <= limited.ticks <= settings.ticks
            && limited.callsPerTick * limited.ticks <= MAX_CALLS
  {
    var calls: nat, ticks: nat := settings.callsPerTick, settings.ticks;
    if SatMul(calls, ticks) > MAX_CALLS {
      var reduced := DivCeil(MAX_CALLS, calls);
      DivCeilCovers(MAX_CALLS, calls, 0);
      DivCeilCovers(MAX_CALLS, calls, ticks);
      DivCeilCovers(MAX_CALLS, calls, MAX_CALLS);
      ProductMonotone(1, calls, MAX_CALLS);
      assert ticks * calls == calls * ticks;
      DivFits(MAX_CALLS, reduced, 1);
      DivFits(MAX_CALLS, reduced, MAX_CALLS / reduced);
      DivFits(MAX_CALLS, reduced, calls);
    }
  }

  /** Calls and ticks are lowered no more than they have to be: the ticks are the fewest that can
      use all calls at the given rate, and the rate is the largest that then fits. */
  ghost predicate LoweredExactly(calls: nat, ticks: nat, limited: Settings) {
    if calls * ticks <= MAX_CALLS then limited.callsPerTick == calls && limited.ticks == ticks
    else
      && (limited.ticks - 1) * calls < MAX_CALLS <= limited.ticks * calls
      && limited.callsPerTick <= calls && limited.callsPerTick * limited.ticks <= MAX_CALLS
      && (limited.callsPerTick == calls || (limited.callsPerTick + 1) * limited.ticks > MAX_CALLS)
  }

  lemma LimitedExactly(settings: Settings)
    requires settings.callsPerTick >= 1 && settings.ticks >= 1
    ensures LoweredExactly(settings.callsPerTick, settings.ticks, CallsLimited(settings))
  {
    CallsLimitedBounds(settings);
    var calls: nat := settings.callsPerTick;
    if SatMul(calls, settings.ticks) > MAX_CALLS {
      var reduced := DivCeil(MAX_CALLS, calls);
      DivCeilCovers(MAX_CALLS, calls, reduced);
      DivCeilCovers(MAX_CALLS, calls, 0);
      DivCeilCovers(MAX_CALLS, calls, reduced - 1);
      DivFits(MAX_CALLS, reduced, MAX_CALLS / reduced + 1);
    }
  }

  /** The normalized sizes, exactly: packets and payload are only moved to the nearest bound, and so
      are rate and ticks before both are lowered to fit the attempts. */
  lemma NormalizedExactly(requested: Settings, allowHeavy: bool)
    ensures var settings := Normalized(requested, allowHeavy);
            && settings.packets == Clamped(requested.packets, GUARD_MAX_PACKETS, allowHeavy)
            && settings.payloadBytes == Clamped(requested.payloadBytes, GUARD_MAX_PAYLOAD_BYTES, allowHeavy)
            && LoweredExactly(
                 Clamped(requested.callsPerTick, GUARD_MAX_CALLS_PER_TICK, allowHeavy),
                 Clamped(requested.ticks, GUARD_MAX_TICKS, allowHeavy), settings)
  {
    hide LoweredExactly;
    var settings := if allowHeavy then Floored(requested) else Capped(Floored(requested));
    LimitedExactly(settings);
  }

  /** For every request the guard returns usable sizes, never above the request. */
  lemma NormalizedIsUsable(requested: Settings, allowHeavy: bool)
    ensures var settings := Normalized(requested, allowHeavy);
            && Usable(settings, allowHeavy)
            && settings.callsPerTick <= Max(requested.callsPerTick, 1)
            && settings.ticks <= Max(requested.ticks, 1)
            && settings.packets <= Max(requested.packets, 1)
            && settings.payloadBytes <= Max(requested.payloadBytes, 1)
  {
    CallsLimitedBounds(if allowHeavy then Floored(requested) else Capped(Floored(requested)));
  }

  /** The guard changes a request exactly when the request is not usable as it is; in
      particular it is idempotent. */
  lemma NormalizedChangesOnlyUnusable(requested: Settings, allowHeavy: bool)
    ensures Normalized(requested, allowHeavy) == requested <==> Usable(requested, allowHeavy)
    ensures Normalized(Normalized(requested, allowHeavy), allowHeavy) == Normalized(requested, allowHeavy)
  {
    NormalizedIsUsable(requested, allowHeavy);
    UsableIsKept(requested, allowHeavy);
    UsableIsKept(Normalized(requested, allowHeavy), allowHeavy);
  }

  lemma UsableIsKept(settings: Settings, allowHeavy: bool)
    ensures Usable(settings, allowHeavy) ==> Normalized(settings, allowHeavy) == settings
  {
  }

  lemma QuotientsFit(x: nat)
    requires x >= 1
    ensures DivCeil(MAX_CALLS, x) <= MAX_CALLS && MAX_CALLS / x <= MAX_CALLS
  {
    ProductMonotone(1, x, MAX_CALLS);
    ProductMonotone(1, x, MAX_CALLS + 1);
    DivCeilCovers(MAX_CALLS, x, MAX_CALLS);
    DivFits(MAX_CALLS, x, MAX_CALLS + 1);
  }

  class Config {
    var packets: word
    var payloadBytes: word
    var callsPerTick: word
    var ticks: word
    const allowHeavy: bool
    var guardApplied: bool

    constructor (requested: Settings, allowHeavy: bool)
      ensures Current() == requested && this.allowHeavy == allowHeavy
    {
      packets, payloadBytes := requested.packets, requested.payloadBytes;
      callsPerTick, ticks := requested.callsPerTick, requested.ticks;
      this.allowHeavy, guardApplied := allowHeavy, false;
    }

    function Current(): Settings
      reads this
    {
      Settings(packets, payloadBytes, callsPerTick, ticks)
    }

    /** Lowers ticks, and calls per tick if that was not enough. */
    method LimitCalls()
      requires callsPerTick >= 1
      modifies `callsPerTick, `ticks
      ensures Current() == CallsLimited(old(Current()))
    {
      hide SatMul, DivCeil;
      if SatMul(callsPerTick, ticks) > MAX_CALLS {
        QuotientsFit(callsPerTick);
        ticks := Max(DivCeil(MAX_CALLS, callsPerTick), 1);
        if SatMul(callsPerTick, ticks) > MAX_CALLS {
          QuotientsFit(ticks);
          callsPerTick := MAX_CALLS / ticks;
        }
      }
    }

    method Normalize()
      modifies this
      ensures Current() == Normalized(old(Current()), allowHeavy)
      ensures Usable(Current(), allowHeavy)
      ensures guardApplied <==> !Usable(old(Current()), allowHeavy)
    {
      hide Usable, CallsLimited;
      var requested := Current();
      packets := Max(packets, 1);
      payloadBytes := Max(payloadBytes, 1);
      callsPerTick := Max(callsPerTick, 1);
      ticks := Max(ticks, 1);
      if !allowHeavy {
        packets := Min(packets, GUARD_MAX_PACKETS);
        payloadBytes := Min(payloadBytes, GUARD_MAX_PAYLOAD_BYTES);
        callsPerTick := Min(callsPerTick, GUARD_MAX_CALLS_PER_TICK);
        ticks := Min(ticks, GUARD_MAX_TICKS);
      }
      LimitCalls();
      NormalizedIsUsable(requested, allowHeavy);
      NormalizedChangesOnlyUnusable(requested, allowHeavy);
      guardApplied := packets != requested.packets || payloadBytes != requested.payloadBytes
        || callsPerTick != requested.callsPerTick || ticks != requested.ticks;
    }
  }
}

module DecodeGuard {
  import opened MachineInts

  const GUARD_MAX_FRAMES_PER_TICK: nat := 500
  const GUARD_MAX_ENTITIES: nat := 256
  const GUARD_MAX_COMPONENTS: nat := 8
  const GUARD_MAX_PAYLOAD_BYTES: nat := 1_024
  const GUARD_MAX_TICKS: nat := 20
  const GUARD_MAX_TOTAL_PAYLOAD_BYTES: nat := 64 * 1_024 * 1_024

  datatype Settings = Settings(
    framesPerTick: word, entities: word, components: word, payloadBytes: word, ticks: word)

  function PayloadPerFrame(settings: Settings): nat {
    settings.entities * settings.components * settings.payloadBytes
  }

  /** Payload bytes a whole run decodes. */
  function TotalPayload(settings: Settings): nat {
    PayloadPerFrame(settings) * (settings.framesPerTick * settings.ticks)
  }

  predicate WithinCaps(settings: Settings) {
    && settings.framesPerTick <= GUARD_MAX_FRAMES_PER_TICK
    && 1 <= settings.entities <= GUARD_MAX_ENTITIES
    && 1 <= settings.components <= GUARD_MAX_COMPONENTS
    && 1 <= settings.payloadBytes <= GUARD_MAX_PAYLOAD_BYTES
    && 1 <= settings.ticks <= GUARD_MAX_TICKS
  }

  lemma FrameBound(settings: Settings)
    requires WithinCaps(settings)
    ensures 1 <= PayloadPerFrame(settings)
            <= GUARD_MAX_ENTITIES * GUARD_MAX_COMPONENTS * GUARD_MAX_PAYLOAD_BYTES
  {
    var pairs := settings.entities * settings.components;
    ProductMonotone(settings.entities, GUARD_MAX_ENTITIES, settings.components);
    ProductMonotone(1, settings.entities, settings.components);
    ProductMonotone(pairs, GUARD_MAX_ENTITIES * GUARD_MAX_COMPONENTS, settings.payloadBytes);
    ProductMonotone(1, pairs, settings.payloadBytes);
  }

  function Floored(settings: Settings): Settings {
    Settings(
      Max(settings.framesPerTick, 1), Max(settings.entities, 1), Max(settings.components, 1),
      Max(settings.payloadBytes, 1), Max(settings.ticks, 1))
  }

  function Capped(settings: Settings): Settings {
    Settings(
      Min(settings.framesPerTick, GUARD_MAX_FRAMES_PER_TICK), Min(settings.entities, GUARD_MAX_ENTITIES),
      Min(settings.components, GUARD_MAX_COMPONENTS), Min(settings.payloadBytes, GUARD_MAX_PAYLOAD_BYTES),
      Min(settings.ticks, GUARD_MAX_TICKS))
  }

  function CheckedDiv(x: nat, y: nat): nat { if y == 0 then 0 else x / y }

  /** Frames per tick that the payload total leaves room for, and never less than one. */
  function FrameLimit(settings: Settings): nat {
    var payloadPerFrame := SatMul(SatMul(settings.entities, settings.components), settings.payloadBytes);
    var maxFrames := Max(CheckedDiv(GUARD_MAX_TOTAL_PAYLOAD_BYTES, payloadPerFrame), 1);
    Max(CheckedDiv(maxFrames, settings.ticks), 1)
  }

  function Normalized(requested: Settings, allowHeavy: bool): Settings {
    if allowHeavy then Floored(requested)
    else
      var capped := Capped(Floored(requested));
      capped.(framesPerTick := Min(capped.framesPerTick, FrameLimit(capped)))
  }

  lemma FrameLimitIsQuotient(settings: Settings)
    requires WithinCaps(settings)
    ensures 1 <= PayloadPerFrame(settings)
    ensures var maxFrames := GUARD_MAX_TOTAL_PAYLOAD_BYTES / PayloadPerFrame(settings);
            FrameLimit(settings) == maxFrames / settings.ticks >= 1
  {
    FrameBound(settings);
    PairBound(settings);
    var perFrame := PayloadPerFrame(settings);
    ProductMonotone(perFrame, GUARD_MAX_ENTITIES * GUARD_MAX_COMPONENTS * GUARD_MAX_PAYLOAD_BYTES, 32);
    DivFits(GUARD_MAX_TOTAL_PAYLOAD_BYTES, perFrame, 32);
    DivFits(GUARD_MAX_TOTAL_PAYLOAD_BYTES / perFrame, settings.ticks, 1);
  }

  /** The limit is exact: within the caps a number of frames per tick is at most the limit if and
      only if the whole run stays within the payload total. So neither the saturating products
      nor the fallbacks to one frame ever matter. */
  lemma FrameLimitExact(settings: Settings, frames: word)
    requires WithinCaps(settings)
    ensures frames <= FrameLimit(settings)
            <==> TotalPayload(settings.(framesPerTick := frames)) <= GUARD_MAX_TOTAL_PAYLOAD_BYTES
  {
    hide FrameLimit, PayloadPerFrame, WithinCaps;
    FrameLimitIsQuotient(settings);
    var perFrame := PayloadPerFrame(settings);
    assert PayloadPerFrame(settings.(framesPerTick := frames)) == perFrame by {
      SamePayload(settings, frames);
    }
    TicksPositive(settings);
    DivFits(GUARD_MAX_TOTAL_PAYLOAD_BYTES / perFrame, settings.ticks, frames);
    DivFits(GUARD_MAX_TOTAL_PAYLOAD_BYTES, perFrame, frames * settings.ticks);
    assert frames * settings.ticks * perFrame == perFrame * (frames * settings.ticks);
  }

  lemma SamePayload(settings: Settings, frames: word)
    ensures PayloadPerFrame(settings.(framesPerTick := frames)) == PayloadPerFrame(settings)
  {
  }

  lemma TicksPositive(settings: Settings)
    requires WithinCaps(settings)
    ensures settings.ticks > 0
  {
  }

  /** Every size but the number of frames moves to its nearest bound only. A normalized run decodes at
      most the declared total, and one frame per tick more would not
      fit unless the request or its cap was the reason to stop. */
  lemma NormalizedFits(requested: Settings)
    ensures var settings := Normalized(requested, false);
            && WithinCaps(settings) && settings.framesPerTick >= 1
            && settings.entities == Clamped(requested.entities, GUARD_MAX_ENTITIES, false)
            && settings.components == Clamped(requested.components, GUARD_MAX_COMPONENTS, false)
            && settings.payloadBytes == Clamped(requested.payloadBytes, GUARD_MAX_PAYLOAD_BYTES, false)
            && settings.ticks == Clamped(requested.ticks, GUARD_MAX_TICKS, false)
            && TotalPayload(settings) <= GUARD_MAX_TOTAL_PAYLOAD_BYTES
            && (settings.framesPerTick == Min(Max(requested.framesPerTick, 1), GUARD_MAX_FRAMES_PER_TICK)
                || TotalPayload(settings.(framesPerTick := settings.framesPerTick + 1))
                   > GUARD_MAX_TOTAL_PAYLOAD_BYTES)
  {
    hide FrameLimit, TotalPayload, PayloadPerFrame;
    var capped := Capped(Floored(requested));
    FrameLimitIsQuotient(capped);
    var settings := Normalized(requested, false);
    FrameLimitExact(capped, settings.framesPerTick);
    FrameLimitExact(capped, settings.framesPerTick + 1);
  }

  /** What a run may rely on. */
  predicate Usable(settings: Settings, allowHeavy: bool) {
    && settings.framesPerTick >= 1 && settings.entities >= 1 && settings.components >= 1
    && settings.payloadBytes >= 1 && settings.ticks >= 1
    && (allowHeavy || (WithinCaps(settings) && TotalPayload(settings) <= GUARD_MAX_TOTAL_PAYLOAD_BYTES))
  }

  /** The guard returns usable sizes, and changes exactly the requests that are not usable. */
  lemma NormalizedChangesOnlyUnusable(requested: Settings, allowHeavy: bool)
    ensures Usable(Normalized(requested, allowHeavy), allowHeavy)
    ensures Normalized(requested, allowHeavy) == requested <==> Usable(requested, allowHeavy)
  {
    hide FrameLimit, TotalPayload, PayloadPerFrame;
    if !allowHeavy {
      NormalizedFits(requested);
      if Usable(requested, false) {
        FrameLimitExact(requested, requested.framesPerTick);
        assert Capped(Floored(requested)) == requested;
      }
    }
  }

  /** Normalizing twice changes nothing more. */
  lemma NormalizedTwice(requested: Settings, allowHeavy: bool)
    ensures Normalized(Normalized(requested, allowHeavy), allowHeavy) == Normalized(requested, allowHeavy)
  {
    if !allowHeavy {
      NormalizedFits(requested);
      SameLimit(Capped(Floored(requested)), Normalized(requested, false).framesPerTick);
    }
  }

  lemma SameLimit(settings: Settings, frames: word)
    ensures FrameLimit(settings.(framesPerTick := frames)) == FrameLimit(settings)
  {
  }

  class Config {
    var framesPerTick: word
    var entities: word
    var components: word
    var payloadBytes: word
    var ticks: word
    const allowHeavy: bool
    var guardApplied: bool

    constructor (requested: Settings, allowHeavy: bool)
      ensures Current() == requested && this.allowHeavy == allowHeavy
    {
      framesPerTick, entities := requested.framesPerTick, requested.entities;
      components, payloadBytes := requested.components, requested.payloadBytes;
      ticks, this.allowHeavy, guardApplied := requested.ticks, allowHeavy, false;
    }

    function Current(): Settings
      reads this
    {
      Settings(framesPerTick, entities, components, payloadBytes, ticks)
    }

    method Normalize()
      modifies this
      ensures Current() == Normalized(old(Current()), allowHeavy)
      ensures Usable(Current(), allowHeavy)
      ensures guardApplied <==> !Usable(old(Current()), allowHeavy)
    {
      hide Usable;
      var requested := Current();
      NormalizedChangesOnlyUnusable(requested, allowHeavy);
      framesPerTick := Max(framesPerTick, 1);
      entities := Max(entities, 1);
      components := Max(components, 1);
      payloadBytes := Max(payloadBytes, 1);
      ticks := Max(ticks, 1);
      if !allowHeavy {
        framesPerTick := Min(framesPerTick, GUARD_MAX_FRAMES_PER_TICK);
        entities := Min(entities, GUARD_MAX_ENTITIES);
        components := Min(components, GUARD_MAX_COMPONENTS);
        payloadBytes := Min(payloadBytes, GUARD_MAX_PAYLOAD_BYTES);
        ticks := Min(ticks, GUARD_MAX_TICKS);
        var payloadPerFrame := SatMul(SatMul(entities, components), payloadBytes);
        var maxFrames := Max(CheckedDiv(GUARD_MAX_TOTAL_PAYLOAD_BYTES, payloadPerFrame), 1);
        framesPerTick := Min(framesPerTick, Max(CheckedDiv(maxFrames, ticks), 1));
      }
      guardApplied := framesPerTick != requested.framesPerTick || entities != requested.entities
        || components != requested.components || payloadBytes != requested.payloadBytes
        || ticks != requested.ticks;
    }
  }

  lemma PairBound(settings: Settings)
    requires WithinCaps(settings)
    ensures 1 <= settings.entities * settings.components <= GUARD_MAX_ENTITIES * GUARD_MAX_COMPONENTS
  {
    ProductMonotone(settings.entities, GUARD_MAX_ENTITIES, settings.components);
    ProductMonotone(1, settings.entities, settings.components);
  }
}

module BatchScan {
  import opened MachineInts
  import opened Options

  const GUARD_MAX_PACKETS: nat := 200_000
  const GUARD_MAX_PAYLOAD_BYTES: nat := 1_024
  const GUARD_MAX_TICKS: nat := 20
  const GUARD_MAX_INSPECTIONS: nat := 4_000_000
  const GUARD_MAX_PAYLOAD_WORK: nat := 64 * 1024 * 1024

  datatype ScanResult = ScanResult(bytes: word, firstOversized: Option<word>, inspections: word)

  function Sum(sizes: seq<word>): nat {
    if sizes == [] then 0 else Sum(sizes[..|sizes| - 1]) + sizes[|sizes| - 1]
  }

  /** `first` is the size of the first packet over the budget, if there is one. */
  ghost predicate IsFirstOversized(sizes: seq<word>, budget: word, first: Option<word>) {
    match first
    case None => forall i | 0 <= i < |sizes| :: sizes[i] <= budget
    case Some(size) =>
      exists i :: 0 <= i < |sizes| && sizes[i] == size > budget
                  && forall j | 0 <= j < i :: sizes[j] <= budget
  }

  lemma FirstOversizedUnique(sizes: seq<word>, budget: word, a: Option<word>, b: Option<word>)
    requires IsFirstOversized(sizes, budget, a) && IsFirstOversized(sizes, budget, b)
    ensures a == b
  {
  }

  /** One pass: total and first oversized packet together. */
  method SingleScan(sizes: seq<word>, budget: word) returns (result: ScanResult)
    requires |sizes| <= U64_MAX
    ensures result.bytes == Min(Sum(sizes), U64_MAX)
    ensures IsFirstOversized(sizes, budget, result.firstOversized)
    ensures result.inspections == |sizes|
  {
    var bytes: word := 0;
    var first: Option<word> := None;
    for i := 0 to |sizes|
      invariant bytes == Min(Sum(sizes[..i]), U64_MAX)
      invariant IsFirstOversized(sizes[..i], budget, first)
    {
      assert sizes[..i + 1][..i] == sizes[..i];
      bytes := SatAdd(bytes, sizes[i]);
      if first.None? && sizes[i] > budget {
        first := Some(sizes[i]);
        assert sizes[..i + 1][i] > budget;
      } else if first.Some? {
        var k :| 0 <= k < i && sizes[..i][k] == first.value > budget
                 && forall j | 0 <= j < k :: sizes[..i][j] <= budget;
        assert sizes[..i + 1][k] == first.value;
      }
    }
    assert sizes[..|sizes|] == sizes;
    result := ScanResult(bytes, first, |sizes|);
  }

  function FoldBytes(sizes: seq<word>, bytes: word): word {
    if sizes == [] then bytes else FoldBytes(sizes[1..], SatAdd(bytes, sizes[0]))
  }

  function FindOversized(sizes: seq<word>, budget: word): Option<word> {
    if sizes == [] then None
    else if sizes[0] > budget then Some(sizes[0])
    else FindOversized(sizes[1..], budget)
  }

  /** Two passes: a saturating fold, then a search. */
  function DoubleScan(sizes: seq<word>, budget: word): ScanResult {
    ScanResult(FoldBytes(sizes, 0), FindOversized(sizes, budget), SatMul(|sizes|, 2))
  }

  lemma {:induction false} SumFront(sizes: seq<word>)
    requires sizes != []
    ensures Sum(sizes) == sizes[0] + Sum(sizes[1..])
  {
    if |sizes| > 1 {
      SumFront(sizes[..|sizes| - 1]);
      assert sizes[..|sizes| - 1][1..] == sizes[1..][..|sizes| - 2];
    }
  }

  lemma {:induction false} FoldBytesIsSum(sizes: seq<word>, bytes: word)
    ensures FoldBytes(sizes, bytes) == Min(bytes + Sum(sizes), U64_MAX)
  {
    if sizes != [] {
      FoldBytesIsSum(sizes[1..], SatAdd(bytes, sizes[0]));
      SumFront(sizes);
    }
  }

  lemma {:induction false} FindOversizedIsFirst(sizes: seq<word>, budget: word)
    ensures IsFirstOversized(sizes, budget, FindOversized(sizes, budget))
  {
    if sizes != [] && sizes[0] <= budget {
      var tail := sizes[1..];
      FindOversizedIsFirst(tail, budget);
      match FindOversized(tail, budget) {
        case None =>
          forall i | 0 <= i < |sizes| ensures sizes[i] <= budget {
            if i > 0 {
              assert tail[i - 1] <= budget;
            }
          }
        case Some(size) =>
          var k :| 0 <= k < |tail| && tail[k] == size > budget
                   && forall j | 0 <= j < k :: tail[j] <= budget;
          forall j | 0 <= j < k + 1 ensures sizes[j] <= budget {
            if j > 0 {
              assert tail[j - 1] <= budget;
            }
          }
          assert sizes[k + 1] == size;
      }
    }
  }

  /** The one-pass scan refines the two-pass scan: for every batch and budget a result that
      meets its contract has the same total and the same first oversized packet, at half the
      inspections. */
  lemma ScansAgree(sizes: seq<word>, budget: word, single: ScanResult)
    requires |sizes| <= U64_MAX
    requires single.bytes == Min(Sum(sizes), U64_MAX) && single.inspections == |sizes|
    requires IsFirstOversized(sizes, budget, single.firstOversized)
    ensures DoubleScan(sizes, budget)
            == single.(inspections := SatAdd(single.inspections, single.inspections))
  {
    FoldBytesIsSum(sizes, 0);
    FindOversizedIsFirst(sizes, budget);
    FirstOversizedUnique(sizes, budget, single.firstOversized, FindOversized(sizes, budget));
  }

  /** Packets inspected over a run. */
  function Inspections(packets: nat, ticks: nat, doubleScan: bool): nat {
    if doubleScan then packets * ticks * 2 else packets * ticks
  }

  /** The sizes the guard leaves alone. */
  predicate Usable(packets: nat, payloadBytes: nat, ticks: nat, doubleScan: bool, allowHeavy: bool) {
    && packets >= 1 && payloadBytes >= 1 && ticks >= 1
    && (allowHeavy
        || (&& packets <= GUARD_MAX_PACKETS && payloadBytes <= GUARD_MAX_PAYLOAD_BYTES
            && ticks <= GUARD_MAX_TICKS
            && Inspections(packets, ticks, doubleScan) <= GUARD_MAX_INSPECTIONS
            && packets * payloadBytes <= GUARD_MAX_PAYLOAD_WORK))
  }

  /** The guard of the batch scan: inspections and payload stay under both totals in spite of
      the fallbacks to one, and a size is only lowered to the largest value that fits. */
  method GuardScan(requestedPackets: word, requestedPayload: word, requestedTicks: word, doubleScan: bool,
      allowHeavy: bool)
    returns (packets: word, payloadBytes: word, ticks: word, guardApplied: bool)
    ensures Usable(packets, payloadBytes, ticks, doubleScan, allowHeavy)
    ensures guardApplied
            <==> !Usable(requestedPackets, requestedPayload, requestedTicks, doubleScan, allowHeavy)
    ensures !guardApplied ==>
              packets == requestedPackets && payloadBytes == requestedPayload && ticks == requestedTicks
    ensures packets <= Max(requestedPackets, 1) && payloadBytes <= Max(requestedPayload, 1)
    ensures ticks == if allowHeavy then Max(requestedTicks, 1) else Min(Max(requestedTicks, 1), GUARD_MAX_TICKS)
    ensures allowHeavy ==> packets == Max(requestedPackets, 1) && payloadBytes == Max(requestedPayload, 1)
    ensures !allowHeavy && packets < Min(Max(requestedPackets, 1), GUARD_MAX_PACKETS) ==>
              Inspections(packets + 1, ticks, doubleScan) > GUARD_MAX_INSPECTIONS
    ensures !allowHeavy && payloadBytes < Min(Max(requestedPayload, 1), GUARD_MAX_PAYLOAD_BYTES) ==>
              packets * (payloadBytes + 1) > GUARD_MAX_PAYLOAD_WORK
  {
    packets := Max(requestedPackets, 1);
    payloadBytes := Max(requestedPayload, 1);
    ticks := Max(requestedTicks, 1);
    if !allowHeavy {
      packets := Min(packets, GUARD_MAX_PACKETS);
      payloadBytes := Min(payloadBytes, GUARD_MAX_PAYLOAD_BYTES);
      ticks := Min(ticks, GUARD_MAX_TICKS);
      packets := LimitInspections(packets, ticks, doubleScan);
      payloadBytes := LimitPayload(packets, payloadBytes);
    }
    guardApplied := requestedPackets != packets || requestedPayload != payloadBytes || requestedTicks != ticks;
  }

  method LimitInspections(requested: word, ticks: word, doubleScan: bool) returns (packets: word)
    requires 1 <= requested <= GUARD_MAX_PACKETS && 1 <= ticks <= GUARD_MAX_TICKS
    ensures 1 <= packets <= requested && Inspections(packets, ticks, doubleScan) <= GUARD_MAX_INSPECTIONS
    ensures packets == requested <==> Inspections(requested, ticks, doubleScan) <= GUARD_MAX_INSPECTIONS
    ensures packets < requested ==> Inspections(packets + 1, ticks, doubleScan) > GUARD_MAX_INSPECTIONS
  {
    packets := requested;
    var scanMultiplier := if doubleScan then 2 else 1;
    InspectionsFit(packets, ticks, doubleScan);
    if SatMul(SatMul(packets, ticks), scanMultiplier) > GUARD_MAX_INSPECTIONS {
      packets := Max(GUARD_MAX_INSPECTIONS / ticks / scanMultiplier, 1);
    }
  }

  method LimitPayload(packets: word, requested: word) returns (payloadBytes: word)
    requires 1 <= packets <= GUARD_MAX_PACKETS && 1 <= requested <= GUARD_MAX_PAYLOAD_BYTES
    ensures 1 <= payloadBytes <= requested && packets * payloadBytes <= GUARD_MAX_PAYLOAD_WORK
    ensures payloadBytes == requested <==> packets * requested <= GUARD_MAX_PAYLOAD_WORK
    ensures payloadBytes < requested ==> packets * (payloadBytes + 1) > GUARD_MAX_PAYLOAD_WORK
  {
    payloadBytes := requested;
    PayloadFits(packets, payloadBytes);
    if SatMul(packets, payloadBytes) > GUARD_MAX_PAYLOAD_WORK {
      payloadBytes := Max(GUARD_MAX_PAYLOAD_WORK / packets, 1);
    }
  }

  lemma InspectionsFit(packets: nat, ticks: nat, doubleScan: bool)
    requires packets <= GUARD_MAX_PACKETS && 1 <= ticks <= GUARD_MAX_TICKS
    ensures packets * ticks * 2 <= U64_MAX
    ensures var fit := GUARD_MAX_INSPECTIONS / ticks / if doubleScan then 2 else 1;
            && fit >= 1 && Inspections(fit, ticks, doubleScan) <= GUARD_MAX_INSPECTIONS
            && Inspections(fit + 1, ticks, doubleScan) > GUARD_MAX_INSPECTIONS
            && (Inspections(packets, ticks, doubleScan) > GUARD_MAX_INSPECTIONS ==> fit < packets)
  {
    ProductMonotone(packets, GUARD_MAX_PACKETS, ticks);
    var scans := if doubleScan then 2 else 1;
    var fit := GUARD_MAX_INSPECTIONS / ticks / scans;
    ScansWithin(1, ticks, scans);
    ScansWithin(fit, ticks, scans);
    ScansWithin(fit + 1, ticks, scans);
    ScansWithin(packets, ticks, scans);
  }

  lemma ScansWithin(packets: nat, ticks: nat, scans: nat)
    requires 1 <= ticks && 1 <= scans
    ensures packets <= GUARD_MAX_INSPECTIONS / ticks / scans
            <==> packets * ticks * scans <= GUARD_MAX_INSPECTIONS
  {
    DivFits(GUARD_MAX_INSPECTIONS / ticks, scans, packets);
    DivFits(GUARD_MAX_INSPECTIONS, ticks, packets * scans);
    assert packets * scans * ticks == packets * ticks * scans;
  }

  lemma PayloadFits(packets: nat, payloadBytes: nat)
    requires 1 <= packets <= GUARD_MAX_PACKETS && payloadBytes <= GUARD_MAX_PAYLOAD_BYTES
    ensures packets * payloadBytes <= U64_MAX
    ensures var fit := GUARD_MAX_PAYLOAD_WORK / packets;
            && fit >= 1 && packets * fit <= GUARD_MAX_PAYLOAD_WORK < packets * (fit + 1)
            && (packets * payloadBytes > GUARD_MAX_PAYLOAD_WORK ==> fit < payloadBytes)
  {
    ProductMonotone(packets, GUARD_MAX_PACKETS, payloadBytes);
    LargestFactor(GUARD_MAX_PAYLOAD_WORK, packets, payloadBytes);
  }
}
