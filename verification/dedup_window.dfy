/** Bounded duplicate suppression: a set index beside the order in which keys were accepted. */
module DedupWindow {
  import opened Collections
  import opened MachineInts
  import opened RoundRobin

  /** The last `window` elements, or all of them when there are fewer. */
  function LastOf<K>(s: seq<K>, window: nat): seq<K> {
    if |s| <= window then s else s[|s| - window..]
  }

  /** The accepted keys after one more key is offered. */
  function Offered<K(==)>(accepted: seq<K>, window: nat, key: K): seq<K> {
    if key in LastOf(accepted, window) then accepted else accepted + [key]
  }

  /** The accepted keys after a whole stream. */
  function AcceptedFrom<K(==)>(start: seq<K>, window: nat, stream: seq<K>): seq<K> {
    if stream == [] then start
    else Offered(AcceptedFrom(start, window, stream[..|stream| - 1]), window, stream[|stream| - 1])
  }

  /** Equal accepted keys are more than `window` accepted keys apart. */
  ghost predicate Spaced<K>(accepted: seq<K>, window: nat) {
    forall i, j | 0 <= i < j < |accepted| && j - i <= window :: accepted[i] != accepted[j]
  }

  lemma OfferedStaysSpaced<K>(accepted: seq<K>, window: nat, key: K)
    requires Spaced(accepted, window)
    ensures Spaced(Offered(accepted, window, key), window)
  {
    var after := Offered(accepted, window, key);
    if after != accepted {
      forall i | 0 <= i < |accepted| && |accepted| - i <= window ensures accepted[i] != key {
        var recent := LastOf(accepted, window);
        assert recent[i - (|accepted| - |recent|)] == accepted[i];
      }
    }
  }

  /** Over any key stream, a key is accepted again only after more than `window` other
      acceptances; what was accepted stays, nothing but offered keys is added, and a key that was
      just offered is among the last `window` accepted ones. */
  lemma {:induction false} StreamStaysSpaced<K>(start: seq<K>, window: nat, stream: seq<K>)
    requires Spaced(start, window)
    ensures var accepted := AcceptedFrom(start, window, stream);
            && Spaced(accepted, window) && start <= accepted
            && (forall key | key in accepted[|start|..] :: key in stream)
            && (window > 0 && stream != [] ==> stream[|stream| - 1] in LastOf(accepted, window))
  {
    if stream != [] {
      var front, last := stream[..|stream| - 1], stream[|stream| - 1];
      StreamStaysSpaced(start, window, front);
      var before := AcceptedFrom(start, window, front);
      OfferedStaysSpaced(before, window, last);
      if last !in LastOf(before, window) {
        assert (before + [last])[|start|..] == before[|start|..] + [last];
        var recent := LastOf(before + [last], window);
        assert window > 0 ==> recent[|recent| - 1] == last;
      }
    }
  }

  lemma SpacedWindowDistinct<K>(accepted: seq<K>, window: nat)
    requires Spaced(accepted, window)
    ensures Distinct(LastOf(accepted, window))
  {
  }

  class Window<K(==)> {
    const window: nat
    var index: set<K>
    var order: seq<K>
    ghost var accepted: seq<K>

    /** The index is the set of the ordered keys, and the order is the last `window` accepted
        keys, which are all distinct. */
    ghost predicate Valid()
      reads this
    {
      && index == (set key | key in order)
      && order == LastOf(accepted, window)
      && Spaced(accepted, window)
    }

    constructor (window: nat, filled: seq<K>)
      requires |filled| <= window && Distinct(filled)
      ensures Valid() && this.window == window && accepted == order == filled
    {
      this.window := window;
      index := set key | key in filled;
      order, accepted := filled, filled;
    }

    /** A key is a duplicate exactly when it is among the last `window` accepted ones. */
    method Offer(key: K) returns (duplicate: bool)
      requires Valid()
      modifies this
      ensures Valid()
      ensures duplicate <==> key in LastOf(old(accepted), window)
      ensures accepted == Offered(old(accepted), window, key)
    {
      OfferedStaysSpaced(accepted, window, key);
      duplicate := key in index;
      if !duplicate {
        index := index + {key};
        order := order + [key];
        accepted := accepted + [key];
        Evict();
      }
    }

    /** Drops the oldest keys until the window holds. */
    method Evict()
      requires index == (set key | key in order)
      requires Distinct(order)
      requires |order| <= |accepted| && order == accepted[|accepted| - |order|..]
      modifies this`index, this`order
      ensures index == (set key | key in order)
      ensures order == LastOf(old(order), window)
    {
      ghost var start, dropped := order, 0;
      while |order| > window
        invariant dropped <= |start| && order == start[dropped..]
        invariant |order| >= Min(window, |start|) && Distinct(order)
        invariant index == (set key | key in order)
      {
        var oldest, rest := order[0], order[1..];
        DropOldest(order);
        DropMore(start, dropped);
        order, dropped := rest, dropped + 1;
        index := index - {oldest};
      }
    }

    method RetainedLen() returns (retained: nat)
      requires Valid()
      ensures retained == Min(window, |accepted|)
    {
      SpacedWindowDistinct(accepted, window);
      DistinctSetSize(order);
      retained := |index|;
    }
  }

  lemma DropMore<K>(s: seq<K>, n: nat)
    requires n < |s|
    ensures s[n..][1..] == s[n + 1..]
  {
  }

  lemma DropOldest<K>(s: seq<K>)
    requires Distinct(s) && s != []
    ensures Distinct(s[1..])
    ensures (set key | key in s[1..]) == (set key | key in s) - {s[0]}
  {
    assert s == [s[0]] + s[1..];
    assert s[0] !in s[1..];
  }

  lemma {:induction false} DistinctSetSize<K>(s: seq<K>)
    requires Distinct(s)
    ensures |set key | key in s| == |s|
  {
    if s != [] {
      var front, last := s[..|s| - 1], s[|s| - 1];
      DistinctSetSize(front);
      assert s == front + [last];
      assert (set key | key in s) == (set key | key in front) + {last};
    }
  }

  /** The nonces `lo..hi` in order. */
  function Interval(lo: nat, hi: nat): seq<nat>
    requires lo <= hi
  {
    seq(hi - lo, i requires i >= 0 => lo + i)
  }

  datatype Config = Config(window: nat, operationsPerTick: nat, ticks: nat)

  // ----- the generated stream -----

  /** The keys accepted so far, and the next fresh nonce. */
  datatype Stage = Stage(accepted: seq<nat>, next: word)

  /** The key generated by one operation: every fourth is fresh, the others look back. */
  function GeneratedKey(operation: nat, window: nat, next: word): nat
    requires window > 0
  {
    if operation % 4 == 0 then next else SatSub(SatSub(next, 1), operation % window)
  }

  function Operate(stage: Stage, window: nat, operation: nat): Stage
    requires window > 0
  {
    Stage(
      Offered(stage.accepted, window, GeneratedKey(operation, window, stage.next)),
      if operation % 4 == 0 then SatAdd(stage.next, 1) else stage.next)
  }

  /** The first `n` operations of a tick. */
  function TickUpTo(stage: Stage, window: nat, n: nat): Stage
    requires window > 0
  {
    if n == 0 then stage else Operate(TickUpTo(stage, window, n - 1), window, n - 1)
  }

  /** The first `n` ticks of a run, which starts with a full window. */
  function RunUpTo(config: Config, n: nat): Stage
    requires 0 < config.window <= U64_MAX
  {
    if n == 0 then Stage(Interval(0, config.window), config.window)
    else TickUpTo(RunUpTo(config, n - 1), config.window, config.operationsPerTick)
  }

  /** The law of the workload for one operation: its key is accepted exactly if it is a fourth
      one. */
  ghost predicate Lawful(stage: Stage, window: nat, operation: nat)
    requires window > 0
  {
    GeneratedKey(operation, window, stage.next) !in LastOf(stage.accepted, window) <==> operation % 4 == 0
  }

  ghost predicate LawfulTick(stage: Stage, window: nat, operations: nat)
    requires window > 0
  {
    forall operation: nat | operation < operations ::
      Lawful(TickUpTo(stage, window, operation), window, operation)
  }

  ghost predicate LawfulRun(config: Config, ticks: nat)
    requires 0 < config.window <= U64_MAX
  {
    forall tick: nat | tick < ticks ::
      LawfulTick(RunUpTo(config, tick), config.window, config.operationsPerTick)
  }

  // ----- when the law holds -----

  /** All of the first `total` nonces were accepted, in order. */
  function Issued(total: nat): Stage { Stage(Interval(0, total), Min(total, U64_MAX)) }

  /** Fresh keys among the first `n` operations of a tick. */
  function Fresh(n: nat): nat { SlotSize(n, 4, 0) }

  lemma FreshStep(n: nat)
    ensures Fresh(0) == 0
    ensures Fresh(n + 1) == Fresh(n) + if n % 4 == 0 then 1 else 0
    ensures Fresh(n) == DivCeil(n, 4)
  {
    SlotStep(n, 4, 0);
  }

  /** No operation after the last fresh one of a tick looks back over the whole window. */
  predicate QuietTail(window: nat, operations: nat)
    requires window > 0
  {
    forall operation: nat | operation < operations ::
      operation / 4 == SatSub(operations, 1) / 4 && operation % 4 != 0 ==> operation % window != window - 1
  }

  lemma QuietTailStep(window: nat, n: nat)
    requires window > 0
    ensures QuietTail(window, n + 1)
            <==> n % 4 == 0 || (QuietTail(window, n) && n % window != window - 1)
  {
    if n % 4 == 0 {
      forall operation: nat | operation < n ensures operation / 4 != n / 4 {}
    } else {
      assert n / 4 == (n - 1) / 4;
      if QuietTail(window, n + 1) {
        assert QuietTail(window, n);
      }
    }
  }

  /** One operation, exactly: it obeys the law as long as the nonces fit a word. When the last
      nonce has just been issued, a fresh key repeats it, and an operation that looks back over
      the whole window offers an evicted key. */
  lemma OperateExactly(total: nat, window: nat, operation: nat)
    requires 0 < window <= total <= U64_MAX + 1 && window <= U64_MAX
    ensures var stage := Issued(total);
            && (Lawful(stage, window, operation)
                <==> total <= U64_MAX || (operation % 4 != 0 && operation % window != window - 1))
            && (Lawful(stage, window, operation) ==>
                  Operate(stage, window, operation)
                  == Issued(if operation % 4 == 0 then total + 1 else total))
  {
    hide Interval, LastOf;
    IntervalEnds(total, window);
    KeyRecentExactly(total, window, GeneratedKey(operation, window, Issued(total).next));
  }

  lemma IntervalEnds(total: nat, window: nat)
    requires window <= total
    ensures LastOf(Interval(0, total), window) == Interval(total - window, total)
    ensures Interval(0, total + 1) == Interval(0, total) + [total]
  {
  }

  lemma KeyRecentExactly(total: nat, window: nat, key: nat)
    requires window <= total
    ensures key in Interval(total - window, total) <==> total - window <= key < total
  {
    if total - window <= key < total {
      assert Interval(total - window, total)[key - (total - window)] == key;
    }
  }

  /** A tick that starts with `total` nonces issued obeys the law if and only if its fresh nonces
      fit a word, or go one beyond and the rest of the tick is quiet. */
  lemma {:induction false} TickExactly(total: nat, window: nat, n: nat)
    requires 0 < window <= total <= U64_MAX + 1 && window <= U64_MAX
    ensures LawfulTick(Issued(total), window, n)
            <==> total + Fresh(n) <= U64_MAX
                 || (total + Fresh(n) == U64_MAX + 1 && (n == 0 || QuietTail(window, n)))
    ensures LawfulTick(Issued(total), window, n) ==>
              TickUpTo(Issued(total), window, n) == Issued(total + Fresh(n))
  {
    hide Fresh, Issued, Lawful, QuietTail, Operate;
    FreshStep(n);
    if n > 0 {
      TickExactly(total, window, n - 1);
      FreshStep(n - 1);
      QuietTailStep(window, n - 1);
      LawfulTickStep(Issued(total), window, n - 1);
      if LawfulTick(Issued(total), window, n - 1) {
        OperateExactly(total + Fresh(n - 1), window, n - 1);
      }
    }
  }

  lemma LawfulTickStep(stage: Stage, window: nat, n: nat)
    requires window > 0
    ensures LawfulTick(stage, window, n + 1)
            <==> LawfulTick(stage, window, n) && Lawful(TickUpTo(stage, window, n), window, n)
  {
    hide Lawful, TickUpTo;
  }

  /** Fresh nonces generated over `ticks` ticks. */
  function FreshNonces(config: Config, ticks: nat): nat {
    ticks * DivCeil(config.operationsPerTick, 4)
  }

  /** The nonces of `ticks` ticks fit a word; or they go just one beyond, the last one being the
      largest word, and the rest of the last tick is quiet. */
  predicate WordSuffices(config: Config, ticks: nat)
    requires 0 < config.window
  {
    var issued := config.window + FreshNonces(config, ticks);
    issued <= U64_MAX || (issued == U64_MAX + 1 && QuietTail(config.window, config.operationsPerTick))
  }

  /** Exactly every fourth generated key is accepted, over `ticks` whole ticks, if and only if the
      word suffices for them. */
  lemma {:induction false} LawfulExactly(config: Config, ticks: nat)
    requires 0 < config.window <= U64_MAX
    ensures LawfulRun(config, ticks) <==> WordSuffices(config, ticks)
    ensures LawfulRun(config, ticks) ==>
              RunUpTo(config, ticks) == Issued(config.window + FreshNonces(config, ticks))
  {
    hide LawfulTick, QuietTail, DivCeil, TickUpTo;
    var perTick := DivCeil(config.operationsPerTick, 4);
    if ticks > 0 {
      LawfulExactly(config, ticks - 1);
      LawfulRunStep(config, ticks - 1);
      var before := config.window + FreshNonces(config, ticks - 1);
      assert ticks * perTick == (ticks - 1) * perTick + perTick;
      FreshStep(config.operationsPerTick);
      if LawfulRun(config, ticks - 1) {
        TickExactly(before, config.window, config.operationsPerTick);
      }
    }
  }

  lemma LawfulRunStep(config: Config, n: nat)
    requires 0 < config.window <= U64_MAX
    ensures LawfulRun(config, n + 1)
            <==> LawfulRun(config, n)
                 && LawfulTick(RunUpTo(config, n), config.window, config.operationsPerTick)
  {
    hide LawfulTick, RunUpTo;
  }

  /** With the largest window the nonce saturates at the first fresh key, so the second one
      repeats it and is rejected. */
  lemma FreshKeyRejected()
    ensures var config := Config(U64_MAX, 5, 1);
            && !LawfulRun(config, 1)
            && !Lawful(TickUpTo(RunUpTo(config, 0), config.window, 4), config.window, 4)
  {
    hide LawfulRun, Lawful, TickUpTo, RunUpTo;
    var config := Config(U64_MAX, 5, 1);
    RunStart(config);
    SecondFreshKey(U64_MAX);
    LawfulExactly(config, 1);
  }

  lemma SecondFreshKey(window: nat)
    requires window == U64_MAX
    ensures !Lawful(TickUpTo(Issued(window), window, 4), window, 4)
  {
    hide Issued, Lawful, TickUpTo, LawfulTick;
    FreshStep(4);
    TickExactly(window, window, 4);
    OperateExactly(window + 1, window, 4);
  }

  lemma RunStart(config: Config)
    requires 0 < config.window <= U64_MAX
    ensures RunUpTo(config, 0) == Issued(config.window)
  {
  }

  /** With a window of one, the operation after the last nonce looks back to an evicted key, which
      is accepted a second time. */
  lemma EvictedKeyAccepted()
    ensures var config := Config(1, 2, U64_MAX);
            && !LawfulRun(config, U64_MAX)
            && RunUpTo(config, U64_MAX).accepted == Interval(0, U64_MAX + 1) + [U64_MAX - 1]
  {
    hide Issued, Operate, LawfulRun, LawfulTick, RunUpTo;
    var config := Config(1, 2, U64_MAX);
    LawfulExactly(config, U64_MAX);
    LawfulExactly(config, U64_MAX - 1);
    assert !QuietTail(1, 2) by { assert 1 % 1 == 0; }
    TickOfTwo(config);
  }

  lemma TickOfTwo(config: Config)
    requires config == Config(1, 2, U64_MAX) && RunUpTo(config, U64_MAX - 1) == Issued(U64_MAX)
    ensures RunUpTo(config, U64_MAX).accepted == Interval(0, U64_MAX + 1) + [U64_MAX - 1]
  {
    hide RunUpTo;
    OperateExactly(U64_MAX, 1, 0);
    assert RunUpTo(config, U64_MAX) == TickUpTo(Issued(U64_MAX), 1, 2) by { RunStep(config, U64_MAX - 1); }
    assert TickUpTo(Issued(U64_MAX), 1, 1) == Operate(Issued(U64_MAX), 1, 0) == Issued(U64_MAX + 1);
    assert LastOf(Interval(0, U64_MAX + 1), 1) == [U64_MAX];
  }

  lemma RunStep(config: Config, n: nat)
    requires 0 < config.window <= U64_MAX
    ensures RunUpTo(config, n + 1) == TickUpTo(RunUpTo(config, n), config.window, config.operationsPerTick)
  {
  }

  // ----- the run -----

  /** The reported counters, which saturate. */
  datatype Tally = Tally(operations: word, accepted: word, duplicates: word) {
    function Count(duplicate: bool): Tally {
      Tally(
        SatAdd(operations, 1),
        if duplicate then accepted else SatAdd(accepted, 1),
        if duplicate then SatAdd(duplicates, 1) else duplicates)
    }

    /** The benchmark's conservation check on the reported counters. */
    predicate Conserved() {
      operations == SatAdd(accepted, duplicates)
    }
  }

  function TallyOf(accepted: nat, duplicates: nat): (tally: Tally)
    ensures tally.Conserved()
  {
    Tally(Min(accepted + duplicates, U64_MAX), Min(accepted, U64_MAX), Min(duplicates, U64_MAX))
  }

  /** The counters when `offered` keys were offered and the accepted ones grew to `accepted`. */
  ghost predicate Tallied(tally: Tally, config: Config, accepted: seq<nat>, offered: nat) {
    && config.window <= |accepted| <= config.window + offered
    && tally == TallyOf(|accepted| - config.window, offered - (|accepted| - config.window))
  }

  /** The generated workload. `allowedTicks` ticks start before the time budget is exhausted.
      Every operation is accepted or a duplicate, the order is the end of the accepted keys, and
      the verdict is exact. If the word suffices, the window ends as the interval of the last
      nonces. */
  method Run(config: Config, allowedTicks: nat)
    returns (completed: nat, tally: Tally, retained: nat, order: seq<nat>, ok: bool)
    requires 0 < config.window <= U64_MAX
    ensures completed == Min(config.ticks, allowedTicks)
    ensures var accepted := RunUpTo(config, completed).accepted;
            && Tallied(tally, config, accepted, completed * config.operationsPerTick)
            && order == LastOf(accepted, config.window)
    ensures retained == |order| == config.window
    ensures ok <==> config.ticks <= allowedTicks
    ensures WordSuffices(config, completed) ==>
              var accepted := FreshNonces(config, completed);
              tally.accepted == Min(accepted, U64_MAX) && order == Interval(accepted, accepted + config.window)
  {
    hide WordSuffices, LawfulRun, FreshNonces, TickUpTo;
    var window := new Window<nat>(config.window, Interval(0, config.window));
    var nextNonce: word := config.window;
    completed, tally := 0, Tally(0, 0, 0);
    var exhausted := false;
    while completed < config.ticks
      invariant completed <= Min(config.ticks, allowedTicks) && !exhausted
      invariant fresh(window) && window.Valid() && window.window == config.window
      invariant RunUpTo(config, completed) == Stage(window.accepted, nextNonce)
      invariant Tallied(tally, config, window.accepted, completed * config.operationsPerTick)
    {
      if completed >= allowedTicks {
        exhausted := true;
        break;
      }
      nextNonce, tally := RunTick(window, config, nextNonce, tally, completed);
      completed := completed + 1;
    }
    retained := window.RetainedLen();
    order := window.order;
    IssuedWindow(config, completed);
    ok := tally.Conserved() && retained == config.window && retained == |order|
      && completed == config.ticks
      && tally.operations == SatMul(config.operationsPerTick, config.ticks) && !exhausted;
  }

  lemma IssuedWindow(config: Config, ticks: nat)
    requires 0 < config.window <= U64_MAX
    ensures WordSuffices(config, ticks) ==>
            var issued := FreshNonces(config, ticks);
            var accepted := RunUpTo(config, ticks).accepted;
            && |accepted| == config.window + issued
            && LastOf(accepted, config.window) == Interval(issued, issued + config.window)
  {
    hide WordSuffices, FreshNonces, RunUpTo, LawfulRun;
    LawfulExactly(config, ticks);
  }

  /** The operations of one tick, offered in turn. */
  method RunTick(window: Window<nat>, config: Config, next: word, before: Tally, ghost tick: nat)
    returns (nextNonce: word, tally: Tally)
    requires window.Valid() && 0 < window.window == config.window
    requires Tallied(before, config, window.accepted, tick * config.operationsPerTick)
    modifies window
    ensures window.Valid()
    ensures Stage(window.accepted, nextNonce)
            == TickUpTo(old(Stage(window.accepted, next)), config.window, config.operationsPerTick)
    ensures Tallied(tally, config, window.accepted, (tick + 1) * config.operationsPerTick)
  {
    hide Offered, LastOf, Tallied, GeneratedKey, Window.Valid;
    ghost var start := Stage(window.accepted, next);
    ghost var offered := tick * config.operationsPerTick;
    assert (tick + 1) * config.operationsPerTick == offered + config.operationsPerTick;
    nextNonce, tally := next, before;
    for operation := 0 to config.operationsPerTick
      invariant window.Valid()
      invariant Stage(window.accepted, nextNonce) == TickUpTo(start, config.window, operation)
      invariant Tallied(tally, config, window.accepted, offered + operation)
    {
      var key := GeneratedKey(operation, config.window, nextNonce);
      if operation % 4 == 0 {
        nextNonce := SatAdd(nextNonce, 1);
      }
      ghost var accepted := window.accepted;
      var duplicate := window.Offer(key);
      TalliedStep(tally, config, accepted, offered + operation, key);
      tally := tally.Count(duplicate);
    }
  }

  lemma TalliedStep(tally: Tally, config: Config, accepted: seq<nat>, offered: nat, key: nat)
    requires Tallied(tally, config, accepted, offered)
    ensures Tallied(
              tally.Count(key in LastOf(accepted, config.window)), config,
              Offered(accepted, config.window, key), offered + 1)
  {
  }

  // ----- the guard -----

  const GUARD_MAX_WINDOW: nat := 50_000
  const GUARD_MAX_OPERATIONS_PER_TICK: nat := 200_000
  const GUARD_MAX_TICKS: nat := 20
  const GUARD_MAX_OPERATIONS: nat := 2_000_000

  function Floored(requested: Config): Config {
    Config(Max(requested.window, 1), Max(requested.operationsPerTick, 1), Max(requested.ticks, 1))
  }

  predicate Positive(config: Config) {
    config.window >= 1 && config.operationsPerTick >= 1 && config.ticks >= 1
  }

  predicate WithinGuard(config: Config) {
    && config.window <= GUARD_MAX_WINDOW && config.operationsPerTick <= GUARD_MAX_OPERATIONS_PER_TICK
    && config.ticks <= GUARD_MAX_TICKS
    && config.operationsPerTick * config.ticks <= GUARD_MAX_OPERATIONS
  }

  /** Every guarded run obeys the law: its nonces are far from the end of the word. */
  lemma GuardedRunsLawful(config: Config, ticks: nat)
    requires Positive(config) && WithinGuard(config) && ticks <= config.ticks
    ensures WordSuffices(config, ticks) && LawfulRun(config, ticks)
  {
    hide LawfulRun, QuietTail;
    assert DivCeil(config.operationsPerTick, 4) <= config.operationsPerTick;
    ProductMonotone(
      DivCeil(config.operationsPerTick, 4), config.operationsPerTick, ticks);
    ProductMonotone(ticks, config.ticks, config.operationsPerTick);
    LawfulExactly(config, ticks);
  }

  /** The sizes a run may use: positive, and without the heavy flag within the guard. Exactly the
      requests that are so already are left alone, and operations are only lowered to the largest
      number that fits. */
  method ParseConfig(requested: Config, allowHeavy: bool) returns (config: Config, guardApplied: bool)
    requires requested.operationsPerTick <= U64_MAX
    ensures Positive(config) && (allowHeavy || WithinGuard(config))
    ensures config == requested <==> Positive(requested) && (allowHeavy || WithinGuard(requested))
    ensures guardApplied <==> !allowHeavy && !WithinGuard(Floored(requested))
    ensures config.window == if allowHeavy then Max(requested.window, 1)
                             else Min(Max(requested.window, 1), GUARD_MAX_WINDOW)
    ensures config.ticks == if allowHeavy then Max(requested.ticks, 1)
                            else Min(Max(requested.ticks, 1), GUARD_MAX_TICKS)
    ensures config.operationsPerTick <= Max(requested.operationsPerTick, 1)
    ensures config.operationsPerTick < Max(requested.operationsPerTick, 1) ==>
              !allowHeavy && !WithinGuard(config.(operationsPerTick := config.operationsPerTick + 1))
  {
    var window := Max(requested.window, 1);
    var operations := Max(requested.operationsPerTick, 1);
    var ticks := Max(requested.ticks, 1);
    var floored := Config(window, operations, ticks);
    if !allowHeavy {
      window := Min(window, GUARD_MAX_WINDOW);
      operations := Min(operations, GUARD_MAX_OPERATIONS_PER_TICK);
      ticks := Min(ticks, GUARD_MAX_TICKS);
      OperationsFit(operations, ticks);
      if SatMul(operations, ticks) > GUARD_MAX_OPERATIONS {
        operations := Max(GUARD_MAX_OPERATIONS / ticks, 1);
      }
    }
    config := Config(window, operations, ticks);
    guardApplied := floored != config;
  }

  lemma OperationsFit(operations: nat, ticks: nat)
    requires operations <= GUARD_MAX_OPERATIONS_PER_TICK && 1 <= ticks <= GUARD_MAX_TICKS
    ensures operations * ticks <= U64_MAX
    ensures var fit := GUARD_MAX_OPERATIONS / ticks;
            && 1 <= fit && fit * ticks <= GUARD_MAX_OPERATIONS < (fit + 1) * ticks
            && (operations * ticks > GUARD_MAX_OPERATIONS ==> fit < operations)
  {
    ProductMonotone(operations, GUARD_MAX_OPERATIONS_PER_TICK, ticks);
    LargestFactor(GUARD_MAX_OPERATIONS, ticks, operations);
  }
}
