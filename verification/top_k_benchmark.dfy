/** The priority selection benchmark: its size guard, its candidates and its verdict. */
module TopKBenchmark {
  import opened MachineInts
  import opened Options
  import opened TopK

  const GUARD_MAX_CANDIDATES: nat := 10_000
  const GUARD_MAX_CALLS_PER_TICK: nat := 200
  const GUARD_MAX_TICKS: nat := 30

  datatype Sizes = Sizes(candidates: word, limit: word, callsPerTick: word, ticks: word)

  /** What a run may rely on: in particular the limit never exceeds the number of candidates. */
  predicate Usable(sizes: Sizes, allowHeavy: bool) {
    && 1 <= sizes.limit <= sizes.candidates && 1 <= sizes.callsPerTick && 1 <= sizes.ticks
    && (allowHeavy
        || (&& sizes.candidates <= GUARD_MAX_CANDIDATES && sizes.callsPerTick <= GUARD_MAX_CALLS_PER_TICK
            && sizes.ticks <= GUARD_MAX_TICKS))
  }

  class Settings {
    var candidates: word
    var limit: word
    var callsPerTick: word
    var ticks: word
    const allowHeavy: bool
    var guardApplied: bool

    constructor (requested: Sizes, allowHeavy: bool)
      ensures Current() == requested && this.allowHeavy == allowHeavy
    {
      candidates, limit := requested.candidates, requested.limit;
      callsPerTick, ticks := requested.callsPerTick, requested.ticks;
      this.allowHeavy, guardApplied := allowHeavy, false;
    }

    function Current(): Sizes
      reads this
    {
      Sizes(candidates, limit, callsPerTick, ticks)
    }

    /** Ends with usable sizes, changes exactly the requests that are not usable, and reports it. */
    method Normalize()
      modifies this
      ensures Usable(Current(), allowHeavy)
      ensures guardApplied <==> !Usable(old(Current()), allowHeavy)
      ensures !guardApplied ==> Current() == old(Current())
      ensures candidates == Clamped(old(candidates), GUARD_MAX_CANDIDATES, allowHeavy)
      ensures limit == Min(Max(old(limit), 1), candidates)
      ensures callsPerTick == Clamped(old(callsPerTick), GUARD_MAX_CALLS_PER_TICK, allowHeavy)
      ensures ticks == Clamped(old(ticks), GUARD_MAX_TICKS, allowHeavy)
    {
      var before := Current();
      candidates := Max(candidates, 1);
      limit := Min(Max(limit, 1), candidates);
      callsPerTick := Max(callsPerTick, 1);
      ticks := Max(ticks, 1);
      if !allowHeavy {
        candidates := Min(candidates, GUARD_MAX_CANDIDATES);
        limit := Min(limit, candidates);
        callsPerTick := Min(callsPerTick, GUARD_MAX_CALLS_PER_TICK);
        ticks := Min(ticks, GUARD_MAX_TICKS);
      }
      guardApplied := before != Current();
    }
  }

  // ----- the candidates -----

  const U32_LIMIT: nat := 0x1_0000_0000
  const SCORES: nat := 10_007

  /** Products of 32-bit words wrap. */
  function CreatedCandidate(index: nat): Candidate {
    Candidate(
      index, index % 5, index * 2_654_435_761 % U32_LIMIT % SCORES, index * 4_051 % U32_LIMIT % 8_191)
  }

  function CreateCandidates(count: nat): seq<Candidate> {
    seq(count, index requires index >= 0 => CreatedCandidate(index))
  }

  /** Candidates are created one by one; an index beyond 32 bits is a panic. */
  function CreateUpTo(count: nat): Option<seq<Candidate>> {
    if count == 0 then Some([])
    else
      var before :- CreateUpTo(count - 1);
      if count - 1 >= U32_LIMIT then None else Some(before + [CreatedCandidate(count - 1)])
  }

  /** All candidates are created if and only if there are at most 2^32 of them. */
  lemma {:induction false} CreatedExactly(count: nat)
    ensures CreateUpTo(count) == if count <= U32_LIMIT then Some(CreateCandidates(count)) else None
  {
    hide CreatedCandidate;
    if count == 0 {
      assert CreateCandidates(0) == [];
    } else {
      CreatedExactly(count - 1);
      assert CreateCandidates(count) == CreateCandidates(count - 1) + [CreatedCandidate(count - 1)];
    }
  }

  lemma {:induction false} ScoresBounded(candidates: seq<Candidate>)
    requires forall candidate | candidate in candidates :: candidate.score < SCORES
    ensures ScoreSum(candidates) <= |candidates| * (SCORES - 1)
  {
    if candidates != [] {
      var last := |candidates| - 1;
      assert candidates[last] in candidates;
      ScoresBounded(candidates[..last]);
    }
  }

  lemma {:induction false} ScoresGrow(candidates: seq<Candidate>, m: nat, n: nat)
    requires m <= n <= |candidates|
    ensures ScoreSum(candidates[..m]) <= ScoreSum(candidates[..n])
    decreases n
  {
    if m < n {
      ScoresGrow(candidates, m, n - 1);
      assert candidates[..n][..n - 1] == candidates[..n - 1];
    }
  }

  lemma SortedScoresBounded(count: nat, k: nat)
    requires k <= count
    ensures BestScores(CreateCandidates(count), k) <= k * (SCORES - 1)
  {
    var source := CreateCandidates(count);
    FullSortSorts(source);
    var best := FullSort(source)[..k];
    forall candidate | candidate in best ensures candidate.score < SCORES {
      assert candidate in multiset(FullSort(source));
      assert candidate in multiset(source);
    }
    ScoresBounded(best);
  }

  /** The selected score total is positive exactly with two or more candidates: the first one
      scores nothing. */
  lemma BestPositiveExactly(count: nat, k: nat)
    requires 1 <= k <= count
    ensures BestScores(CreateCandidates(count), k) > 0 <==> count >= 2
  {
    var source := CreateCandidates(count);
    if count == 1 {
      OnlyCandidate();
    } else {
      assert source[1] == CreatedCandidate(1) && source[1].score > 0;
      var chosen := [source[1]];
      assert source[1] in multiset(source);
      ScoreSumOne(source[1]);
      SelectionIsBest(source, chosen);
      ScoresGrow(FullSort(source), 1, k);
    }
  }

  lemma OnlyCandidate()
    ensures BestScores(CreateCandidates(1), 1) == 0
  {
    var source := CreateCandidates(1);
    assert source == [CreatedCandidate(0)] && source[1..] == [];
    assert FullSort(source) == source && source[..1] == source;
    ScoreSumOne(CreatedCandidate(0));
  }

  // ----- the verdict -----

  /** The score total of all calls, as the verdict tests it: a wrapping checksum. */
  function ChecksumOf(sizes: Sizes): nat
    requires sizes.limit <= sizes.candidates
  {
    sizes.ticks * sizes.callsPerTick * BestScores(CreateCandidates(sizes.candidates), sizes.limit) % U64_LIMIT
  }

  /** Within the guard the checksum cannot wrap, so it is positive exactly with two or more
      candidates. */
  lemma GuardedChecksum(sizes: Sizes)
    requires Usable(sizes, false)
    ensures ChecksumOf(sizes) > 0 <==> sizes.candidates >= 2
  {
    hide BestScores, CreateCandidates;
    AllCreated(sizes.candidates);
    SortedScoresBounded(sizes.candidates, sizes.limit);
    BestPositiveExactly(sizes.candidates, sizes.limit);
    SmallChecksum(
      sizes.ticks, sizes.callsPerTick, BestScores(CreateCandidates(sizes.candidates), sizes.limit));
  }

  lemma SmallChecksum(ticks: nat, callsPerTick: nat, best: nat)
    requires 1 <= ticks <= GUARD_MAX_TICKS && 1 <= callsPerTick <= GUARD_MAX_CALLS_PER_TICK
    requires best <= GUARD_MAX_CANDIDATES * (SCORES - 1)
    ensures ticks * callsPerTick * best % U64_LIMIT == ticks * callsPerTick * best
    ensures ticks * callsPerTick * best > 0 <==> best > 0
  {
    var calls := ticks * callsPerTick;
    ProductMonotone(ticks, GUARD_MAX_TICKS, callsPerTick);
    ProductMonotone(1, ticks, callsPerTick);
    ProductMonotone(calls, GUARD_MAX_TICKS * GUARD_MAX_CALLS_PER_TICK, best);
    ProductMonotone(1, calls, best);
  }

  datatype Outcome = Panicked | Finished(ok: bool)

  /** The verdict, exactly: more than 2^32 candidates are a panic, and otherwise a run passes if and
      only if the time budgets sufficed and its checksum is positive. Selecting always finds as many
      candidates as the limit asks for. Within the guard there is no panic, and a single candidate,
      which scores nothing, is the only reason to fail in time. */
  method Benchmark(
      requested: Sizes, mode: SelectionMode, allowHeavy: bool, allowedTicks: nat, late: bool, ticksInBudget: bool)
    returns (outcome: Outcome, sizes: Sizes)
    ensures Usable(sizes, allowHeavy)
    ensures outcome.Panicked? <==> sizes.candidates > U32_LIMIT
    ensures outcome.Finished? ==>
              (outcome.ok <==> sizes.ticks <= allowedTicks && !late && ticksInBudget && ChecksumOf(sizes) > 0)
    ensures !allowHeavy ==>
              && outcome.Finished?
              && (outcome.ok <==> sizes.ticks <= allowedTicks && !late && ticksInBudget && sizes.candidates >= 2)
  {
    hide CreateUpTo, CreateCandidates, BestScores;
    var settings := new Settings(requested, allowHeavy);
    settings.Normalize();
    sizes := settings.Current();
    var config := Config(sizes.limit, sizes.callsPerTick, sizes.ticks, mode);
    var created := CreateUpTo(sizes.candidates);
    CreatedExactly(sizes.candidates);
    if created.None? {
      return Panicked, sizes;
    }
    var source := created.value;
    AllCreated(sizes.candidates);
    var stats, exhausted := Run(source, config, allowedTicks, late);
    var expectedCalls := SatMul(sizes.callsPerTick, sizes.ticks);
    var expectedSelected := SatMul(expectedCalls, sizes.limit);
    outcome := Finished(
      && stats.ticksCompleted == sizes.ticks && !exhausted && stats.calls == expectedCalls
      && stats.selected == expectedSelected && stats.checksum > 0 && ticksInBudget);
    if stats.ticksCompleted == sizes.ticks {
      AllCallsCounted(sizes, stats, BestScores(source, sizes.limit));
    }
    if !allowHeavy {
      GuardedChecksum(sizes);
    }
  }

  lemma AllCreated(count: nat)
    ensures |CreateCandidates(count)| == count
  {
  }

  lemma AllCallsCounted(sizes: Sizes, stats: Stats, best: nat)
    requires Usable(sizes, true) && Counted(stats, sizes.ticks * sizes.callsPerTick, sizes.limit, best)
    ensures stats.calls == SatMul(sizes.callsPerTick, sizes.ticks)
    ensures stats.selected == SatMul(SatMul(sizes.callsPerTick, sizes.ticks), sizes.limit)
    ensures stats.checksum == sizes.ticks * sizes.callsPerTick * best % U64_LIMIT
  {
    var calls := sizes.ticks * sizes.callsPerTick;
    assert calls == sizes.callsPerTick * sizes.ticks;
    if calls > U64_MAX {
      ProductMonotone(1, sizes.limit, calls);
      ProductMonotone(1, sizes.limit, U64_MAX);
    }
  }
}
