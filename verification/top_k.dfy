/** Budgeted priority selection: partitioning at the limit and sorting only the prefix selects
    exactly what sorting everything selects. */
module TopK {
  import opened MachineInts

  /** `distance` is the integer key that orders squared distances as `f32::total_cmp` does. */
  datatype Candidate = Candidate(index: nat, generation: nat, score: word, distance: int)

  datatype Ordering = Less | Equal | Greater {
    function ThenWith(next: Ordering): Ordering {
      if this == Equal then next else this
    }
  }

  function CompareInt(left: int, right: int): Ordering {
    if left < right then Less else if left == right then Equal else Greater
  }

  /** Higher score first, then nearer, then lower handle. */
  function CompareCandidates(left: Candidate, right: Candidate): Ordering {
    CompareInt(right.score, left.score)
      .ThenWith(CompareInt(left.distance, right.distance))
      .ThenWith(CompareInt(left.index, right.index)
                  .ThenWith(CompareInt(left.generation, right.generation)))
  }

  predicate LessEq(left: Candidate, right: Candidate) {
    CompareCandidates(left, right) != Greater
  }

  /** The comparator is a total order, and its ties are identical candidates: this is why an
      unstable partition cannot show in the result. */
  lemma ComparatorIsTotalOrder(x: Candidate, y: Candidate, z: Candidate)
    ensures CompareCandidates(x, y) == Equal <==> x == y
    ensures CompareCandidates(x, y) == Less <==> CompareCandidates(y, x) == Greater
    ensures LessEq(x, y) && LessEq(y, z) ==> LessEq(x, z)
    ensures LessEq(x, y) || LessEq(y, x)
    ensures LessEq(x, y) ==> y.score <= x.score
  {
  }

  ghost predicate Sorted(s: seq<Candidate>) {
    forall i, j | 0 <= i < j < |s| :: LessEq(s[i], s[j])
  }

  function Insert(candidate: Candidate, sorted: seq<Candidate>): (inserted: seq<Candidate>)
    ensures |inserted| == |sorted| + 1
  {
    if sorted == [] || LessEq(candidate, sorted[0]) then [candidate] + sorted
    else [sorted[0]] + Insert(candidate, sorted[1..])
  }

  /** Reference definition of the full sort. */
  function FullSort(s: seq<Candidate>): (sorted: seq<Candidate>)
    ensures |sorted| == |s|
  {
    if s == [] then [] else Insert(s[0], FullSort(s[1..]))
  }

  lemma {:induction false} InsertSorts(candidate: Candidate, sorted: seq<Candidate>)
    requires Sorted(sorted)
    ensures Sorted(Insert(candidate, sorted))
    ensures multiset(Insert(candidate, sorted)) == multiset(sorted) + multiset{candidate}
  {
    hide LessEq;
    if sorted == [] {
    } else if LessEq(candidate, sorted[0]) {
      forall j | 0 <= j < |sorted| ensures LessEq(candidate, sorted[j]) {
        ComparatorIsTotalOrder(candidate, sorted[0], sorted[j]);
      }
    } else {
      var head, tail := sorted[0], sorted[1..];
      var rest := Insert(candidate, tail);
      InsertSorts(candidate, tail);
      assert sorted == [head] + tail;
      ComparatorIsTotalOrder(head, candidate, candidate);
      HeadBeforeRest(head, candidate, tail, rest);
    }
  }

  lemma HeadBeforeRest(head: Candidate, candidate: Candidate, tail: seq<Candidate>, rest: seq<Candidate>)
    requires Sorted([head] + tail) && LessEq(head, candidate)
    requires multiset(rest) == multiset(tail) + multiset{candidate}
    ensures forall j | 0 <= j < |rest| :: LessEq(head, rest[j])
  {
    hide LessEq;
    forall j | 0 <= j < |rest| ensures LessEq(head, rest[j]) {
      assert rest[j] in multiset(rest);
      if rest[j] != candidate {
        assert rest[j] in multiset(tail);
        var k :| 0 <= k < |tail| && tail[k] == rest[j];
        assert LessEq(([head] + tail)[0], ([head] + tail)[k + 1]);
      }
    }
  }

  lemma {:induction false} FullSortSorts(s: seq<Candidate>)
    ensures Sorted(FullSort(s)) && multiset(FullSort(s)) == multiset(s)
  {
    if s != [] {
      FullSortSorts(s[1..]);
      InsertSorts(s[0], FullSort(s[1..]));
      assert s == [s[0]] + s[1..];
    }
  }

  lemma LastIsGreatest(s: seq<Candidate>, t: seq<Candidate>)
    requires Sorted(s) && multiset(s) == multiset(t) && s != [] && t != []
    ensures LessEq(t[|t| - 1], s[|s| - 1])
  {
    assert t[|t| - 1] in multiset(s);
    var j :| 0 <= j < |s| && s[j] == t[|t| - 1];
    ComparatorIsTotalOrder(s[j], s[j], s[j]);
  }

  lemma SameLast(s: seq<Candidate>, t: seq<Candidate>)
    requires Sorted(s) && Sorted(t) && multiset(s) == multiset(t) && s != [] && t != []
    ensures s[|s| - 1] == t[|t| - 1]
  {
    hide Sorted;
    LastIsGreatest(s, t);
    LastIsGreatest(t, s);
    ComparatorIsTotalOrder(s[|s| - 1], t[|t| - 1], t[|t| - 1]);
  }

  lemma DropLast(s: seq<Candidate>)
    requires s != []
    ensures multiset(s[..|s| - 1]) == multiset(s) - multiset{s[|s| - 1]}
  {
    assert s == s[..|s| - 1] + [s[|s| - 1]];
  }

  lemma SortedPrefix(s: seq<Candidate>, n: nat)
    requires Sorted(s) && n <= |s|
    ensures Sorted(s[..n])
  {
    hide LessEq;
  }

  /** A multiset of candidates has only one sorted arrangement. */
  lemma {:induction false} SortedUnique(s: seq<Candidate>, t: seq<Candidate>)
    requires Sorted(s) && Sorted(t) && multiset(s) == multiset(t)
    ensures s == t
  {
    hide Sorted;
    assert |multiset(s)| == |s| && |multiset(t)| == |t|;
    if s != [] {
      var last := |s| - 1;
      SameLast(s, t);
      DropLast(s);
      DropLast(t);
      SortedPrefix(s, last);
      SortedPrefix(t, last);
      SortedUnique(s[..last], t[..last]);
      assert s == s[..last] + [s[last]] && t == t[..last] + [t[last]];
    }
  }

  /** The contract of a partition at `k`: nothing before `k` comes after anything from `k` on. */
  ghost predicate PartitionedAt(s: seq<Candidate>, k: nat) {
    forall i, j | 0 <= i < k <= j < |s| :: LessEq(s[i], s[j])
  }

  /** Main result: any arrangement partitioned at `k` whose first `k` elements are sorted has
      the first `k` elements of the full sort, whatever the order of the rest. */
  lemma PrefixOfPartition(source: seq<Candidate>, work: seq<Candidate>, k: nat)
    requires k <= |work| && multiset(work) == multiset(source)
    requires PartitionedAt(work, k) && Sorted(work[..k])
    ensures |source| == |work| && work[..k] == FullSort(source)[..k]
  {
    var front, back := work[..k], work[k..];
    assert work == front + back;
    FullSortSorts(back);
    FullSortSorts(source);
    assert |multiset(work)| == |multiset(source)|;
    SortedConcat(front, FullSort(back), back);
    SortedUnique(front + FullSort(back), FullSort(source));
    assert (front + FullSort(back))[..k] == front;
  }

  lemma SortedConcat(front: seq<Candidate>, sortedBack: seq<Candidate>, back: seq<Candidate>)
    requires Sorted(front) && Sorted(sortedBack)
    requires multiset(sortedBack) == multiset(back)
    requires PartitionedAt(front + back, |front|)
    ensures Sorted(front + sortedBack)
  {
    forall i, j | 0 <= i < |front| && 0 <= j < |sortedBack|
      ensures LessEq(front[i], sortedBack[j])
    {
      assert sortedBack[j] in multiset(back);
      var m :| 0 <= m < |back| && back[m] == sortedBack[j];
      assert LessEq((front + back)[i], (front + back)[|front| + m]);
    }
  }

  /** Lomuto partition of the slice `lo..hi`, as one round of the in-place selection. */
  method Partition(a: array<Candidate>, lo: nat, hi: nat) returns (pivot: nat)
    requires lo < hi <= a.Length
    modifies a
    ensures lo <= pivot < hi
    ensures a[..lo] == old(a[..lo]) && a[hi..] == old(a[hi..])
    ensures multiset(a[lo..hi]) == multiset(old(a[lo..hi]))
    ensures forall i | lo <= i < pivot :: LessEq(a[i], a[pivot])
    ensures forall i | pivot < i < hi :: LessEq(a[pivot], a[i])
  {
    hide LessEq;
    var value := a[hi - 1];
    pivot := lo;
    for j := lo to hi - 1
      invariant lo <= pivot <= j
      invariant a[hi - 1] == value
      invariant a[..lo] == old(a[..lo]) && a[hi..] == old(a[hi..])
      invariant multiset(a[lo..hi]) == multiset(old(a[lo..hi]))
      invariant forall i | lo <= i < pivot :: LessEq(a[i], value)
      invariant forall i | pivot <= i < j :: LessEq(value, a[i])
    {
      ComparatorIsTotalOrder(a[j], value, value);
      if LessEq(a[j], value) {
        Swap(a, lo, hi, pivot, j);
        pivot := pivot + 1;
      }
    }
    Swap(a, lo, hi, pivot, hi - 1);
  }

  method Swap(a: array<Candidate>, lo: nat, hi: nat, i: nat, j: nat)
    requires lo <= i < hi <= a.Length && lo <= j < hi
    modifies a
    ensures a[i] == old(a[j]) && a[j] == old(a[i])
    ensures forall k | 0 <= k < a.Length && k != i && k != j :: a[k] == old(a[k])
    ensures a[..lo] == old(a[..lo]) && a[hi..] == old(a[hi..])
    ensures multiset(a[lo..hi]) == multiset(old(a[lo..hi]))
  {
    ghost var before := a[..];
    a[i], a[j] := a[j], a[i];
    assert a[..] == before[i := before[j]][j := before[i]];
    SwapWithin(before, a[..], lo, hi, i, j);
    assert a[lo..hi] == a[..][lo..hi] && a[..lo] == a[..][..lo] && a[hi..] == a[..][hi..];
  }

  lemma SwapWithin(s: seq<Candidate>, t: seq<Candidate>, lo: nat, hi: nat, i: nat, j: nat)
    requires lo <= i < hi <= |s| && lo <= j < hi && t == s[i := s[j]][j := s[i]]
    ensures t[..lo] == s[..lo] && t[hi..] == s[hi..] && multiset(t[lo..hi]) == multiset(s[lo..hi])
  {
    var part := s[lo..hi];
    assert t[lo..hi] == part[i - lo := part[j - lo]][j - lo := part[i - lo]];
    SwapKeepsAll(part, i - lo, j - lo);
  }

  lemma SwapKeepsAll(s: seq<Candidate>, i: nat, j: nat)
    requires i < |s| && j < |s|
    ensures multiset(s[i := s[j]][j := s[i]]) == multiset(s)
  {
  }

  /** Rearranging the slice `lo..hi` keeps every bound between it and its neighbours. */
  lemma RearrangeKeepsPartition(before: seq<Candidate>, after: seq<Candidate>, lo: nat, hi: nat, k: nat)
    requires lo <= hi <= |before| == |after| && (k <= lo || hi <= k)
    requires before[..lo] == after[..lo] && before[hi..] == after[hi..]
    requires multiset(before[lo..hi]) == multiset(after[lo..hi])
    requires PartitionedAt(before, k)
    ensures PartitionedAt(after, k)
  {
    forall i, j | 0 <= i < k <= j < |after| ensures LessEq(after[i], after[j]) {
      var i' := SourceIndex(before, after, lo, hi, i);
      var j' := SourceIndex(before, after, lo, hi, j);
      assert LessEq(before[i'], before[j']);
    }
  }

  lemma SourceIndex(before: seq<Candidate>, after: seq<Candidate>, lo: nat, hi: nat, i: nat)
    returns (source: nat)
    requires lo <= hi <= |before| == |after| && i < |after|
    requires before[..lo] == after[..lo] && before[hi..] == after[hi..]
    requires multiset(before[lo..hi]) == multiset(after[lo..hi])
    ensures source < |before| && before[source] == after[i]
    ensures source < lo <==> i < lo
    ensures hi <= source <==> hi <= i
  {
    if i < lo {
      assert before[..lo][i] == after[..lo][i];
      source := i;
    } else if hi <= i {
      assert before[hi..][i - hi] == after[hi..][i - hi];
      source := i;
    } else {
      assert after[lo..hi][i - lo] in multiset(before[lo..hi]);
      var m :| 0 <= m < hi - lo && before[lo..hi][m] == after[i];
      source := lo + m;
    }
  }

  lemma RearrangeKeepsAll(before: seq<Candidate>, after: seq<Candidate>, lo: nat, hi: nat)
    requires lo <= hi <= |before| == |after|
    requires before[..lo] == after[..lo] && before[hi..] == after[hi..]
    requires multiset(before[lo..hi]) == multiset(after[lo..hi])
    ensures multiset(before) == multiset(after)
  {
    assert before == before[..lo] + before[lo..hi] + before[hi..];
    assert after == after[..lo] + after[lo..hi] + after[hi..];
  }

  /** Quickselect: places the element of rank `nth` and partitions the array around it. */
  method SelectNth(a: array<Candidate>, nth: nat)
    requires nth < a.Length
    modifies a
    ensures multiset(a[..]) == multiset(old(a[..]))
    ensures PartitionedAt(a[..], nth) && PartitionedAt(a[..], nth + 1)
  {
    var lo, hi := 0, a.Length;
    while hi - lo > 1
      invariant lo <= nth < hi <= a.Length
      invariant multiset(a[..]) == multiset(old(a[..]))
      invariant PartitionedAt(a[..], lo) && PartitionedAt(a[..], hi)
      decreases hi - lo
    {
      ghost var before := a[..];
      var pivot := Partition(a, lo, hi);
      ghost var after := a[..];
      RearrangeKeepsAll(before, after, lo, hi);
      RearrangeKeepsPartition(before, after, lo, hi, lo);
      RearrangeKeepsPartition(before, after, lo, hi, hi);
      PivotPartitions(after, lo, hi, pivot);
      if nth < pivot {
        hi := pivot;
      } else if pivot < nth {
        lo := pivot + 1;
      } else {
        return;
      }
    }
  }

  lemma PivotPartitions(s: seq<Candidate>, lo: nat, hi: nat, pivot: nat)
    requires lo <= pivot < hi <= |s|
    requires PartitionedAt(s, lo) && PartitionedAt(s, hi)
    requires forall i | lo <= i < pivot :: LessEq(s[i], s[pivot])
    requires forall i | pivot < i < hi :: LessEq(s[pivot], s[i])
    ensures PartitionedAt(s, pivot) && PartitionedAt(s, pivot + 1)
  {
    forall i, j | 0 <= i <= pivot <= j < |s| ensures LessEq(s[i], s[j]) {
      ComparatorIsTotalOrder(s[i], s[pivot], s[j]);
    }
  }

  /** Insertion sort of the first `n` elements. */
  method SortPrefix(a: array<Candidate>, n: nat)
    requires n <= a.Length
    modifies a
    ensures Sorted(a[..n])
    ensures multiset(a[..n]) == multiset(old(a[..n])) && a[n..] == old(a[n..])
  {
    for i := 0 to n
      invariant Sorted(a[..i])
      invariant multiset(a[0..n]) == multiset(old(a[0..n])) && a[n..] == old(a[n..])
    {
      SinkInto(a, i, n);
    }
    assert a[0..n] == a[..n] && old(a[0..n]) == old(a[..n]);
  }

  /** Moves element `i` down to its place in the sorted prefix before it. */
  method SinkInto(a: array<Candidate>, i: nat, n: nat)
    requires i < n <= a.Length && Sorted(a[..i])
    modifies a
    ensures Sorted(a[..i + 1])
    ensures multiset(a[0..n]) == multiset(old(a[0..n])) && a[n..] == old(a[n..])
  {
    var j: nat := i;
    while j > 0 && !LessEq(a[j - 1], a[j])
      invariant j <= i
      invariant forall x, y | 0 <= x < y <= i && y != j :: LessEq(a[x], a[y])
      invariant multiset(a[0..n]) == multiset(old(a[0..n])) && a[n..] == old(a[n..])
    {
      ComparatorIsTotalOrder(a[j - 1], a[j], a[j]);
      Swap(a, 0, n, j - 1, j);
      j := j - 1;
    }
    forall x | 0 <= x < j ensures LessEq(a[x], a[j]) {
      if x < j - 1 {
        ComparatorIsTotalOrder(a[x], a[j - 1], a[j]);
      }
    }
  }

  datatype SelectionMode = TopKMode | FullSortMode

  /** Both modes leave the same selected prefix: the best candidates in order. */
  method Select(a: array<Candidate>, limit: nat, mode: SelectionMode) returns (selected: nat)
    requires a.Length <= U64_MAX
    modifies a
    ensures selected == Min(a.Length, limit)
    ensures multiset(a[..]) == multiset(old(a[..]))
    ensures a[..selected] == FullSort(old(a[..]))[..selected]
  {
    ghost var source := a[..];
    FullSortSorts(source);
    selected := Min(a.Length, limit);
    if mode == TopKMode && selected == 0 {
      return 0;
    }
    if mode == TopKMode && SatMul(selected, 2) < a.Length {
      SelectNth(a, selected);
      ghost var partitioned := a[..];
      SortPrefix(a, selected);
      PrefixSorted(source, partitioned, a[..], selected);
    } else {
      SortPrefix(a, a.Length);
      assert a[..a.Length] == a[..] && source[..a.Length] == source;
      SortedUnique(a[..], FullSort(source));
    }
  }

  lemma PrefixSorted(source: seq<Candidate>, partitioned: seq<Candidate>, sorted: seq<Candidate>, k: nat)
    requires k <= |partitioned| == |sorted|
    requires multiset(partitioned) == multiset(source) && PartitionedAt(partitioned, k)
    requires Sorted(sorted[..k]) && sorted[k..] == partitioned[k..]
    requires multiset(sorted[..k]) == multiset(partitioned[..k])
    ensures multiset(sorted) == multiset(source)
    ensures |source| == |sorted| && sorted[..k] == FullSort(source)[..k]
  {
    assert partitioned[0..k] == partitioned[..k] && sorted[0..k] == sorted[..k];
    RearrangeKeepsAll(partitioned, sorted, 0, k);
    RearrangeKeepsPartition(partitioned, sorted, 0, k, k);
    PrefixOfPartition(source, sorted, k);
  }

  function ScoreSum(s: seq<Candidate>): nat {
    if s == [] then 0 else ScoreSum(s[..|s| - 1]) + s[|s| - 1].score
  }

  /** The score total of the selection of size `k`. */
  function BestScores(source: seq<Candidate>, k: nat): nat
    requires k <= |source|
  {
    ScoreSum(FullSort(source)[..k])
  }

  lemma {:induction false} ScoreSumConcat(left: seq<Candidate>, right: seq<Candidate>)
    ensures ScoreSum(left + right) == ScoreSum(left) + ScoreSum(right)
  {
    if right == [] {
      assert left + right == left;
    } else {
      ScoreSumConcat(left, right[..|right| - 1]);
      assert (left + right)[..|left + right| - 1] == left + right[..|right| - 1];
    }
  }

  /** Optimality: no `k` candidates of the source have a higher score total than the selected
      prefix. */
  lemma SelectionIsBest(source: seq<Candidate>, chosen: seq<Candidate>)
    requires multiset(chosen) <= multiset(source)
    ensures |chosen| <= |source| && ScoreSum(chosen) <= BestScores(source, |chosen|)
  {
    FullSortSorts(source);
    SortedPrefixIsBest(FullSort(source), chosen);
  }

  lemma IncludedIsShorter(part: seq<Candidate>, whole: seq<Candidate>)
    requires multiset(part) <= multiset(whole)
    ensures |part| <= |whole|
  {
    var rest := multiset(whole) - multiset(part);
    assert multiset(whole) == multiset(part) + rest;
    assert |multiset(whole)| == |multiset(part)| + |rest|;
  }

  lemma {:induction false} SortedPrefixIsBest(sorted: seq<Candidate>, chosen: seq<Candidate>)
    requires Sorted(sorted) && multiset(chosen) <= multiset(sorted)
    ensures |chosen| <= |sorted| && ScoreSum(chosen) <= ScoreSum(sorted[..|chosen|])
    decreases |sorted|
  {
    hide Sorted, ScoreSum;
    IncludedIsShorter(chosen, sorted);
    if chosen == [] {
      assert chosen == sorted[..0];
    } else {
      var last := |sorted| - 1;
      var front := sorted[..last];
      SortedPrefix(sorted, last);
      if sorted[last] !in chosen {
        IncludedInFront(sorted, chosen);
        SortedPrefixIsBest(front, chosen);
        assert front[..|chosen|] == sorted[..|chosen|];
      } else {
        var i :| 0 <= i < |chosen| && chosen[i] == sorted[last];
        var others := chosen[..i] + chosen[i + 1..];
        OthersInFront(sorted, chosen, i);
        SortedPrefixIsBest(front, others);
        AddWorst(sorted, front, chosen, others, i);
      }
    }
  }

  lemma IncludedInFront(sorted: seq<Candidate>, chosen: seq<Candidate>)
    requires sorted != [] && multiset(chosen) <= multiset(sorted) && sorted[|sorted| - 1] !in chosen
    ensures multiset(chosen) <= multiset(sorted[..|sorted| - 1])
  {
    DropLast(sorted);
    SubtractKeepsInclusion(multiset(chosen), multiset(sorted), sorted[|sorted| - 1]);
  }

  lemma OthersInFront(sorted: seq<Candidate>, chosen: seq<Candidate>, i: nat)
    requires sorted != [] && multiset(chosen) <= multiset(sorted)
    requires i < |chosen| && chosen[i] == sorted[|sorted| - 1]
    ensures multiset(chosen[..i] + chosen[i + 1..]) <= multiset(sorted[..|sorted| - 1])
  {
    DropLast(sorted);
    DropAt(chosen, i);
    SubtractKeepsInclusion(multiset(chosen), multiset(sorted), sorted[|sorted| - 1]);
  }

  lemma SubtractKeepsInclusion(part: multiset<Candidate>, whole: multiset<Candidate>, x: Candidate)
    requires part <= whole
    ensures part - multiset{x} <= whole - multiset{x}
    ensures x !in part ==> part <= whole - multiset{x}
  {
  }

  lemma DropAt(s: seq<Candidate>, i: nat)
    requires i < |s|
    ensures multiset(s[..i] + s[i + 1..]) == multiset(s) - multiset{s[i]}
  {
    assert s == s[..i] + [s[i]] + s[i + 1..];
  }

  lemma ScoreSumWithout(chosen: seq<Candidate>, i: nat)
    requires i < |chosen|
    ensures ScoreSum(chosen) == ScoreSum(chosen[..i] + chosen[i + 1..]) + chosen[i].score
  {
    var before, after := chosen[..i], chosen[i + 1..];
    ScoreSumOne(chosen[i]);
    hide ScoreSum;
    assert chosen == before + ([chosen[i]] + after);
    ScoreSumConcat(before, [chosen[i]] + after);
    ScoreSumConcat([chosen[i]], after);
    ScoreSumConcat(before, after);
  }

  lemma ScoreSumOne(candidate: Candidate)
    ensures ScoreSum([candidate]) == candidate.score
  {
  }

  lemma AddWorst(
      sorted: seq<Candidate>, front: seq<Candidate>, chosen: seq<Candidate>, others: seq<Candidate>, i: nat)
    requires Sorted(sorted) && |sorted| > 0 && front == sorted[..|sorted| - 1]
    requires i < |chosen| && others == chosen[..i] + chosen[i + 1..]
    requires chosen[i] == sorted[|sorted| - 1]
    requires |others| <= |front| && ScoreSum(others) <= ScoreSum(front[..|others|])
    ensures |chosen| <= |sorted| && ScoreSum(chosen) <= ScoreSum(sorted[..|chosen|])
  {
    hide Sorted, ScoreSum;
    var k := |others|;
    ScoreSumWithout(chosen, i);
    LastScoreIsLeast(sorted, k);
    LongerPrefix(sorted, k);
  }

  lemma LongerPrefix(s: seq<Candidate>, k: nat)
    requires k < |s|
    ensures ScoreSum(s[..k + 1]) == ScoreSum(s[..|s| - 1][..k]) + s[k].score
  {
    assert s[..k + 1][..k] == s[..|s| - 1][..k];
  }

  lemma LastScoreIsLeast(sorted: seq<Candidate>, k: nat)
    requires Sorted(sorted) && k < |sorted|
    ensures sorted[|sorted| - 1].score <= sorted[k].score
  {
    ComparatorIsTotalOrder(sorted[k], sorted[|sorted| - 1], sorted[k]);
  }

  datatype Config = Config(limit: nat, callsPerTick: nat, ticks: nat, mode: SelectionMode)

  datatype Stats = Stats(calls: word, selected: word, checksum: word, ticksCompleted: nat)

  method FoldScores(scores: seq<Candidate>) returns (sum: word)
    ensures sum == ScoreSum(scores) % U64_LIMIT
  {
    sum := 0;
    for i := 0 to |scores|
      invariant sum == ScoreSum(scores[..i]) % U64_LIMIT
    {
      assert scores[..i + 1][..i] == scores[..i];
      WrapAddMod(ScoreSum(scores[..i]), scores[i].score);
      sum := WrapAdd(sum, scores[i].score);
    }
    assert scores[..|scores|] == scores;
  }

  /** What a run has counted after `calls` selections of `selected` candidates each. */
  ghost predicate Counted(stats: Stats, calls: nat, selected: nat, best: nat) {
    && stats.calls == Min(calls, U64_MAX)
    && stats.selected == Min(calls * selected, U64_MAX)
    && stats.checksum == (calls * best) % U64_LIMIT
  }

  lemma CountedStep(stats: Stats, calls: nat, selected: word, best: nat, sum: word)
    requires Counted(stats, calls, selected, best) && sum == best % U64_LIMIT
    ensures Counted(
              Stats(SatAdd(stats.calls, 1), SatAdd(stats.selected, selected), WrapAdd(stats.checksum, sum),
                    stats.ticksCompleted),
              calls + 1, selected, best)
  {
    assert (calls + 1) * selected == calls * selected + selected;
    assert (calls + 1) * best == calls * best + best;
    SatAddCap(calls * selected, selected);
    WrapAddMod(calls * best, best);
  }

  /** A run of the benchmark; `allowedTicks` ticks start before the time budget is exhausted, and
      `late` tells whether it was exhausted when the last of them ended. The totals are the same in
      both modes. */
  method Run(source: seq<Candidate>, config: Config, allowedTicks: nat, late: bool)
    returns (stats: Stats, exhausted: bool)
    requires |source| <= U64_MAX
    ensures stats.ticksCompleted == Min(config.ticks, allowedTicks)
    ensures exhausted <==> allowedTicks < config.ticks || (late && stats.ticksCompleted > 0)
    ensures var selected := Min(|source|, config.limit);
            Counted(stats, stats.ticksCompleted * config.callsPerTick, selected, BestScores(source, selected))
  {
    var work := new Candidate[|source|](i requires 0 <= i < |source| => source[i]);
    stats, exhausted := Stats(0, 0, 0, 0), false;
    ghost var calls := 0;
    while stats.ticksCompleted < config.ticks
      invariant stats.ticksCompleted <= Min(config.ticks, allowedTicks)
      invariant exhausted <==> late && 0 < stats.ticksCompleted == Min(config.ticks, allowedTicks)
      invariant calls == stats.ticksCompleted * config.callsPerTick
      invariant CountedRun(stats, calls, source, config)
    {
      if stats.ticksCompleted >= allowedTicks {
        exhausted := true;
        break;
      }
      stats := RunTick(source, work, config, stats, calls);
      assert (stats.ticksCompleted + 1) * config.callsPerTick == calls + config.callsPerTick;
      calls := calls + config.callsPerTick;
      stats := stats.(ticksCompleted := stats.ticksCompleted + 1);
      exhausted := exhausted || (late && stats.ticksCompleted == Min(config.ticks, allowedTicks));
    }
  }

  ghost predicate CountedRun(stats: Stats, calls: nat, source: seq<Candidate>, config: Config) {
    var selected := Min(|source|, config.limit);
    Counted(stats, calls, selected, BestScores(source, selected))
  }

  method RunTick(
      source: seq<Candidate>, work: array<Candidate>, config: Config, before: Stats, ghost calls: nat)
    returns (stats: Stats)
    requires work.Length == |source| <= U64_MAX
    requires CountedRun(before, calls, source, config)
    modifies work
    ensures stats.ticksCompleted == before.ticksCompleted
    ensures CountedRun(stats, calls + config.callsPerTick, source, config)
  {
    stats := before;
    var selected := Min(|source|, config.limit);
    for call := 0 to config.callsPerTick
      invariant stats.ticksCompleted == before.ticksCompleted
      invariant CountedRun(stats, calls + call, source, config)
    {
      var sum := RunCall(source, work, config);
      CountedStep(stats, calls + call, selected, BestScores(source, selected), sum);
      stats := stats.(
        selected := SatAdd(stats.selected, selected),
        checksum := WrapAdd(stats.checksum, sum),
        calls := SatAdd(stats.calls, 1));
    }
  }

  method RunCall(source: seq<Candidate>, work: array<Candidate>, config: Config) returns (sum: word)
    requires work.Length == |source| <= U64_MAX
    modifies work
    ensures sum == BestScores(source, Min(|source|, config.limit)) % U64_LIMIT
  {
    forall i | 0 <= i < work.Length {
      work[i] := source[i];
    }
    assert work[..] == source;
    var selected := Select(work, config.limit, config.mode);
    sum := FoldScores(work[..selected]);
  }
}
