/** Round-robin distribution by remainder: which items land in a slot, how many, and in
    which order. Station sharding and the viewer schedule are both instances. */
module RoundRobin {
  import opened MachineInts

  /** How many items below `n` have remainder `q` modulo `m`. */
  function SlotSize(n: nat, m: nat, q: nat): nat
    requires q < m
  {
    if n <= q then 0 else DivCeil(n - q, m)
  }

  /** The items below `n` with remainder `q`, in increasing order. */
  function Slot(n: nat, m: nat, q: nat): seq<nat>
    requires q < m
  {
    seq(SlotSize(n, m, q), k requires k >= 0 => q + k * m)
  }

  /** The slot holds exactly the indices `k` whose item `q + k * m` is below `n`. */
  lemma SlotSizeCovers(n: nat, m: nat, q: nat, k: nat)
    requires q < m
    ensures k < SlotSize(n, m, q) <==> q + k * m < n
  {
    if n > q {
      DivCeilCovers(n - q, m, k);
    } else {
      assert k * m >= 0;
    }
  }

  /** An item belongs to the slot of its remainder and to no other. */
  lemma {:induction false} SlotMembership(n: nat, m: nat, q: nat, item: nat)
    requires q < m
    ensures item in Slot(n, m, q) <==> item < n && item % m == q
  {
    hide SlotSize;
    if item < n && item % m == q {
      var k := item / m;
      assert item == q + k * m;
      SlotSizeCovers(n, m, q, k);
      assert Slot(n, m, q)[k] == item;
    } else if item in Slot(n, m, q) {
      var k :| 0 <= k < SlotSize(n, m, q) && Slot(n, m, q)[k] == item;
      SlotSizeCovers(n, m, q, k);
      DivModUnique(item, m, k, q);
    }
  }

  /** No slot holds an item twice: slots are strictly increasing. */
  lemma SlotIncreasing(n: nat, m: nat, q: nat, i: nat, j: nat)
    requires q < m && i < j < SlotSize(n, m, q)
    ensures Slot(n, m, q)[i] < Slot(n, m, q)[j]
  {
    ProductMonotone(i + 1, j, m);
    assert (i + 1) * m == i * m + m;
  }

  /** The size is the number `c` at which the slot's items reach `n`. */
  lemma SlotSizeIs(n: nat, m: nat, q: nat, c: nat)
    requires q < m && n <= q + c * m
    requires c > 0 ==> q + c * m < n + m
    ensures SlotSize(n, m, q) == c
  {
    SlotSizeCovers(n, m, q, c);
    if c > 0 {
      assert (c - 1) * m == c * m - m;
      SlotSizeCovers(n, m, q, c - 1);
    }
  }

  /** The closed form used for pre-sizing: the quotient, plus one for the first remainders. */
  lemma SlotSizeFormula(n: nat, m: nat, q: nat)
    requires q < m
    ensures SlotSize(n, m, q) == n / m + if q < n % m then 1 else 0
  {
    var d := n / m;
    assert n == d * m + n % m;
    assert (d + 1) * m == d * m + m;
    SlotSizeIs(n, m, q, if q < n % m then d + 1 else d);
  }

  lemma SlotSizeStep(n: nat, m: nat, q: nat, d: nat, r: nat)
    requires q < m && r < m && n == d * m + r
    ensures SlotSize(n, m, q) == if q < r then d + 1 else d
    ensures SlotSize(n + 1, m, q) == if q <= r then d + 1 else d
  {
    assert (d + 1) * m == d * m + m;
    SlotSizeIs(n, m, q, if q < r then d + 1 else d);
    SlotSizeIs(n + 1, m, q, if q <= r then d + 1 else d);
  }

  /** Distributing one more item appends it to the slot of its remainder and leaves every
      other slot as it was. */
  lemma SlotStep(n: nat, m: nat, q: nat)
    requires q < m
    ensures SlotSize(n + 1, m, q) == SlotSize(n, m, q) + if n % m == q then 1 else 0
    ensures Slot(n + 1, m, q) == if n % m == q then Slot(n, m, q) + [n] else Slot(n, m, q)
  {
    var d, r := n / m, n % m;
    assert n == d * m + r;
    SlotSizeStep(n, m, q, d, r);
  }

  /** Sum of the sizes of the first `upTo` slots. */
  function TotalSize(n: nat, m: nat, upTo: nat): nat
    requires upTo <= m
  {
    if upTo == 0 then 0 else TotalSize(n, m, upTo - 1) + SlotSize(n, m, upTo - 1)
  }

  lemma {:induction false} TotalSizeStep(n: nat, m: nat, upTo: nat)
    requires 0 < m && upTo <= m
    ensures TotalSize(n + 1, m, upTo) == TotalSize(n, m, upTo) + if n % m < upTo then 1 else 0
  {
    if upTo > 0 {
      TotalSizeStep(n, m, upTo - 1);
      SlotStep(n, m, upTo - 1);
    }
  }

  lemma {:induction false} TotalSizeEmpty(m: nat, upTo: nat)
    requires upTo <= m
    ensures TotalSize(0, m, upTo) == 0
  {
    if upTo > 0 {
      TotalSizeEmpty(m, upTo - 1);
    }
  }

  /** Conservation: the slots together hold every item exactly once. */
  lemma {:induction false} SlotsPartition(n: nat, m: nat)
    requires 0 < m
    ensures TotalSize(n, m, m) == n
  {
    if n == 0 {
      TotalSizeEmpty(m, m);
    } else {
      SlotsPartition(n - 1, m);
      TotalSizeStep(n - 1, m, m);
    }
  }
}
