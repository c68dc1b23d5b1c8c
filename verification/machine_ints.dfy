/** Machine integers of the benchmark programs: `usize` and `u64` are 64 bits wide, and the
    Rust saturating and wrapping operators are written out over mathematical integers. */
module MachineInts {

  const U64_LIMIT: nat := 0x1_0000_0000_0000_0000
  const U64_MAX: nat := U64_LIMIT - 1
  const U32_MAX: nat := 0xFFFF_FFFF

  /** A stored `usize` or `u64`. */
  type word = x: nat | x <= U64_MAX

  function Min(x: int, y: int): int { if x <= y then x else y }

  function Max(x: int, y: int): int { if x <= y then y else x }

  /** `saturating_add` on a 64-bit word. */
  function SatAdd(x: nat, y: nat): word { Min(x + y, U64_MAX) }

  /** `saturating_mul` on a 64-bit word. */
  function SatMul(x: nat, y: nat): word { Min(x * y, U64_MAX) }

  /** `saturating_sub`. */
  function SatSub(x: nat, y: nat): nat { if y <= x then x - y else 0 }

  /** `wrapping_add` on a 64-bit word. */
  function WrapAdd(x: nat, y: nat): word { (x + y) % U64_LIMIT }

  /** A requested size as the argument guards take it: at least one and, unless heavy sizes are
      allowed, at most `max`. */
  function Clamped(size: word, max: nat, allowHeavy: bool): nat {
    if allowHeavy then Max(size, 1) else Min(Max(size, 1), max)
  }

  /** `div_ceil`. */
  function DivCeil(x: nat, y: nat): nat
    requires y > 0
  {
    (x + y - 1) / y
  }

  /** `div_ceil` is the least quotient whose product covers `x`: it covers exactly the
      indices `k` with `k * y < x`. */
  lemma DivCeilCovers(x: nat, y: nat, k: nat)
    requires y > 0
    ensures k < DivCeil(x, y) <==> k * y < x
  {
    var q := DivCeil(x, y);
    assert q * y <= x + y - 1 < q * y + y;
    if k < q {
      assert (k + 1) * y <= q * y;
    } else {
      assert q * y <= k * y;
    }
  }

  /** Floor division is the largest multiple that fits. */
  lemma DivFits(x: nat, y: nat, q: nat)
    requires y > 0
    ensures q <= x / y <==> q * y <= x
  {
    assert x == x / y * y + x % y;
    if q <= x / y {
      assert q * y <= x / y * y;
    } else {
      assert (x / y + 1) * y <= q * y;
    }
  }

  /** Floor division is the largest factor whose product with `y` fits. */
  lemma LargestFactor(x: nat, y: nat, factor: nat)
    requires 1 <= y <= x
    ensures 1 <= x / y && x / y * y <= x < (x / y + 1) * y
    ensures factor * y > x ==> x / y < factor
  {
    DivFits(x, y, 1);
    DivFits(x, y, x / y);
    DivFits(x, y, x / y + 1);
    DivFits(x, y, factor);
  }

  /** The quotient and the remainder are the only decomposition of `x` by `m`. */
  lemma DivModUnique(x: nat, m: nat, q: nat, r: nat)
    requires m > 0 && r < m && x == q * m + r
    ensures x / m == q && x % m == r
  {
    assert q == x / m by {
      DivFits(x, m, q);
      assert (q + 1) * m == q * m + m;
      DivFits(x, m, q + 1);
    }
    assert x == x / m * m + x % m;
  }

  /** Multiplication by a natural keeps the order. */
  lemma ProductMonotone(x: int, y: int, factor: nat)
    requires x <= y
    ensures x * factor <= y * factor && factor * x <= factor * y
  {
    assert (y - x) * factor >= 0;
  }

  /** A common factor may be cancelled. */
  lemma ProductCancel(factor: nat, x: int, y: int)
    ensures factor * x < factor * y ==> x < y
  {
    if y <= x {
      ProductMonotone(y, x, factor);
    }
  }

  /** Wrapping accumulation computes the exact sum modulo the word size. */
  lemma WrapAddMod(x: nat, y: nat)
    ensures WrapAdd(x % U64_LIMIT, y) == (x + y) % U64_LIMIT
    ensures WrapAdd(x % U64_LIMIT, y % U64_LIMIT) == (x + y) % U64_LIMIT
  {
    var m := U64_LIMIT;
    SumMod(x, y, m);
    SumMod(y, x % m, m);
  }

  /** A summand may be reduced before adding. */
  lemma SumMod(x: nat, y: nat, m: nat)
    requires m > 0
    ensures (x % m + y) % m == (x + y) % m
  {
    var sum := x % m + y;
    assert x == x / m * m + x % m && sum == sum / m * m + sum % m;
    assert (x / m + sum / m) * m == x / m * m + sum / m * m;
    DivModUnique(x + y, m, x / m + sum / m, sum % m);
  }

  /** Saturating accumulation computes the exact sum capped at the word maximum. */
  lemma SatAddCap(x: nat, y: nat)
    ensures SatAdd(Min(x, U64_MAX), y) == Min(x + y, U64_MAX)
    ensures SatAdd(Min(x, U64_MAX), Min(y, U64_MAX)) == Min(x + y, U64_MAX)
  {
  }
}
