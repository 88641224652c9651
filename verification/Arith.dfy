/** Machine-integer readings and the few facts about division that the
    ring and address arithmetic rests on. */
module Arith {

  const TWO56: nat := 0x100_0000_0000_0000
  const TWO63: nat := 0x8000_0000_0000_0000
  const TWO64: nat := 0x1_0000_0000_0000_0000

  /** The value a uint64_t holds after an assignment of `x`. */
  function U64(x: int): (r: nat)
    ensures r < TWO64
    ensures 0 <= x < TWO64 ==> r == x
  {
    x % TWO64
  }

  /** The difference of two uint64_t values, stored in an int64_t. */
  function SignedDistance(a: nat, b: nat): (d: int)
    ensures -(TWO63 as int) <= d < TWO63
    ensures -(TWO63 as int) < a - b < TWO63 ==> d == a - b
  {
    var u := U64(a - b);
    if u < TWO63 then u else u - TWO64
  }

  /** Ring position of the k-th item of a ring of `n` slots. */
  function Slot(k: nat, n: nat): (i: nat)
    requires n > 0
    ensures i < n
  {
    k % n
  }

  /** A quotient and a remainder determine the dividend and are determined by it. */
  lemma DivModUnique(q: nat, r: nat, d: nat)
    requires r < d
    ensures q * d + r >= 0
    ensures (q * d + r) / d == q
    ensures (q * d + r) % d == r
  {
    var x := q * d + r;
    assert x == d * (x / d) + x % d;
    if x / d < q {
      MulMono(x / d + 1, q, d);
    } else if x / d > q {
      MulMono(q + 1, x / d, d);
    }
  }

  lemma DivModSplit(x: nat, d: nat)
    requires d > 0
    ensures x == (x / d) * d + x % d
    ensures x % d < d
    ensures x % d <= x
    ensures x / d >= 0
  {
    MulMono(0, x / d, d);
  }

  lemma MulMono(a: nat, b: nat, d: nat)
    requires a <= b
    ensures a * d <= b * d
  {
    if a < b {
      MulMono(a, b - 1, d);
      assert b * d == (b - 1) * d + d;
    }
  }

  /** `x` lies in the row `q` of rows of length `d`. */
  lemma DivIs(x: nat, q: nat, d: nat)
    requires d > 0
    requires q * d <= x < q * d + d
    ensures x / d == q
    ensures x % d == x - q * d
  {
    DivModUnique(q, x - q * d, d);
  }

  /** An index below `a * b` splits into a row below `a` and a column below `b`. */
  lemma RowBound(x: nat, a: nat, b: nat)
    requires b > 0
    requires x < a * b
    ensures x / b < a
  {
    if x / b >= a {
      MulMono(a, x / b, b);
      DivModSplit(x, b);
    }
  }

  /** A row below `a` and a column below `b` make an index below `a * b`. */
  lemma CellBound(r: nat, c: nat, a: nat, b: nat)
    requires r < a
    requires c < b
    ensures 0 <= r * b + c < a * b
  {
    MulMono(r + 1, a, b);
    assert (r + 1) * b == r * b + b;
  }

  lemma SlotDistinct(a: nat, b: nat, n: nat)
    requires n > 0
    requires a < b < a + n
    ensures Slot(a, n) != Slot(b, n)
  {
    DivModSplit(a, n);
    DivModSplit(b, n);
    var qa, qb := a / n, b / n;
    if qb <= qa {
      MulMono(qb, qa, n);
    } else {
      MulMono(qa + 1, qb, n);
      assert (qa + 1) * n == qa * n + n;
    }
  }

  lemma SlotNext(k: nat, n: nat)
    requires n > 0
    ensures Slot(k + 1, n) == (Slot(k, n) + 1) % n
  {
    var q, r := k / n, Slot(k, n);
    DivModSplit(k, n);
    if r + 1 < n {
      DivModUnique(q, r + 1, n);
      DivModUnique(0, r + 1, n);
    } else {
      assert k + 1 == (q + 1) * n + 0;
      DivModUnique(q + 1, 0, n);
      DivModUnique(1, 0, n);
    }
  }

  lemma SlotSmall(k: nat, n: nat)
    requires k < n
    ensures Slot(k, n) == k
  {
    DivModUnique(0, k, n);
  }

  /** Adding `n` comes back to the same slot. */
  lemma SlotWrap(k: nat, n: nat)
    requires n > 0
    ensures Slot(k + n, n) == Slot(k, n)
  {
    DivModSplit(k, n);
    assert k + n == (k / n + 1) * n + k % n;
    DivModUnique(k / n + 1, k % n, n);
  }
}
