/**
 * Bit tests on unsigned words written as integer arithmetic: `x & (1 << k)`
 * is non-zero exactly when `x / 2^k` is odd. The facts about Euclidean
 * division below are what the proofs about those tests rest on.
 */
module Bits {

  function Pow2(k: nat): (r: nat)
    ensures r > 0
  {
    if k == 0 then 1 else 2 * Pow2(k - 1)
  }

  /** `x & (1 << k) != 0`. */
  predicate BitSet(x: nat, k: nat) {
    (x / Pow2(k)) % 2 == 1
  }

  lemma MulNonneg(a: int, b: int)
    requires a >= 0 && b >= 0
    ensures a * b >= 0
  {
  }

  lemma MulSwap(a: int, b: int, c: int)
    ensures (a * b) * c == (a * c) * b
  {
  }

  /** Quotient and remainder are unique. */
  lemma DivUnique(x: int, p: int, q: int, r: int)
    requires p > 0 && 0 <= r < p && x == q * p + r
    ensures x / p == q
  {
    var q', r' := x / p, x % p;
    assert x == q' * p + r';
    var m := q' - q;
    assert m * p == r - r';
    if m >= 1 {
      assert m * p == (m - 1) * p + p;
      MulNonneg(m - 1, p);
    } else if m <= -1 {
      assert m * p == (m + 1) * p - p;
      MulNonneg(-(m + 1), p);
    }
  }

  /** A whole multiple of the divisor passes through the division. */
  lemma DivSplit(x: nat, a: nat, b: nat, p: nat)
    requires p > 0 && x == a * p + b
    ensures x / p == a + b / p
  {
    assert b == (b / p) * p + b % p;
    assert x == (a + b / p) * p + b % p;
    DivUnique(x, p, a + b / p, b % p);
  }

  lemma Pow2DividesByte(k: nat)
    requires k < 8
    ensures (128 / Pow2(k)) * Pow2(k) == 128
  {
    match k
    case 0 => case 1 => case 2 => case 3 =>
    case 4 => case 5 => case 6 => case 7 =>
  }

  lemma ParityOfShifted(x: nat, y: nat)
    ensures (2 * x + y) % 2 == y % 2
  {
  }

  /** Adding whole multiples of 256 changes none of bits 0 to 7. */
  lemma HighBytesIgnored(hi: nat, lo: nat, k: nat)
    requires lo < 256 && k < 8
    ensures BitSet(256 * hi + lo, k) == BitSet(lo, k)
  {
    var p := Pow2(k);
    var x := (128 / p) * hi;
    assert x * p == 128 * hi by {
      Pow2DividesByte(k);
      MulSwap(128 / p, hi, p);
    }
    assert 256 * hi + lo == (2 * x) * p + lo by {
      Double(x, p);
    }
    DivSplit(256 * hi + lo, 2 * x, lo, p);
    ParityOfShifted(x, lo / p);
  }

  lemma Double(x: int, p: int)
    ensures (2 * x) * p == 2 * (x * p)
  {
  }

  /** Bits 0 to 7 of a word are those of its low byte, `x & 0xff`. */
  lemma LowByteBit(x: nat, k: nat)
    requires k < 8
    ensures BitSet(x, k) == BitSet(x % 256, k)
  {
    HighBytesIgnored(x / 256, x % 256, k);
  }

  /** The remainder by 2^k adds bit k-1 to the remainder by 2^(k-1). */
  lemma ModStep(d: nat, k: nat)
    requires k > 0
    ensures d % Pow2(k) == d % Pow2(k - 1) + (if BitSet(d, k - 1) then Pow2(k - 1) else 0)
  {
    var p := Pow2(k - 1);
    assert Pow2(k) == 2 * p;
    var q, r := d / p, d % p;
    var h, b := q / 2, q % 2;
    var qp, hp, bp := q * p, h * (2 * p), b * p;
    assert d == qp + r;
    assert qp == hp + bp by {
      assert q == 2 * h + b;
    }
    assert bp == (if b == 1 then p else 0);
    DivUnique(d, 2 * p, h, bp + r);
  }
}
