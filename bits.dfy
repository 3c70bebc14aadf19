/** Python's integer bit operations, over the infinite two's-complement form of an `int`. */
module Bits {

  function Pow2(k: nat): (p: nat)
    ensures p >= 1
  {
    if k == 0 then 1 else 2 * Pow2(k - 1)
  }

  /** `x & m` for a non-negative mask `m`, one bit at a time (`x % 2` is bit 0, `x / 2` is `x >> 1`). */
  function And(x: int, m: nat): (r: nat)
    ensures r <= m
    decreases m
  {
    if m == 0 then 0
    else 2 * And(x / 2, m / 2) + (if x % 2 == 1 && m % 2 == 1 then 1 else 0)
  }

  /** `x & ~m` for a non-negative `m`; `~m` is negative, so the result keeps the sign of `x`. */
  function AndNot(x: int, m: nat): (r: int)
    ensures r <= x
    ensures x >= 0 ==> r >= 0
    decreases m
  {
    if m == 0 then x
    else 2 * AndNot(x / 2, m / 2) + (if x % 2 == 1 && m % 2 == 0 then 1 else 0)
  }

  /** `x >> k`, which rounds toward minus infinity. */
  function Shr(x: int, k: nat): (r: int)
    ensures Pow2(k) * r <= x < Pow2(k) * (r + 1)
  {
    x / Pow2(k)
  }

  /** `n.bit_length()`: the number of binary digits of `n`. */
  function BitLength(n: nat): (r: nat)
    ensures (n == 0) == (r == 0)
    ensures n < Pow2(r)
    ensures r > 0 ==> Pow2(r - 1) <= n
  {
    if n == 0 then 0 else 1 + BitLength(n / 2)
  }

  /** Euclidean division is determined by its quotient and remainder. */
  lemma DivModUnique(x: int, d: int, q: int, r: int)
    requires d > 0 && 0 <= r < d && x == d * q + r
    ensures x / d == q && x % d == r
  {
    var q', r' := x / d, x % d;
    assert d * (q - q') == r' - r;
    if q - q' >= 1 {
      MulAtLeast(d, q - q');
      assert false;
    } else if q' - q >= 1 {
      MulAtLeast(d, q' - q);
      assert false;
    }
  }

  lemma MulAtLeast(d: nat, k: int)
    requires k >= 1
    ensures d * k >= d
  {
  }

  /** The remainder modulo 2p is bit 0 below twice the remainder of `x >> 1` modulo p. */
  lemma ModTwice(x: int, p: nat)
    requires p >= 1
    ensures x % (2 * p) == 2 * ((x / 2) % p) + x % 2
  {
    var q := x / 2;
    var hi, lo := q / p, q % p;
    assert q == p * hi + lo;
    assert x == (2 * p) * hi + (2 * lo + x % 2);
    DivModUnique(x, 2 * p, hi, 2 * lo + x % 2);
  }

  /** Masking with 2^k - 1 keeps the remainder modulo 2^k. */
  lemma {:induction false} AndLowMask(x: int, k: nat)
    ensures And(x, Pow2(k) - 1) == x % Pow2(k)
    decreases k
  {
    if k > 0 {
      var p := Pow2(k - 1);
      assert (Pow2(k) - 1) / 2 == p - 1 && (Pow2(k) - 1) % 2 == 1;
      AndLowMask(x / 2, k - 1);
      ModTwice(x, p);
    }
  }

  /** `x & ~m` and `x & m` split the bits of `x` between them. */
  lemma {:induction false} AndNotAndPartition(x: int, m: nat)
    ensures AndNot(x, m) + And(x, m) == x
    decreases m
  {
    if m > 0 {
      AndNotAndPartition(x / 2, m / 2);
    }
  }

  /** Clearing with ~(2^k - 1) rounds down to a multiple of 2^k. */
  lemma AndNotLowMask(x: int, k: nat)
    ensures AndNot(x, Pow2(k) - 1) == x - x % Pow2(k)
  {
    AndNotAndPartition(x, Pow2(k) - 1);
    AndLowMask(x, k);
  }

  /** 2^k - 1 has exactly k binary digits. */
  lemma {:induction false} BitLengthOfMask(k: nat)
    ensures BitLength(Pow2(k) - 1) == k
  {
    if k > 0 {
      assert (Pow2(k) - 1) / 2 == Pow2(k - 1) - 1;
      BitLengthOfMask(k - 1);
    }
  }
}
