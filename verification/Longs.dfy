/** The C type long: at least 32 bits, two's complement, wrapping. */
module Longs {
  import opened Bits

  type Width = w: nat | w >= 32 witness 32

  function Half(w: Width): (h: int)
    ensures h > 0
  {
    Pow2(w - 1)
  }

  predicate IsLong(w: Width, x: int) { -Half(w) <= x < Half(w) }

  /** The value kept of x. */
  function AsLong(w: Width, x: int): int { (x + Half(w)) % (2 * Half(w)) - Half(w) }

  lemma AsLongIs(w: Width, x: int)
    ensures IsLong(w, AsLong(w, x))
    ensures exists q: int :: x == AsLong(w, x) + q * (2 * Half(w))
    ensures IsLong(w, x) ==> AsLong(w, x) == x
    ensures Half(w) <= x < 3 * Half(w) ==> AsLong(w, x) == x - 2 * Half(w)
    ensures -3 * Half(w) <= x < -Half(w) ==> AsLong(w, x) == x + 2 * Half(w)
  {
    var p := 2 * Half(w);
    var q := (x + Half(w)) / p;
    assert x + Half(w) == p * q + (x + Half(w)) % p;
    assert x == AsLong(w, x) + q * p;
    if IsLong(w, x) { SameQuotient(p, q, (x + Half(w)) % p, 0, x + Half(w)); }
    if Half(w) <= x < 3 * Half(w) { SameQuotient(p, q, (x + Half(w)) % p, 1, x + Half(w) - p); }
    if -3 * Half(w) <= x < -Half(w) { SameQuotient(p, q, (x + Half(w)) % p, -1, x + Half(w) + p); }
  }

  /** Values that differ by a multiple of the modulus are kept as the same. */
  lemma AsLongSame(w: Width, x: int, y: int, q: int)
    requires x == y + q * (2 * Half(w))
    ensures AsLong(w, x) == AsLong(w, y)
  {
    var p := 2 * Half(w);
    var a, b := (x + Half(w)) / p, (y + Half(w)) / p;
    assert x + Half(w) == p * a + (x + Half(w)) % p && y + Half(w) == p * b + (y + Half(w)) % p;
    assert p * a + (x + Half(w)) % p == p * (b + q) + (y + Half(w)) % p;
    SameQuotient(p, a, (x + Half(w)) % p, b + q, (y + Half(w)) % p);
  }

  /** Appending a byte to a value that has wrapped. */
  lemma AsLongByte(w: Width, x: int, b: int)
    ensures AsLong(w, 256 * AsLong(w, x) + b) == AsLong(w, 256 * x + b)
  {
    AsLongIs(w, x);
    var q: int :| x == AsLong(w, x) + q * (2 * Half(w));
    assert 256 * x + b == 256 * AsLong(w, x) + b + (256 * q) * (2 * Half(w));
    AsLongSame(w, 256 * x + b, 256 * AsLong(w, x) + b, 256 * q);
  }

  lemma {:induction false} HalfGrows(k: nat)
    requires k >= 31
    ensures Pow2(k) >= 0x8000_0000
    decreases k
  {
    Pow2Values();
    if k > 31 { HalfGrows(k - 1); }
  }

  lemma SmallIsLong(w: Width, x: int)
    requires 0 <= x < 0x8000_0000
    ensures IsLong(w, x) && AsLong(w, x) == x
  {
    HalfGrows(w - 1);
    AsLongIs(w, x);
  }

  // ---------- a value that grows by a quarter ----------

  /** `t += t >> 2`; the shift rounds down. */
  function Longer(w: Width, t: int): int { AsLong(w, t + t / 4) }

  /** The same k times without wrapping. */
  function Grown(t: nat, k: nat): nat
    decreases k
  {
    if k == 0 then t else Grown(t + t / 4, k - 1)
  }

  lemma {:induction false} GrownGrows(t: nat, k: nat)
    ensures Grown(t, k) >= t && (t == 0 ==> Grown(t, k) == 0)
    decreases k
  {
    if k > 0 { GrownGrows(t + t / 4, k - 1); }
  }

  lemma {:induction false} GrownMonotone(t: nat, j: nat, k: nat)
    requires j <= k
    ensures Grown(t, j) <= Grown(t, k)
    decreases j
  {
    if j == 0 { GrownGrows(t, k); } else { GrownMonotone(t + t / 4, j - 1, k - 1); }
  }

  /** A positive value grows until it no longer fits, and then turns negative; only zero stays zero. */
  lemma LongerIs(w: Width, t: int)
    requires IsLong(w, t)
    ensures IsLong(w, Longer(w, t)) && (Longer(w, t) == 0 <==> t == 0)
    ensures t >= 0 && t + t / 4 < Half(w) ==> Longer(w, t) == t + t / 4
    ensures t >= 0 && t + t / 4 >= Half(w) ==> Longer(w, t) < 0
  {
    HalfGrows(w - 1);
    AsLongIs(w, t + t / 4);
  }
}
