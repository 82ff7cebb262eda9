/** Unsigned machine words as natural numbers, described by their bits. */
module Bits {

  function Pow2(n: nat): (p: nat)
    ensures p > 0
  {
    if n == 0 then 1 else 2 * Pow2(n - 1)
  }

  lemma Pow2Values()
    ensures Pow2(1) == 2 && Pow2(2) == 4 && Pow2(3) == 8 && Pow2(4) == 16 && Pow2(7) == 128 && Pow2(8) == 256
    ensures Pow2(16) == 0x1_0000 && Pow2(22) == 0x40_0000 && Pow2(23) == 0x80_0000
    ensures Pow2(25) == 0x200_0000 && Pow2(27) == 0x800_0000 && Pow2(30) == 0x4000_0000
    ensures Pow2(31) == 0x8000_0000 && Pow2(32) == 0x1_0000_0000
  {
    assert Pow2(6) == 4 * Pow2(4);
    assert Pow2(10) == 4 * Pow2(8);
    assert Pow2(12) == 4 * Pow2(10);
    assert Pow2(14) == 4 * Pow2(12);
    assert Pow2(18) == 4 * Pow2(16);
    assert Pow2(20) == 4 * Pow2(18);
    assert Pow2(24) == 2 * Pow2(23);
    assert Pow2(26) == 2 * Pow2(25);
    assert Pow2(28) == 2 * Pow2(27);
  }

  /** Bit k of n, bit 0 being the least significant. */
  predicate Bit(n: nat, k: nat)
    decreases k
  {
    if k == 0 then n % 2 == 1 else Bit(n / 2, k - 1)
  }

  function And(a: nat, b: nat): nat {
    if a == 0 then 0 else (if a % 2 == 1 && b % 2 == 1 then 1 else 0) + 2 * And(a / 2, b / 2)
  }

  function Or(a: nat, b: nat): nat
    decreases a + b
  {
    if a == 0 then b else (if a % 2 == 1 || b % 2 == 1 then 1 else 0) + 2 * Or(a / 2, b / 2)
  }

  /** a & ~b */
  function AndNot(a: nat, b: nat): nat {
    if a == 0 then 0 else (if a % 2 == 1 && b % 2 == 0 then 1 else 0) + 2 * AndNot(a / 2, b / 2)
  }

  /** a << n without overflow, a >> n, and truncation to w bits. */
  function Shl(a: nat, n: nat): nat { if n == 0 then a else 2 * Shl(a, n - 1) }

  function Shr(a: nat, n: nat): nat
    decreases n
  {
    if n == 0 then a else Shr(a / 2, n - 1)
  }

  function Trunc(a: nat, w: nat): nat
    decreases w
  {
    if w == 0 then 0 else 2 * Trunc(a / 2, w - 1) + a % 2
  }

  lemma MulGrows(x: int, d: nat)
    requires x >= 1
    ensures x * d >= d
  {
    assert x * d == (x - 1) * d + d;
    assert (x - 1) * d >= 0;
  }

  lemma SameQuotient(d: nat, q: int, r: nat, q': int, r': nat)
    requires d > 0 && r < d && r' < d && q * d + r == q' * d + r'
    ensures q == q' && r == r'
  {
    if q > q' {
      MulGrows(q - q', d);
    } else if q < q' {
      MulGrows(q' - q, d);
    }
  }

  lemma DivMod(x: nat, p: nat) returns (q: nat, r: nat)
    requires p > 0
    ensures r < p && q * p + r == x && q == x / p && r == x % p
  {
    q, r := x / p, x % p;
  }

  lemma RemainderIs(x: nat, p: nat, q: nat, r: nat)
    requires p > 0 && r < p && x == r + q * p
    ensures x % p == r
  {
    var q', r' := DivMod(x, p);
    SameQuotient(p, q, r, q', r');
  }

  lemma HalveTwice(n: nat, p: nat)
    requires p > 0
    ensures n / 2 / p == n / (2 * p) && n % (2 * p) == 2 * (n / 2 % p) + n % 2
  {
    var q := n / 2 / p;
    var r := n / 2 % p;
    assert n == q * (2 * p) + (2 * r + n % 2) by { assert q * (2 * p) == 2 * (q * p); }
    SameQuotient(2 * p, q, 2 * r + n % 2, n / (2 * p), n % (2 * p));
  }

  lemma {:induction false} BitQuotient(n: nat, k: nat)
    ensures Bit(n, k) <==> n / Pow2(k) % 2 == 1
    decreases k
  {
    if k > 0 {
      BitQuotient(n / 2, k - 1);
      HalveTwice(n, Pow2(k - 1));
    }
  }

  lemma {:induction false} BitZero(k: nat)
    ensures !Bit(0, k)
  {
    if k > 0 { BitZero(k - 1); }
  }

  lemma {:induction false} BitAnd(a: nat, b: nat, k: nat)
    ensures Bit(And(a, b), k) <==> Bit(a, k) && Bit(b, k)
    decreases k
  {
    if a == 0 {
      BitZero(k);
    } else if k > 0 {
      assert And(a, b) / 2 == And(a / 2, b / 2);
      BitAnd(a / 2, b / 2, k - 1);
    }
  }

  lemma {:induction false} BitOr(a: nat, b: nat, k: nat)
    ensures Bit(Or(a, b), k) <==> Bit(a, k) || Bit(b, k)
    decreases k
  {
    if a == 0 {
      BitZero(k);
    } else if k > 0 {
      assert Or(a, b) / 2 == Or(a / 2, b / 2);
      BitOr(a / 2, b / 2, k - 1);
    }
  }

  lemma {:induction false} BitAndNot(a: nat, b: nat, k: nat)
    ensures Bit(AndNot(a, b), k) <==> Bit(a, k) && !Bit(b, k)
    decreases k
  {
    if a == 0 {
      BitZero(k);
    } else if k > 0 {
      assert AndNot(a, b) / 2 == AndNot(a / 2, b / 2);
      BitAndNot(a / 2, b / 2, k - 1);
    }
  }

  lemma {:induction false} BitShl(a: nat, n: nat, k: nat)
    ensures Bit(Shl(a, n), k) <==> k >= n && Bit(a, k - n)
    decreases n
  {
    if n > 0 {
      assert Shl(a, n) == 2 * Shl(a, n - 1);
      if k > 0 {
        BitShl(a, n - 1, k - 1);
      }
    }
  }

  lemma {:induction false} BitShr(a: nat, n: nat, k: nat)
    ensures Bit(Shr(a, n), k) <==> Bit(a, k + n)
    decreases n
  {
    if n > 0 {
      BitShr(a / 2, n - 1, k);
    }
  }

  lemma {:induction false} BitTrunc(a: nat, w: nat, k: nat)
    ensures Bit(Trunc(a, w), k) <==> k < w && Bit(a, k)
    decreases w
  {
    if w == 0 {
      BitZero(k);
    } else {
      if k > 0 { BitTrunc(a / 2, w - 1, k - 1); }
    }
  }

  /** A number below 2^w has no bit from w on. */
  lemma {:induction false} BitBeyond(a: nat, w: nat, k: nat)
    requires a < Pow2(w) && k >= w
    ensures !Bit(a, k)
    decreases w
  {
    if w == 0 {
      BitZero(k);
    } else {
      BitBeyond(a / 2, w - 1, k - 1);
    }
  }

  /** A mask of ones at positions lo..hi. */
  lemma {:induction false} BitOnes(lo: nat, hi: nat, k: nat)
    requires lo <= hi
    ensures Pow2(hi) >= Pow2(lo)
    ensures Bit(Pow2(hi) - Pow2(lo), k) <==> lo <= k < hi
    decreases hi
  {
    if lo == hi {
      BitZero(k);
    } else {
      var lo' := if lo == 0 then 0 else lo - 1;
      BitOnes(lo', hi - 1, if k == 0 then 0 else k - 1);
      assert (Pow2(hi) - Pow2(lo)) / 2 == Pow2(hi - 1) - Pow2(lo');
    }
  }

  lemma {:induction false} BitPow2(n: nat, k: nat)
    ensures Bit(Pow2(n), k) <==> k == n
  {
    BitOnes(n, n + 1, k);
    assert Pow2(n + 1) - Pow2(n) == Pow2(n);
  }

  /** Words with the same bits are equal. */
  lemma {:induction false} SameBits(a: nat, b: nat)
    requires forall k: nat :: Bit(a, k) <==> Bit(b, k)
    ensures a == b
    decreases a + b
  {
    if a == 0 && b == 0 {
    } else {
      assert Bit(a, 0) <==> Bit(b, 0);
      forall k: nat ensures Bit(a / 2, k) <==> Bit(b / 2, k) {
        assert Bit(a, k + 1) <==> Bit(b, k + 1);
      }
      SameBits(a / 2, b / 2);
    }
  }

  /** ... and a bound in bits is a bound in value. */
  lemma {:induction false} BoundByBits(a: nat, w: nat)
    requires forall k: nat :: k >= w ==> !Bit(a, k)
    ensures a < Pow2(w)
    decreases w
  {
    if w == 0 {
      if a > 0 {
        forall k: nat ensures Bit(a, k) <==> Bit(0, k) { BitZero(k); }
        SameBits(a, 0);
      }
    } else {
      forall k: nat | k >= w - 1 ensures !Bit(a / 2, k) { assert !Bit(a, k + 1); }
      BoundByBits(a / 2, w - 1);
    }
  }

  lemma TestBit(x: nat, j: nat)
    ensures And(x, Pow2(j)) != 0 <==> Bit(x, j)
  {
    if Bit(x, j) {
      BitAnd(x, Pow2(j), j);
      BitPow2(j, j);
      BitZero(j);
    } else {
      forall k: nat ensures Bit(And(x, Pow2(j)), k) <==> Bit(0, k) {
        BitAnd(x, Pow2(j), k);
        BitPow2(j, k);
        BitZero(k);
      }
      SameBits(And(x, Pow2(j)), 0);
    }
  }

  /** A word put together from a high and a low part. */
  lemma {:induction false} OrIsPlus(a: nat, b: nat, w: nat)
    requires b < Pow2(w)
    ensures Or(Shl(a, w), b) == Pow2(w) * a + b
    decreases w
  {
    hide Or;
    if w == 0 {
      assert b == 0;
      OrZero(a);
    } else {
      OrIsPlus(a, b / 2, w - 1);
      OrEven(Shl(a, w - 1), b);
      DoubleProduct(Pow2(w - 1), a);
    }
  }

  lemma OrEven(x: nat, b: nat)
    ensures Or(2 * x, b) == 2 * Or(x, b / 2) + b % 2
  {
  }

  lemma DoubleProduct(p: nat, a: nat)
    ensures (2 * p) * a == 2 * (p * a)
  {
  }

  lemma {:induction false} OrZero(a: nat)
    ensures Or(a, 0) == a
  {
    if a > 0 { OrZero(a / 2); }
  }

  // ---------- fields of a word ----------

  /** The n bits of w from position lo. */
  function Field(w: nat, lo: nat, n: nat): nat { Trunc(Shr(w, lo), n) }

  /** Ones in that place. */
  function Mask(lo: nat, n: nat): nat
  {
    BitOnes(lo, lo + n, 0);
    Pow2(lo + n) - Pow2(lo)
  }

  lemma FieldBit(w: nat, lo: nat, n: nat, k: nat)
    ensures Bit(Field(w, lo, n), k) <==> k < n && Bit(w, lo + k)
  {
    BitTrunc(Shr(w, lo), n, k);
    BitShr(w, lo, k);
  }

  lemma {:induction false} TruncIsMod(a: nat, w: nat)
    ensures Trunc(a, w) == a % Pow2(w)
    decreases w
  {
    if w > 0 {
      TruncIsMod(a / 2, w - 1);
      HalveTwice(a, Pow2(w - 1));
    }
  }

  predicate Apart(lo: nat, n: nat, lo2: nat, n2: nat) { lo + n <= lo2 || lo2 + n2 <= lo }

  /** w & ~mask empties the field and leaves every other one alone. */
  lemma FieldCleared(w: nat, lo: nat, n: nat, lo2: nat, n2: nat)
    ensures Field(AndNot(w, Mask(lo, n)), lo, n) == 0
    ensures Apart(lo, n, lo2, n2) ==> Field(AndNot(w, Mask(lo, n)), lo2, n2) == Field(w, lo2, n2)
  {
    hide Field, AndNot, Bit;
    var r := AndNot(w, Mask(lo, n));
    forall k: nat ensures Bit(Field(r, lo, n), k) <==> Bit(0, k) {
      FieldBit(r, lo, n, k);
      BitAndNot(w, Mask(lo, n), lo + k);
      BitOnes(lo, lo + n, lo + k);
      BitZero(k);
    }
    SameBits(Field(r, lo, n), 0);
    if Apart(lo, n, lo2, n2) {
      forall k: nat ensures Bit(Field(r, lo2, n2), k) <==> Bit(Field(w, lo2, n2), k) {
        FieldBit(r, lo2, n2, k);
        FieldBit(w, lo2, n2, k);
        BitAndNot(w, Mask(lo, n), lo2 + k);
        BitOnes(lo, lo + n, lo2 + k);
      }
      SameBits(Field(r, lo2, n2), Field(w, lo2, n2));
    }
  }

  /** w | (v << lo) fills an empty field and leaves every other one alone. */
  lemma FieldFilled(w: nat, v: nat, lo: nat, n: nat, lo2: nat, n2: nat)
    requires v < Pow2(n) && Field(w, lo, n) == 0
    ensures Field(Or(w, Shl(v, lo)), lo, n) == v
    ensures Apart(lo, n, lo2, n2) ==> Field(Or(w, Shl(v, lo)), lo2, n2) == Field(w, lo2, n2)
  {
    hide Field, Or, Shl, Bit;
    var r := Or(w, Shl(v, lo));
    forall k: nat ensures Bit(Field(r, lo, n), k) <==> Bit(v, k) {
      FieldBit(r, lo, n, k);
      FieldBit(w, lo, n, k);
      BitOr(w, Shl(v, lo), lo + k);
      BitShl(v, lo, lo + k);
      BitZero(k);
      if k >= n { BitBeyond(v, n, k); }
    }
    SameBits(Field(r, lo, n), v);
    if Apart(lo, n, lo2, n2) {
      forall k: nat ensures Bit(Field(r, lo2, n2), k) <==> Bit(Field(w, lo2, n2), k) {
        FieldBit(r, lo2, n2, k);
        FieldBit(w, lo2, n2, k);
        BitOr(w, Shl(v, lo), lo2 + k);
        BitShl(v, lo, lo2 + k);
        if lo2 + k >= lo + n { BitBeyond(v, n, lo2 + k - lo); }
      }
      SameBits(Field(r, lo2, n2), Field(w, lo2, n2));
    }
  }
}
