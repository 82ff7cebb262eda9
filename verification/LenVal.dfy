/** Byte strings of variable length, most significant byte first, as jtag/lenval.c handles them. */
module LenVal {
  import opened Bits
  import opened Longs

  type Byte = b: nat | b < 256

  /** The bits of a byte, least significant first. */
  function ByteBits(b: Byte): seq<bool> { seq(8, i requires 0 <= i < 8 => Bit(b, i)) }

  /** All bits of a byte string, in the order they are shifted: last byte first, low bit first. */
  function BitsOf(v: seq<Byte>): (r: seq<bool>)
    ensures |r| == 8 * |v|
  {
    if v == [] then [] else ByteBits(v[|v| - 1]) + BitsOf(v[..|v| - 1])
  }

  lemma {:induction false} BitsOfAt(v: seq<Byte>, i: nat, k: nat)
    requires i < |v| && k < 8
    ensures BitsOf(v)[8 * i + k] == Bit(v[|v| - 1 - i], k)
    decreases i
  {
    var u := v[..|v| - 1];
    var b := ByteBits(v[|v| - 1]);
    assert BitsOf(v) == b + BitsOf(u);
    if i == 0 {
      assert (b + BitsOf(u))[k] == b[k];
    } else {
      BitsOfAt(u, i - 1, k);
      assert (b + BitsOf(u))[8 * i + k] == BitsOf(u)[8 * (i - 1) + k];
    }
  }

  /** The number whose binary digits are bs, least significant first. */
  function FromBits(bs: seq<bool>): nat {
    if bs == [] then 0 else (if bs[0] then 1 else 0) + 2 * FromBits(bs[1..])
  }

  lemma {:induction false} FromBitsBound(bs: seq<bool>)
    ensures FromBits(bs) < Pow2(|bs|)
  {
    if bs != [] { FromBitsBound(bs[1..]); }
  }

  lemma {:induction false} FromBitsAt(bs: seq<bool>, k: nat)
    ensures Bit(FromBits(bs), k) <==> k < |bs| && bs[k]
    decreases k
  {
    if bs == [] {
      BitZero(k);
    } else if k > 0 {
      assert FromBits(bs) / 2 == FromBits(bs[1..]);
      FromBitsAt(bs[1..], k - 1);
    }
  }

  /** Setting the bit after the last one appends a digit. */
  lemma SetNextBit(bs: seq<bool>, t: bool)
    ensures Or(FromBits(bs), if t then Pow2(|bs|) else 0) == FromBits(bs + [t])
  {
    var x := if t then Pow2(|bs|) else 0;
    forall k: nat ensures Bit(Or(FromBits(bs), x), k) <==> Bit(FromBits(bs + [t]), k) {
      BitOr(FromBits(bs), x, k);
      FromBitsAt(bs, k);
      FromBitsAt(bs + [t], k);
      BitPow2(|bs|, k);
      BitZero(k);
    }
    SameBits(Or(FromBits(bs), x), FromBits(bs + [t]));
  }

  function Least(a: nat, b: nat): nat { if a < b then a else b }

  /** n bytes holding the bits bs, padded with zeros at the most significant end. */
  function PackBits(bs: seq<bool>, n: nat): (r: seq<Byte>)
    requires |bs| <= 8 * n
    ensures |r| == n
    decreases n
  {
    if n == 0 then []
    else
      var k := Least(8, |bs|);
      FromBitsBound(bs[..k]);
      PowBound(k);
      PackBits(bs[k..], n - 1) + [FromBits(bs[..k])]
  }

  lemma PowBound(k: nat)
    requires k <= 8
    ensures Pow2(k) <= 256
  {
    Pow2Values();
    if k != 8 { assert Pow2(5) == 32 && Pow2(6) == 64; }
  }

  lemma {:induction false} PackBitsAt(bs: seq<bool>, n: nat, p: nat)
    requires |bs| <= 8 * n && p < 8 * n
    ensures BitsOf(PackBits(bs, n))[p] == (p < |bs| && bs[p])
    decreases n
  {
    var r := PackBits(bs, n);
    var k := Least(8, |bs|);
    assert r[..n - 1] == PackBits(bs[k..], n - 1);
    if p < 8 {
      FromBitsAt(bs[..k], p);
    } else {
      PackBitsAt(bs[k..], n - 1, p - 8);
      assert BitsOf(r)[p] == BitsOf(r[..n - 1])[p - 8];
    }
  }

  /** Byte strings of equal length with the same bits are equal. */
  lemma SameBitsOf(v: seq<Byte>, w: seq<Byte>)
    requires |v| == |w| && BitsOf(v) == BitsOf(w)
    ensures v == w
  {
    Pow2Values();
    forall j | 0 <= j < |v| ensures v[j] == w[j] {
      var i := |v| - 1 - j;
      forall k: nat ensures Bit(v[j], k) <==> Bit(w[j], k) {
        if k < 8 {
          BitsOfAt(v, i, k);
          BitsOfAt(w, i, k);
        } else {
          BitBeyond(v[j], 8, k);
          BitBeyond(w[j], 8, k);
        }
      }
      SameBits(v[j], w[j]);
    }
  }

  /** Packing and unpacking bits are inverse. */
  lemma PackUnpack(v: seq<Byte>, bs: seq<bool>, n: nat)
    requires |bs| <= 8 * n
    ensures BitsOf(PackBits(bs, n))[..|bs|] == bs
    ensures PackBits(BitsOf(v), |v|) == v
  {
    forall p | 0 <= p < |bs| ensures BitsOf(PackBits(bs, n))[p] == bs[p] { PackBitsAt(bs, n, p); }
    forall p | 0 <= p < 8 * |v| ensures BitsOf(PackBits(BitsOf(v), |v|))[p] == BitsOf(v)[p] {
      PackBitsAt(BitsOf(v), |v|, p);
    }
    SameBitsOf(PackBits(BitsOf(v), |v|), v);
  }

  // ---------- numbers ----------

  function BigEndian(v: seq<Byte>): nat {
    if v == [] then 0 else 256 * BigEndian(v[..|v| - 1]) + v[|v| - 1]
  }

  lemma {:induction false} BigEndianIsBits(v: seq<Byte>, bs: seq<bool>)
    requires |bs| <= 8 * |v| && v == PackBits(bs, |v|)
    ensures BigEndian(v) == FromBits(bs)
    decreases |v|
  {
    if v == [] {
    } else {
      var k := Least(8, |bs|);
      var n := |v|;
      assert v[..n - 1] == PackBits(bs[k..], n - 1);
      BigEndianIsBits(v[..n - 1], bs[k..]);
      SplitValue(bs, k);
      if |bs| < 8 {
        assert bs[k..] == [] && FromBits(bs[k..]) == 0;
      }
    }
  }

  lemma {:induction false} SplitValue(bs: seq<bool>, k: nat)
    requires k <= |bs|
    ensures FromBits(bs) == FromBits(bs[..k]) + Pow2(k) * FromBits(bs[k..])
    decreases k
  {
    if k == 0 {
      assert bs[..0] == [] && bs[0..] == bs;
    } else {
      SplitValue(bs[1..], k - 1);
      assert bs[1..][..k - 1] == bs[..k][1..] && bs[1..][k - 1..] == bs[k..];
      DoubleProduct(Pow2(k - 1), FromBits(bs[k..]));
    }
  }

  /** value(): the number is put together in a long. */
  method Value(v: seq<Byte>, w: Width) returns (r: int)
    ensures r == AsLong(w, BigEndian(v))
  {
    hide AsLong;
    r := 0;
    SmallIsLong(w, 0);
    for i := 0 to |v|
      invariant r == AsLong(w, BigEndian(v[..i]))
    {
      assert v[..i + 1][..i] == v[..i];
      AsLongByte(w, BigEndian(v[..i]), v[i]);
      r := AsLong(w, 256 * r + v[i]);
    }
    assert v[..|v|] == v;
  }

  /** The low n bytes of x. */
  function ToBytes(x: nat, n: nat): (r: seq<Byte>)
    ensures |r| == n
    decreases n
  {
    if n == 0 then [] else ToBytes(x / 256, n - 1) + [x % 256]
  }

  function Pow256(n: nat): nat { if n == 0 then 1 else 256 * Pow256(n - 1) }

  lemma {:induction false} ToBytesOf(v: seq<Byte>, c: nat)
    ensures ToBytes(BigEndian(v) + c * Pow256(|v|), |v|) == v
    decreases |v|
  {
    if v != [] {
      var n := |v|;
      var x := BigEndian(v) + c * Pow256(n);
      assert c * Pow256(n) == 256 * (c * Pow256(n - 1));
      assert x / 256 == BigEndian(v[..n - 1]) + c * Pow256(n - 1) && x % 256 == v[n - 1];
      ToBytesOf(v[..n - 1], c);
    }
  }

  /** a + b modulo 256^n, in n bytes. */
  function Sum(a: seq<Byte>, b: seq<Byte>): seq<Byte> { ToBytes(BigEndian(a) + BigEndian(b), |a|) }

  lemma {:induction false} ToBytesValue(x: nat, n: nat)
    ensures BigEndian(ToBytes(x, n)) < Pow256(n)
    ensures exists q: nat :: x == BigEndian(ToBytes(x, n)) + q * Pow256(n)
    decreases n
  {
    if n == 0 {
      assert x == BigEndian(ToBytes(x, n)) + x * Pow256(n);
    } else {
      ToBytesValue(x / 256, n - 1);
      var r := ToBytes(x, n);
      assert r[..n - 1] == ToBytes(x / 256, n - 1);
      var q: nat :| x / 256 == BigEndian(ToBytes(x / 256, n - 1)) + q * Pow256(n - 1);
      assert 256 * (q * Pow256(n - 1)) == q * Pow256(n);
      assert x == BigEndian(r) + q * Pow256(n);
    }
  }

  /** Sum is addition modulo 256^n. */
  lemma SumIsModular(a: seq<Byte>, b: seq<Byte>)
    ensures Pow256(|a|) > 0
    ensures BigEndian(Sum(a, b)) == (BigEndian(a) + BigEndian(b)) % Pow256(|a|)
  {
    var x := BigEndian(a) + BigEndian(b);
    var p := Pow256(|a|);
    ToBytesValue(x, |a|);
    var q: nat :| x == BigEndian(Sum(a, b)) + q * p;
    RemainderIs(x, p, q, BigEndian(Sum(a, b)));
  }

  lemma {:induction false} SuffixValue(v: seq<Byte>, i: nat)
    requires i < |v|
    ensures BigEndian(v[i..]) == v[i] * Pow256(|v| - i - 1) + BigEndian(v[i + 1..])
    decreases |v| - i
  {
    var n := |v|;
    if i == n - 1 {
      assert v[i..] == [v[i]] && v[i + 1..] == [];
      assert [v[i]][..0] == [];
      assert BigEndian([v[i]]) == 256 * BigEndian([]) + v[i];
    } else {
      var u := v[..n - 1];
      SuffixValue(u, i);
      assert v[i..][..n - i - 1] == u[i..];
      assert v[i + 1..][..n - i - 2] == u[i + 1..];
      assert u[i] * Pow256(n - i - 1) == 256 * (u[i] * Pow256(n - i - 2));
    }
  }

  /** addVal, with the result stored over the first operand as the player uses it. */
  method AddVal(a: seq<Byte>, b: seq<Byte>) returns (r: seq<Byte>)
    requires |a| == |b|
    ensures r == Sum(a, b)
  {
    r := a;
    var n := |a|;
    var carry := 0;
    var i := n;
    assert a[n..] == [] && b[n..] == [] && r[n..] == [];
    while i > 0
      invariant 0 <= i <= n == |r| && 0 <= carry <= 1
      invariant r[..i] == a[..i]
      invariant BigEndian(r[i..]) + carry * Pow256(n - i) == BigEndian(a[i..]) + BigEndian(b[i..])
    {
      i := i - 1;
      var sum := r[i] + b[i] + carry;
      ghost var before := r;
      assert r[i] == r[..i + 1][i] == a[i];
      r := r[i := sum % 256];
      AddByte(a, b, before, r, i, carry, if sum > 255 then 1 else 0);
      carry := if sum > 255 then 1 else 0;
      assert r[..i] == a[..i];
    }
    assert r[0..] == r && a[0..] == a && b[0..] == b;
    ToBytesOf(r, carry);
  }

  lemma AddByte(a: seq<Byte>, b: seq<Byte>, before: seq<Byte>, r: seq<Byte>, i: nat, c: nat, c': nat)
    requires |a| == |b| == |before| == |r| && i < |a|
    requires r[i + 1..] == before[i + 1..] && r[i] + 256 * c' == a[i] + b[i] + c
    requires BigEndian(before[i + 1..]) + c * Pow256(|a| - i - 1) == BigEndian(a[i + 1..]) + BigEndian(b[i + 1..])
    ensures BigEndian(r[i..]) + c' * Pow256(|a| - i) == BigEndian(a[i..]) + BigEndian(b[i..])
  {
    SuffixValue(a, i);
    SuffixValue(b, i);
    SuffixValue(r, i);
    CarryStep(a[i], b[i], c, Pow256(|a| - i - 1), r[i], c');
  }

  lemma CarryStep(x: nat, y: nat, c: nat, p: nat, d: nat, c': nat)
    requires x + y + c == d + 256 * c'
    ensures d * p + c' * (256 * p) == x * p + y * p + c * p
  {
    assert d * p + c' * (256 * p) == (d + 256 * c') * p;
    assert x * p + y * p + c * p == (x + y + c) * p;
  }

  // ---------- comparison ----------

  ghost predicate SameUnder(a: nat, b: nat, m: nat) {
    forall k: nat :: k < 8 && Bit(m, k) ==> (Bit(a, k) <==> Bit(b, k))
  }

  /** The mask byte that applies at i: without a mask, every bit counts. */
  function MaskAt(mask: seq<Byte>, masked: bool, i: nat): Byte
    requires masked ==> i < |mask|
  {
    if masked then mask[i] else 255
  }

  /** The bits selected by the mask are equal over the expected length. */
  ghost predicate Matches(expected: seq<Byte>, captured: seq<Byte>, mask: seq<Byte>, masked: bool)
    requires |captured| >= |expected| && (masked ==> |mask| >= |expected|)
  {
    forall i :: 0 <= i < |expected| ==> SameUnder(expected[i], captured[i], MaskAt(mask, masked, i))
  }

  lemma MaskedByteEqual(a: nat, b: nat, m: nat)
    requires m < 256
    ensures And(a, m) == And(b, m) <==> SameUnder(a, b, m)
  {
    Pow2Values();
    if SameUnder(a, b, m) {
      forall k: nat ensures Bit(And(a, m), k) <==> Bit(And(b, m), k) {
        BitAnd(a, m, k);
        BitAnd(b, m, k);
        if k >= 8 { BitBeyond(m, 8, k); }
      }
      SameBits(And(a, m), And(b, m));
    }
    if And(a, m) == And(b, m) {
      forall k: nat | k < 8 && Bit(m, k) ensures Bit(a, k) <==> Bit(b, k) {
        BitAnd(a, m, k);
        BitAnd(b, m, k);
      }
    }
  }

  lemma AllOnes(a: nat)
    requires a < 256
    ensures And(a, 255) == a
  {
    Pow2Values();
    forall k: nat ensures Bit(And(a, 255), k) <==> Bit(a, k) {
      BitAnd(a, 255, k);
      BitOnes(0, 8, k);
      if k >= 8 { BitBeyond(a, 8, k); }
    }
    SameBits(And(a, 255), a);
  }

  /** EqualLenVal */
  method EqualLenVal(expected: seq<Byte>, captured: seq<Byte>, mask: seq<Byte>, masked: bool) returns (equal: bool)
    requires |captured| >= |expected| && (masked ==> |mask| >= |expected|)
    ensures equal <==> Matches(expected, captured, mask, masked)
  {
    equal := true;
    var i := |expected|;
    while equal && i > 0
      invariant 0 <= i <= |expected|
      invariant equal <==> forall j :: i <= j < |expected| ==> SameUnder(expected[j], captured[j], MaskAt(mask, masked, j))
    {
      i := i - 1;
      var val1: nat := expected[i];
      var val2: nat := captured[i];
      MaskedByteEqual(val1, val2, MaskAt(mask, masked, i));
      AllOnes(val1);
      AllOnes(val2);
      if masked {
        val1 := And(val1, mask[i]);
        val2 := And(val2, mask[i]);
      }
      if val1 != val2 {
        equal := false;
      }
    }
  }
}
