/** The Adler-32 checksum: sums kept unreduced over a block and sixteen bytes at a time, against the
    byte-at-a-time definition of section 2.2 of RFC 1950. */
module Adler32 {
  import opened Bits
  import opened LenVal

  const BASE: nat := 65521
  const NMAX: nat := 5552
  const WORD: nat := 0x1_0000_0000

  // ---------- RFC 1950 ----------

  datatype Sums = Sums(s1: nat, s2: nat)

  /** Every byte is added to s1 and the new s1 to s2, both modulo 65521. */
  function Rfc(s: Sums, data: seq<Byte>): Sums
    decreases |data|
  {
    if data == [] then s else
      var t := Rfc(s, data[..|data| - 1]);
      var s1 := (t.s1 + data[|data| - 1]) % BASE;
      Sums(s1, (t.s2 + s1) % BASE)
  }

  /** A checksum holds s1 in its low half and s2 in the high half. */
  function Halves(adler: nat): Sums { Sums(adler % 65536, adler / 65536 % 65536) }

  function Whole(s: Sums): nat { 65536 * s.s2 + s.s1 }

  function Checksum(adler: nat, data: seq<Byte>): nat { Whole(Rfc(Halves(adler), data)) }

  lemma {:induction false} RfcConcat(s: Sums, a: seq<Byte>, b: seq<Byte>)
    ensures Rfc(s, a + b) == Rfc(Rfc(s, a), b)
    decreases |b|
  {
    if b == [] {
      assert a + b == a;
    } else {
      assert (a + b)[..|a + b| - 1] == a + b[..|b| - 1];
      RfcConcat(s, a, b[..|b| - 1]);
    }
  }

  predicate HalfWords(s: Sums) { s.s1 < 65536 && s.s2 < 65536 }

  lemma RfcHalfWords(s: Sums, data: seq<Byte>)
    requires HalfWords(s)
    ensures HalfWords(Rfc(s, data))
  {
  }

  lemma HalvesOfWhole(s: Sums)
    requires HalfWords(s)
    ensures Halves(Whole(s)) == s
  {
  }

  /** A running checksum: feeding a buffer in pieces gives the checksum of the whole. */
  lemma ChecksumConcat(adler: nat, a: seq<Byte>, b: seq<Byte>)
    ensures Checksum(Checksum(adler, a), b) == Checksum(adler, a + b)
  {
    RfcConcat(Halves(adler), a, b);
    RfcHalfWords(Halves(adler), a);
    HalvesOfWhole(Rfc(Halves(adler), a));
  }

  // ---------- the sums without reduction ----------

  function Raw(s: Sums, data: seq<Byte>): Sums
    decreases |data|
  {
    if data == [] then s else
      var t := Raw(s, data[..|data| - 1]);
      Sums(t.s1 + data[|data| - 1], t.s2 + t.s1 + data[|data| - 1])
  }

  lemma {:induction false} RawConcat(s: Sums, a: seq<Byte>, b: seq<Byte>)
    ensures Raw(s, a + b) == Raw(Raw(s, a), b)
    decreases |b|
  {
    if b == [] {
      assert a + b == a;
    } else {
      assert (a + b)[..|a + b| - 1] == a + b[..|b| - 1];
      RawConcat(s, a, b[..|b| - 1]);
    }
  }

  lemma {:induction false} RawGrows(s: Sums, data: seq<Byte>)
    ensures var t := Raw(s, data); s.s1 <= t.s1 && s.s2 <= t.s2 && (data != [] ==> t.s1 <= t.s2)
    decreases |data|
  {
    if data != [] { RawGrows(s, data[..|data| - 1]); }
  }

  lemma AddMod(a: nat, b: nat)
    ensures (a % BASE + b) % BASE == (a + b) % BASE
  {
    assert a == BASE * (a / BASE) + a % BASE;
    assert a + b == BASE * (a / BASE) + (a % BASE + b);
  }

  /** Reducing once at the end is reducing at every byte. */
  lemma {:induction false} DeferredModulo(s: Sums, data: seq<Byte>)
    requires data != []
    ensures var t := Raw(s, data); Rfc(s, data) == Sums(t.s1 % BASE, t.s2 % BASE)
    decreases |data|
  {
    hide Rfc, Raw;
    var front, b := data[..|data| - 1], data[|data| - 1];
    OneByte(s, data);
    if front == [] {
      NoData(s);
      Empty(s);
      ModStep(s, s, b);
    } else {
      DeferredModulo(s, front);
      ModStep(Raw(s, front), Rfc(s, front), b);
    }
  }

  lemma OneByte(s: Sums, data: seq<Byte>)
    requires data != []
    ensures var t, u, b := Raw(s, data[..|data| - 1]), Rfc(s, data[..|data| - 1]), data[|data| - 1];
            && Raw(s, data) == Sums(t.s1 + b, t.s2 + t.s1 + b)
            && Rfc(s, data) == Sums((u.s1 + b) % BASE, (u.s2 + (u.s1 + b) % BASE) % BASE)
  {
  }

  /** One byte, from sums that are equal modulo 65521. */
  lemma ModStep(t: Sums, u: Sums, b: Byte)
    requires u == t || u == Sums(t.s1 % BASE, t.s2 % BASE)
    ensures (u.s1 + b) % BASE == (t.s1 + b) % BASE
    ensures (u.s2 + (u.s1 + b) % BASE) % BASE == (t.s2 + t.s1 + b) % BASE
  {
    AddMod(t.s1, b);
    AddMod(t.s2, (t.s1 + b) % BASE);
    AddMod(t.s1 + b, t.s2);
  }

  // ---------- the block length ----------

  function Triangle(n: nat): nat { if n == 0 then 0 else n + Triangle(n - 1) }

  lemma {:induction false} TriangleIs(n: nat)
    ensures 2 * Triangle(n) == n * (n + 1)
  {
    if n > 0 { TriangleIs(n - 1); }
  }

  /** What n bytes can add at most. */
  lemma {:induction false} RawBound(s: Sums, data: seq<Byte>)
    ensures var t, n := Raw(s, data), |data|;
            t.s1 <= s.s1 + 255 * n && t.s2 <= s.s2 + n * s.s1 + 255 * Triangle(n)
    decreases |data|
  {
    if data != [] {
      var n := |data|;
      RawBound(s, data[..n - 1]);
      assert n * s.s1 == (n - 1) * s.s1 + s.s1;
    }
  }

  /** The bound stated beside NMAX. */
  predicate Fits(n: nat) { 255 * n * (n + 1) / 2 + (n + 1) * (BASE - 1) <= WORD - 1 }

  lemma ProductGrows(a: nat, b: nat)
    requires a <= b
    ensures a * (a + 1) <= b * (b + 1)
  {
    assert b * (b + 1) == a * (a + 1) + (b - a) * (a + b + 1);
  }

  /** NMAX is the largest block length that satisfies it. */
  lemma NmaxIsLargest(n: nat)
    ensures Fits(n) <==> n <= NMAX
  {
    assert 255 * n * (n + 1) == 255 * (n * (n + 1));
    if n <= NMAX {
      ProductGrows(n, NMAX);
    } else {
      ProductGrows(NMAX + 1, n);
    }
  }

  /** Within a block nothing exceeds 32 bits, whatever checksum it starts from: even halves that are not
      reduced modulo 65521 leave room. */
  lemma BlockFits(s: Sums, data: seq<Byte>)
    requires HalfWords(s) && |data| <= NMAX
    ensures Raw(s, data).s1 < WORD && Raw(s, data).s2 < WORD
  {
    var n := |data|;
    RawBound(s, data);
    TriangleIs(n);
    ProductGrows(n, NMAX);
    MulMono(n, NMAX, s.s1);
  }

  lemma MulMono(a: nat, b: nat, c: nat)
    requires a <= b && c <= 65535
    ensures a * c <= b * 65535
  {
    assert a * c <= a * 65535;
  }

  // ---------- the code ----------

  function Add32(a: nat, b: nat): nat { (a + b) % WORD }

  /** DO1 */
  method Do1(s: Sums, buf: array<Byte>, i: nat) returns (r: Sums)
    requires i < buf.Length && Raw(s, buf[i..i + 1]).s2 < WORD
    ensures r == Raw(s, buf[i..i + 1])
  {
    assert buf[i..i + 1][..0] == [] && buf[i..i + 1] == [buf[i]];
    var s1 := Add32(s.s1, buf[i]);
    r := Sums(s1, Add32(s.s2, s1));
  }

  /** A stretch in two halves. */
  lemma Split(s: Sums, data: seq<Byte>, k: nat)
    requires k <= |data| && Raw(s, data).s2 < WORD
    ensures Raw(s, data) == Raw(Raw(s, data[..k]), data[k..])
    ensures Raw(s, data[..k]).s2 < WORD
  {
    assert data == data[..k] + data[k..];
    RawConcat(s, data[..k], data[k..]);
    RawGrows(Raw(s, data[..k]), data[k..]);
  }

  method Do2(s: Sums, buf: array<Byte>, i: nat) returns (r: Sums)
    requires i + 2 <= buf.Length && Raw(s, buf[i..i + 2]).s2 < WORD
    ensures r == Raw(s, buf[i..i + 2])
  {
    hide Raw;
    Split(s, buf[i..i + 2], 1);
    assert buf[i..i + 2][..1] == buf[i..i + 1] && buf[i..i + 2][1..] == buf[i + 1..i + 1 + 1];
    r := Do1(s, buf, i);
    r := Do1(r, buf, i + 1);
  }

  method Do4(s: Sums, buf: array<Byte>, i: nat) returns (r: Sums)
    requires i + 4 <= buf.Length && Raw(s, buf[i..i + 4]).s2 < WORD
    ensures r == Raw(s, buf[i..i + 4])
  {
    hide Raw;
    Split(s, buf[i..i + 4], 2);
    assert buf[i..i + 4][..2] == buf[i..i + 2] && buf[i..i + 4][2..] == buf[i + 2..i + 2 + 2];
    r := Do2(s, buf, i);
    r := Do2(r, buf, i + 2);
  }

  method Do8(s: Sums, buf: array<Byte>, i: nat) returns (r: Sums)
    requires i + 8 <= buf.Length && Raw(s, buf[i..i + 8]).s2 < WORD
    ensures r == Raw(s, buf[i..i + 8])
  {
    hide Raw;
    Split(s, buf[i..i + 8], 4);
    assert buf[i..i + 8][..4] == buf[i..i + 4] && buf[i..i + 8][4..] == buf[i + 4..i + 4 + 4];
    r := Do4(s, buf, i);
    r := Do4(r, buf, i + 4);
  }

  method Do16(s: Sums, buf: array<Byte>, i: nat) returns (r: Sums)
    requires i + 16 <= buf.Length && Raw(s, buf[i..i + 16]).s2 < WORD
    ensures r == Raw(s, buf[i..i + 16])
  {
    hide Raw;
    Split(s, buf[i..i + 16], 8);
    assert buf[i..i + 16][..8] == buf[i..i + 8] && buf[i..i + 16][8..] == buf[i + 8..i + 8 + 8];
    r := Do8(s, buf, i);
    r := Do8(r, buf, i + 8);
  }

  /** One turn of the outer loop, before its reduction: k bytes from position p. */
  method Block(s0: Sums, buf: array<Byte>, p: nat, k: nat) returns (s: Sums)
    requires p + k <= buf.Length && k <= NMAX && HalfWords(s0)
    ensures s == Raw(s0, buf[p..p + k])
  {
    hide Raw;
    ghost var data := buf[p..p + k];
    BlockFits(s0, data);
    Empty(s0);
    s := s0;
    var i := 0;
    assert buf[p..p + 0] == [];
    while k - i >= 16
      invariant i <= k && s == Raw(s0, buf[p..p + i])
    {
      Advance(s0, data, i, 16);
      Slices(buf, p, k, i, 16);
      s := Do16(s, buf, p + i);
      i := i + 16;
    }
    while i < k
      invariant i <= k && s == Raw(s0, buf[p..p + i])
    {
      Advance(s0, data, i, 1);
      Slices(buf, p, k, i, 1);
      s := Do1(s, buf, p + i);
      i := i + 1;
    }
  }

  lemma Slices(buf: array<Byte>, p: nat, k: nat, i: nat, n: nat)
    requires p + k <= buf.Length && i + n <= k
    ensures buf[p..p + k][..i] == buf[p..p + i] && buf[p..p + k][..i + n] == buf[p..p + i + n]
    ensures buf[p..p + k][i..i + n] == buf[p + i..p + i + n]
  {
  }

  lemma Empty(s: Sums)
    ensures Raw(s, []) == s
  {
  }

  lemma Advance(s: Sums, data: seq<Byte>, i: nat, n: nat)
    requires i + n <= |data| && Raw(s, data).s2 < WORD
    ensures Raw(s, data[..i + n]) == Raw(Raw(s, data[..i]), data[i..i + n])
    ensures Raw(s, data[..i + n]).s2 < WORD
  {
    Split(s, data, i + n);
    Split(s, data[..i + n], i);
    assert data[..i + n][..i] == data[..i] && data[..i + n][i..] == data[i..i + n];
  }

  /** zlib_adler32 */
  method ZlibAdler32(adler: nat, buf: array?<Byte>, len: nat) returns (r: nat)
    requires buf != null ==> len <= buf.Length
    ensures r == if buf == null then 1 else Checksum(adler, buf[..len])
  {
    hide Raw, Rfc, Or, Shl, Pow2;
    ghost var start := Halves(adler);
    var s := Sums(adler % 65536, adler / 65536 % 65536);
    if buf == null {
      return 1;
    }
    var left: nat, p: nat := len, 0;
    assert buf[..0] == [];
    NoData(start);
    while left > 0
      invariant p + left == len && s == Rfc(start, buf[..p])
    {
      RfcHalfWords(start, buf[..p]);
      var k := if left < NMAX then left else NMAX;
      left := left - k;
      ghost var data := buf[p..p + k];
      DeferredModulo(s, data);
      RfcConcat(start, buf[..p], data);
      assert buf[..p] + data == buf[..p + k];
      s := Block(s, buf, p, k);
      p := p + k;
      s := Sums(s.s1 % BASE, s.s2 % BASE);
    }
    RfcHalfWords(start, buf[..len]);
    Sixteen();
    OrIsPlus(s.s2, s.s1, 16);
    r := Or(Shl(s.s2, 16), s.s1);
  }

  lemma NoData(s: Sums)
    ensures Rfc(s, []) == s
  {
  }

  lemma Sixteen()
    ensures Pow2(16) == 65536
  {
    Pow2Values();
  }

  // ---------- what the checksum notices ----------

  lemma {:induction false} RawDifference(s: Sums, a: seq<Byte>, b: seq<Byte>, i: nat)
    requires |a| == |b| && i < |a| && a[..i] == b[..i] && a[i + 1..] == b[i + 1..]
    ensures Raw(s, a).s1 - Raw(s, b).s1 == (a[i] as int) - b[i]
    decreases |a|
  {
    var n := |a| - 1;
    if i == n {
      assert a[..n] == b[..n];
    } else {
      assert a[n] == a[i + 1..][n - i - 1] == b[i + 1..][n - i - 1] == b[n];
      assert a[..n][..i] == b[..n][..i] by { assert a[..n][..i] == a[..i] && b[..n][..i] == b[..i]; }
      assert a[..n][i + 1..] == a[i + 1..][..n - i - 1] && b[..n][i + 1..] == b[i + 1..][..n - i - 1];
      RawDifference(s, a[..n], b[..n], i);
    }
  }

  lemma SmallDifference(x: nat, y: nat)
    requires x != y && -255 <= x - y <= 255
    ensures x % BASE != y % BASE
  {
    var q := x / BASE - y / BASE;
    assert x - y == BASE * q + (x % BASE - y % BASE);
  }

  /** No change of a single byte goes unnoticed. */
  lemma SingleByteNoticed(adler: nat, a: seq<Byte>, b: seq<Byte>, i: nat)
    requires |a| == |b| && i < |a| && a[..i] == b[..i] && a[i + 1..] == b[i + 1..] && a[i] != b[i]
    ensures Checksum(adler, a) != Checksum(adler, b)
  {
    hide Raw, Rfc;
    var s := Halves(adler);
    DeferredModulo(s, a);
    DeferredModulo(s, b);
    RawDifference(s, a, b, i);
    SmallDifference(Raw(s, a).s1, Raw(s, b).s1);
    RfcHalfWords(s, a);
    RfcHalfWords(s, b);
    HalvesOfWhole(Rfc(s, a));
    HalvesOfWhole(Rfc(s, b));
  }
}
