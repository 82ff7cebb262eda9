/** The data decompression step of XSDRINC: add the address mask, then overwrite the bits selected by the
    data mask with the next data bits. */
module SdrMasking {
  import opened Bits
  import opened LenVal

  /** Set bits of M below position p. */
  function Rank(M: seq<bool>, p: nat): nat
    requires p <= |M|
  {
    if p == 0 then 0 else Rank(M, p - 1) + (if M[p - 1] then 1 else 0)
  }

  function Ones(M: seq<bool>): nat { Rank(M, |M|) }

  lemma {:induction false} RankGrows(M: seq<bool>, p: nat, q: nat)
    requires p <= q <= |M|
    ensures Rank(M, p) <= Rank(M, q)
    ensures p < q && M[p] ==> Rank(M, p) < Rank(M, q)
    decreases q - p
  {
    if p < q { RankGrows(M, p + 1, q); }
  }

  /** The selected positions of T, least significant first, take the bits of D in order. */
  function Deposit(T: seq<bool>, M: seq<bool>, D: seq<bool>): (r: seq<bool>)
    requires |M| == |T| && Ones(M) <= |D|
    ensures |r| == |T|
  {
    seq(|T|, p requires 0 <= p < |T| => DepositAt(T, M, D, p))
  }

  function DepositAt(T: seq<bool>, M: seq<bool>, D: seq<bool>, p: nat): bool
    requires |M| == |T| && Ones(M) <= |D| && p < |T|
  {
    RankGrows(M, p, |M|);
    if M[p] then D[Rank(M, p)] else T[p]
  }

  /** Set bits of a byte string. */
  function Pop(m: seq<Byte>): nat { Ones(BitsOf(m)) }

  /** Bytes of data read per step. */
  function DataBytes(m: seq<Byte>): nat { (Pop(m) + 7) / 8 }

  function NextTdi(tdi: seq<Byte>, address: seq<Byte>, mask: seq<Byte>, data: seq<Byte>): (r: seq<Byte>)
    requires |address| == |mask| == |tdi| && |data| == DataBytes(mask)
    ensures |r| == |tdi|
  {
    PackBits(Deposit(BitsOf(Sum(tdi, address)), BitsOf(mask), BitsOf(data)), |tdi|)
  }

  // ---------- the same in numbers ----------

  /** Set bits of m below position p. */
  function CountBelow(m: nat, p: nat): nat { if p == 0 then 0 else CountBelow(m, p - 1) + if Bit(m, p - 1) then 1 else 0 }

  lemma NumberBit(v: seq<Byte>, p: nat)
    ensures Bit(BigEndian(v), p) <==> p < 8 * |v| && BitsOf(v)[p]
  {
    hide Bit, BigEndian, BitsOf, PackBits;
    PackUnpack(v, [], |v|);
    BigEndianIsBits(v, BitsOf(v));
    FromBitsAt(BitsOf(v), p);
  }

  lemma {:induction false} RankIsCount(v: seq<Byte>, p: nat)
    requires p <= 8 * |v|
    ensures Rank(BitsOf(v), p) == CountBelow(BigEndian(v), p)
  {
    hide Bit, BigEndian, BitsOf;
    if p > 0 {
      RankIsCount(v, p - 1);
      NumberBit(v, p - 1);
    }
  }

  /** As many bytes are read as hold the set bits of the mask. */
  lemma DataBytesIs(mask: seq<Byte>)
    ensures DataBytes(mask) == (CountBelow(BigEndian(mask), 8 * |mask|) + 7) / 8
  {
    RankIsCount(mask, 8 * |mask|);
  }

  /** Each step takes the value plus the address mask, modulo the length, and puts the data bits, from the low end on,
      at the set bits of the data mask, from the low end on. */
  lemma MergedBit(tdi: seq<Byte>, address: seq<Byte>, mask: seq<Byte>, data: seq<Byte>, p: nat)
    requires |address| == |mask| == |tdi| && |data| == DataBytes(mask)
    ensures var n := 8 * |tdi|;
            && Pow256(|tdi|) > 0
            && (Bit(BigEndian(NextTdi(tdi, address, mask, data)), p) <==>
                  p < n && if Bit(BigEndian(mask), p) then Bit(BigEndian(data), CountBelow(BigEndian(mask), p))
                           else Bit((BigEndian(tdi) + BigEndian(address)) % Pow256(|tdi|), p))
  {
    hide Bit, BigEndian, BitsOf, PackBits, Rank;
    SumIsModular(tdi, address);
    var sum, r := Sum(tdi, address), NextTdi(tdi, address, mask, data);
    NumberBit(r, p);
    if p < 8 * |tdi| {
      var d := Deposit(BitsOf(sum), BitsOf(mask), BitsOf(data));
      PackBitsAt(d, |tdi|, p);
      NumberBit(mask, p);
      NumberBit(sum, p);
      RankIsCount(mask, p);
      NumberBit(data, Rank(BitsOf(mask), p));
      RankGrows(BitsOf(mask), p, 8 * |mask|);
    }
  }

  // ---------- counting the mask bits ----------

  function PopByte(b: nat): nat { if b == 0 then 0 else b % 2 + PopByte(b / 2) }

  lemma {:induction false} RankConcat(A: seq<bool>, B: seq<bool>, p: nat)
    requires |A| <= p <= |A| + |B|
    ensures Rank(A + B, p) == Rank(A, |A|) + Rank(B, p - |A|)
    decreases p
  {
    if p == |A| {
      RankPrefix(A, B, p);
    } else {
      RankConcat(A, B, p - 1);
    }
  }

  lemma {:induction false} RankPrefix(A: seq<bool>, B: seq<bool>, p: nat)
    requires p <= |A|
    ensures Rank(A + B, p) == Rank(A, p)
  {
    if p > 0 { RankPrefix(A, B, p - 1); }
  }

  /** Rank of a byte's bits, from any position up. */
  lemma {:induction false} PopByteRank(b: nat, k: nat, r: nat)
    requires k <= 8 && b < 256 && r == Shr(b, k)
    ensures Ones(ByteBits(b)) == Rank(ByteBits(b), k) + PopByte(r)
    decreases 8 - k
  {
    if k == 8 {
      Pow2Values();
      forall j: nat ensures Bit(r, j) <==> Bit(0, j) {
        BitShr(b, 8, j);
        BitBeyond(b, 8, j + 8);
        BitZero(j);
      }
      SameBits(r, 0);
    } else {
      ShrStep(b, k);
      PopByteRank(b, k + 1, r / 2);
      BitShr(b, k, 0);
      assert ByteBits(b)[k] == Bit(b, k) == (r % 2 == 1);
    }
  }

  lemma {:induction false} ShrStep(b: nat, k: nat)
    ensures Shr(b, k + 1) == Shr(b, k) / 2
    decreases k
  {
    if k > 0 { ShrStep(b / 2, k - 1); }
  }

  lemma PopSplit(m: seq<Byte>, b: Byte)
    ensures Pop(m + [b]) == Pop(m) + PopByte(b)
  {
    assert (m + [b])[..|m|] == m;
    var B := ByteBits(b);
    assert BitsOf(m + [b]) == B + BitsOf(m);
    RankConcat(B, BitsOf(m), 8 + 8 * |m|);
    PopByteRank(b, 0, b);
  }

  /** The counting loop of xsvfDoXSDRINC. Its byte index is an unsigned char, so it ends only for masks
      of at most 255 bytes. */
  method CountMaskBits(mask: seq<Byte>) returns (n: nat)
    requires |mask| <= 255
    ensures n == Pop(mask)
  {
    n := 0;
    var i := 0;
    while i < |mask|
      invariant 0 <= i <= |mask|
      invariant n == Pop(mask[..i])
    {
      var b: nat := mask[i];
      while b != 0
        invariant n + PopByte(b) == Pop(mask[..i]) + PopByte(mask[i])
        decreases b
      {
        n := n + b % 2;
        b := b / 2;
      }
      PopSplit(mask[..i], mask[i]);
      assert mask[..i + 1] == mask[..i] + [mask[i]];
      i := i + 1;
    }
    assert mask[..|mask|] == mask;
  }

  // ---------- the masking loop ----------

  /** Setting or clearing bit k of a byte. */
  function WithBit(x: nat, k: nat, b: bool): nat { if b then Or(x, Pow2(k)) else AndNot(x, Pow2(k)) }

  lemma WithBitAt(x: nat, k: nat, b: bool, i: nat)
    ensures Bit(WithBit(x, k, b), i) <==> if i == k then b else Bit(x, i)
  {
    BitOr(x, Pow2(k), i);
    BitAndNot(x, Pow2(k), i);
    BitPow2(k, i);
  }

  lemma WithBitByte(x: nat, k: nat, b: bool)
    requires x < 256 && k < 8
    ensures WithBit(x, k, b) < 256
  {
    Pow2Values();
    forall i: nat | i >= 8 ensures !Bit(WithBit(x, k, b), i) {
      WithBitAt(x, k, b, i);
      BitBeyond(x, 8, i);
    }
    BoundByBits(WithBit(x, k, b), 8);
  }

  /** Where the reading of the next data stands after c bits: index of the last byte fetched and the mask
      of the next bit in it, 0 when a new byte is due. */
  ghost predicate Cursor(data: seq<Byte>, c: nat, index: nat, byte: nat, bitMask: nat) {
    && index <= |data|
    && if c % 8 == 0 then bitMask == 0 && c == 8 * (|data| - index)
       else index < |data| && byte == data[index] && bitMask == Pow2(c % 8) && c / 8 == |data| - index - 1
  }

  lemma CursorBit(data: seq<Byte>, c: nat, index: nat, byte: nat)
    requires c < 8 * |data| && index < |data| && c / 8 == |data| - index - 1 && byte == data[index]
    ensures BitsOf(data)[c] == Bit(byte, c % 8)
  {
    BitsOfAt(data, c / 8, c % 8);
  }

  /** One selected bit: fetch a new data byte if one is due, then copy the next data bit to bit k. */
  method MaskBit(tdi: Byte, tdiMask: nat, data: seq<Byte>, ghost k: nat, ghost c: nat, index0: nat, byte0: nat, bitMask0: nat)
    returns (r: Byte, index: nat, byte: nat, bitMask: nat)
    requires k < 8 && tdiMask == Pow2(k) && c < 8 * |data| && Cursor(data, c, index0, byte0, bitMask0)
    ensures r == WithBit(tdi, k, BitsOf(data)[c])
    ensures Cursor(data, c + 1, index, byte, bitMask)
  {
    index, byte, bitMask := index0, byte0, bitMask0;
    if bitMask == 0 {
      CursorDue(data, c, index, byte);
      index := index - 1;
      byte := data[index];
      bitMask := 1;
    }
    CursorBit(data, c, index, byte);
    TestBit(byte, c % 8);
    WithBitByte(tdi, k, BitsOf(data)[c]);
    if And(byte, bitMask) != 0 {
      r := Or(tdi, tdiMask);
    } else {
      r := AndNot(tdi, tdiMask);
    }
    CursorMoves(data, c, index, byte);
    bitMask := bitMask * 2 % 256;
  }

  lemma CursorDue(data: seq<Byte>, c: nat, index: nat, byte: nat)
    requires c < 8 * |data| && Cursor(data, c, index, byte, 0)
    ensures c % 8 == 0 && index > 0 && c / 8 == |data| - index && Pow2(c % 8) == 1
  {
  }

  /** Bit p of a byte after the selected positions below k have been filled. */
  ghost predicate Filled(r: nat, tdi: nat, M: seq<bool>, D: seq<bool>, c0: nat, k: nat, p: nat)
    requires |M| == 8 && p < 8 && k <= 8 && c0 + Ones(M) <= |D|
  {
    RankGrows(M, p, |M|);
    Bit(r, p) == if p < k && M[p] then D[c0 + Rank(M, p)] else Bit(tdi, p)
  }

  ghost predicate AllFilled(r: nat, tdi: nat, M: seq<bool>, D: seq<bool>, c0: nat, k: nat)
    requires |M| == 8 && k <= 8 && c0 + Ones(M) <= |D|
  {
    forall p: nat :: p < 8 ==> Filled(r, tdi, M, D, c0, k, p)
  }

  /** One mask byte: the inner loop of xsvfDoSDRMasking, with the state of the data cursor threaded
      through. Only the bits up to the highest set mask bit are visited. */
  method MaskByte(tdi: Byte, mask: Byte, data: seq<Byte>, ghost c0: nat, index0: nat, byte0: nat, bitMask0: nat)
    returns (r: Byte, index: nat, byte: nat, bitMask: nat)
    requires Cursor(data, c0, index0, byte0, bitMask0)
    requires c0 + Ones(ByteBits(mask)) <= 8 * |data|
    ensures Cursor(data, c0 + Ones(ByteBits(mask)), index, byte, bitMask)
    ensures AllFilled(r, tdi, ByteBits(mask), BitsOf(data), c0, 8)
  {
    MaskStarts(tdi, mask, data, c0);
    hide ByteBits, BitsOf, Cursor, AllFilled, Rank, Shr, Pow2;
    ghost var M, D := ByteBits(mask), BitsOf(data);
    r, index, byte, bitMask := tdi, index0, byte0, bitMask0;
    var m: nat := mask;
    var tdiMask: nat := 1;
    ghost var k: nat := 0;
    while m != 0
      invariant k <= 8 && m == Shr(mask, k)
      invariant k < 8 ==> tdiMask == Pow2(k)
      invariant Cursor(data, c0 + Rank(M, k), index, byte, bitMask)
      invariant AllFilled(r, tdi, M, D, c0, k)
      decreases m
    {
      MaskByteStep(mask, k);
      ghost var before := r;
      if m % 2 == 1 {
        r, index, byte, bitMask := MaskBit(r, tdiMask, data, k, c0 + Rank(M, k), index, byte, bitMask);
        FillOne(before, r, tdi, M, D, c0, k);
      } else {
        FillNone(r, tdi, M, D, c0, k, k + 1);
      }
      tdiMask := tdiMask * 2 % 256;
      m := m / 2;
      k := k + 1;
    }
    RestClear(mask, k);
    FillNone(r, tdi, M, D, c0, k, 8);
  }

  lemma MaskStarts(tdi: Byte, mask: Byte, data: seq<Byte>, c0: nat)
    requires c0 + Ones(ByteBits(mask)) <= 8 * |data|
    ensures Shr(mask, 0) == mask && Pow2(0) == 1 && Rank(ByteBits(mask), 0) == 0
    ensures AllFilled(tdi, tdi, ByteBits(mask), BitsOf(data), c0, 0)
  {
  }

  /** What one turn of the loop relies on. */
  lemma MaskByteStep(mask: Byte, k: nat)
    requires k <= 8 && Shr(mask, k) != 0
    ensures k < 8 && ByteBits(mask)[k] == (Shr(mask, k) % 2 == 1) && Shr(mask, k + 1) == Shr(mask, k) / 2
    ensures k + 1 < 8 ==> Pow2(k) * 2 % 256 == Pow2(k + 1)
    ensures Rank(ByteBits(mask), k + 1) == Rank(ByteBits(mask), k) + (if ByteBits(mask)[k] then 1 else 0)
    ensures Rank(ByteBits(mask), k + 1) <= Ones(ByteBits(mask))
  {
    NonZeroBelow8(mask, k);
    BitShr(mask, k, 0);
    ShrStep(mask, k);
    PowTable(k);
    RankGrows(ByteBits(mask), k + 1, |ByteBits(mask)|);
  }

  lemma FillNone(r: nat, tdi: nat, M: seq<bool>, D: seq<bool>, c0: nat, k: nat, k': nat)
    requires |M| == 8 && k <= k' <= 8 && c0 + Ones(M) <= |D| && AllFilled(r, tdi, M, D, c0, k)
    requires forall p :: k <= p < k' ==> !M[p]
    ensures AllFilled(r, tdi, M, D, c0, k')
  {
    forall p: nat | p < 8 ensures Filled(r, tdi, M, D, c0, k', p) {
      assert Filled(r, tdi, M, D, c0, k, p);
    }
  }

  lemma FillOne(before: nat, r: nat, tdi: nat, M: seq<bool>, D: seq<bool>, c0: nat, k: nat)
    requires |M| == 8 && k < 8 && M[k] && c0 + Ones(M) <= |D|
    requires AllFilled(before, tdi, M, D, c0, k)
    requires c0 + Rank(M, k) < |D| && r == WithBit(before, k, D[c0 + Rank(M, k)])
    ensures AllFilled(r, tdi, M, D, c0, k + 1)
  {
    var k' := k + 1;
    forall p: nat | p < 8 ensures Filled(r, tdi, M, D, c0, k', p) {
      assert Filled(before, tdi, M, D, c0, k, p);
      WithBitAt(before, k, D[c0 + Rank(M, k)], p);
    }
  }

  lemma PowTable(k: nat)
    requires k < 8
    ensures k < 7 ==> Pow2(k) * 2 % 256 == Pow2(k + 1)
    ensures k == 7 ==> Pow2(k) * 2 % 256 == 0
  {
    Pow2Values();
    PowBound(k + 1);
    if k < 7 { PowBelow(k + 1); }
  }

  lemma PowBelow(k: nat)
    requires k < 8
    ensures Pow2(k) < 256
  {
    PowBound(k + 1);
  }

  lemma CursorMoves(data: seq<Byte>, c: nat, index: nat, byte: nat)
    requires index < |data| && c / 8 == |data| - index - 1 && byte == data[index]
    ensures Cursor(data, c + 1, index, byte, Pow2(c % 8) * 2 % 256)
  {
    PowTable(c % 8);
    if c % 8 == 7 {
      assert (c + 1) % 8 == 0 && c + 1 == 8 * (c / 8 + 1);
    } else {
      assert (c + 1) % 8 == c % 8 + 1 && (c + 1) / 8 == c / 8;
    }
  }

  lemma NonZeroBelow8(mask: nat, k: nat)
    requires mask < 256 && k <= 8 && Shr(mask, k) != 0
    ensures k < 8
  {
  }

  /** Once the remaining mask is zero, no selected position is left. */
  lemma RestClear(mask: Byte, k: nat)
    requires k <= 8 && Shr(mask, k) == 0
    ensures forall p :: k <= p < 8 ==> !ByteBits(mask)[p]
    ensures Ones(ByteBits(mask)) == Rank(ByteBits(mask), k)
  {
    forall p | k <= p < 8 ensures !Bit(mask, p) {
      BitShr(mask, k, p - k);
      BitZero(p - k);
    }
    PopByteRank(mask, k, 0);
  }

  lemma MaskingStarts(r: seq<Byte>, S: seq<Byte>, mask: seq<Byte>, data: seq<Byte>)
    requires |r| == |S| == |mask| && |data| == DataBytes(mask)
    ensures Cursor(data, 0, |data|, 0, 0)
    ensures Deposited(r, S, mask, BitsOf(data), 0)
  {
  }

  lemma MaskingEnds(mask: seq<Byte>, data: seq<Byte>, index: nat, byte: nat, bitMask: nat)
    requires |data| == DataBytes(mask) && Cursor(data, Pop(mask), index, byte, bitMask)
    ensures index == 0
  {
  }

  /** xsvfDoSDRMasking: bytes from the least significant one up. */
  method DoSdrMasking(tdi: seq<Byte>, data: seq<Byte>, address: seq<Byte>, mask: seq<Byte>) returns (r: seq<Byte>)
    requires |address| == |mask| == |tdi| && |data| == DataBytes(mask)
    ensures r == NextTdi(tdi, address, mask, data)
  {
    hide BitsOf, Cursor, AllFilled, Deposited;
    var n := |tdi|;
    r := AddVal(tdi, address);
    ghost var S := r;
    ghost var T, M, D := BitsOf(r), BitsOf(mask), BitsOf(data);
    var index: nat, byte: nat, bitMask: nat := |data|, 0, 0;
    var i := n;
    MaskingStarts(r, S, mask, data);
    while i > 0
      invariant 0 <= i <= n == |r|
      invariant r[..i] == S[..i]
      invariant Cursor(data, Rank(M, 8 * (n - i)), index, byte, bitMask)
      invariant Deposited(r, S, mask, D, n - i)
    {
      i := i - 1;
      ghost var j := n - 1 - i;
      ghost var before := r;
      assert r[i] == r[..i + 1][i] == S[i];
      ByteRankAt(mask, j, 8);
      RankGrows(M, 8 * j + 8, 8 * n);
      var b: Byte;
      b, index, byte, bitMask := MaskByte(r[i], mask[i], data, Rank(M, 8 * j), index, byte, bitMask);
      r := r[i := b];
      assert r[..i] == S[..i];
      LowBytesKept(before, r, S, mask, D, j);
      ByteDeposited(r, S, mask, D, j);
    }
    MaskingEnds(mask, data, index, byte, bitMask);
    assert index == 0;    // the data bytes read are exactly those used
    AllDeposited(r, S, mask, D);
  }

  /** Bit k of byte j (from the least significant end) is what the deposit asks for. */
  ghost predicate DepositedAt(r: seq<Byte>, S: seq<Byte>, mask: seq<Byte>, D: seq<bool>, j: nat, k: nat)
    requires |r| == |S| == |mask| && Pop(mask) <= |D| && j < |r| && k < 8
  {
    BitsOf(r)[8 * j + k] == DepositAt(BitsOf(S), BitsOf(mask), D, 8 * j + k)
  }

  ghost predicate Deposited(r: seq<Byte>, S: seq<Byte>, mask: seq<Byte>, D: seq<bool>, n: nat)
    requires |r| == |S| == |mask| && Pop(mask) <= |D| && n <= |r|
  {
    forall j: nat, k: nat :: j < n && k < 8 ==> DepositedAt(r, S, mask, D, j, k)
  }

  lemma LowBytesKept(before: seq<Byte>, r: seq<Byte>, S: seq<Byte>, mask: seq<Byte>, D: seq<bool>, n: nat)
    requires |before| == |r| == |S| == |mask| && Pop(mask) <= |D| && n <= |r|
    requires Deposited(before, S, mask, D, n)
    requires forall i :: |r| - n <= i < |r| ==> r[i] == before[i]
    ensures Deposited(r, S, mask, D, n)
  {
    forall j: nat, k: nat | j < n && k < 8 ensures DepositedAt(r, S, mask, D, j, k) {
      assert DepositedAt(before, S, mask, D, j, k);
      BitsOfAt(r, j, k);
      BitsOfAt(before, j, k);
    }
  }

  lemma ByteDeposited(r: seq<Byte>, S: seq<Byte>, mask: seq<Byte>, D: seq<bool>, j: nat)
    requires |r| == |S| == |mask| && Pop(mask) <= |D| && j < |r|
    requires Deposited(r, S, mask, D, j)
    requires Rank(BitsOf(mask), 8 * j) + Ones(ByteBits(mask[|S| - 1 - j])) <= |D|
    requires AllFilled(r[|S| - 1 - j], S[|S| - 1 - j], ByteBits(mask[|S| - 1 - j]), D, Rank(BitsOf(mask), 8 * j), 8)
    ensures Deposited(r, S, mask, D, j + 1)
  {
    var i := |S| - 1 - j;
    forall k: nat | k < 8 ensures DepositedAt(r, S, mask, D, j, k) {
      ByteRankAt(mask, j, k);
      BitsOfAt(r, j, k);
      BitsOfAt(S, j, k);
      BitsOfAt(mask, j, k);
      assert Filled(r[i], S[i], ByteBits(mask[i]), D, Rank(BitsOf(mask), 8 * j), 8, k);
    }
  }

  lemma AllDeposited(r: seq<Byte>, S: seq<Byte>, mask: seq<Byte>, D: seq<bool>)
    requires |r| == |S| == |mask| && Pop(mask) <= |D| && Deposited(r, S, mask, D, |r|)
    ensures r == PackBits(Deposit(BitsOf(S), BitsOf(mask), D), |r|)
  {
    var P := Deposit(BitsOf(S), BitsOf(mask), D);
    forall p: nat | p < |P| ensures BitsOf(r)[p] == P[p] {
      assert p == 8 * (p / 8) + p % 8;
      assert DepositedAt(r, S, mask, D, p / 8, p % 8);
    }
    assert BitsOf(r) == P;
    PackUnpack(r, [], 0);
  }

  /** Ranks inside byte j of a mask. */
  lemma ByteRankAt(mask: seq<Byte>, j: nat, k: nat)
    requires j < |mask| && k <= 8
    ensures 8 * j + k <= 8 * |mask|
    ensures Rank(BitsOf(mask), 8 * j + k) == Rank(BitsOf(mask), 8 * j) + Rank(ByteBits(mask[|mask| - 1 - j]), k)
    decreases k
  {
    if k > 0 {
      ByteRankAt(mask, j, k - 1);
      BitsOfAt(mask, j, k - 1);
    }
  }
}
