/** The sequence loader of the waveform generator: waveforms go to SRAM, and a chain of descriptor blocks
    in the channel's registers says where they are, how often to play them and what comes next. */
module Cvorg {
  import opened Bits

  const WORD: nat := 0x1_0000_0000
  const REGISTERS: nat := 0x200
  const SRAM_SIZE: nat := 0x20_0000
  const SRAM_WORDS: nat := 0x8_0000
  const MAX_SEQUENCES: nat := 26

  const SEQNR: nat := 0x58
  const WFSTART: nat := 0x00
  const WFLEN: nat := 0x04
  const WFRECURR: nat := 0x08
  const WFNEXTBLK: nat := 0x0c

  const NEXT_MASK: nat := 0x1f
  const LAST: nat := 31
  const CONF_GAIN: nat := 0x100
  const GAIN_SHIFT: nat := 9
  const GAIN_MASK: nat := 0xe00

  /** The length register has 20 bits, the start address 21. */
  const LENGTHS: nat := 0x10_0000
  const ADDRESSES: nat := 0x20_0000

  function Block(j: nat): nat { 0x60 + 0x10 * j }

  // ---------- points ----------

  type Point = p: nat | p < 65536

  /** A waveform to play; its size in bytes is twice its number of points. The gain, if set, is one of the
      eight codes of the hardware. */
  datatype Wave = Wave(recurr: nat, points: seq<Point>, dynamic: bool, code: nat)

  predicate WaveOk(w: Wave) { w.recurr < WORD && w.code < 8 }

  predicate WavesOk(ws: seq<Wave>) { forall j: nat :: j < |ws| ==> WaveOk(ws[j]) }

  function Swap(x: Point): Point { x % 256 * 256 + x / 256 }

  /** Host order to big endian and back. */
  function Be16(little: bool, x: Point): Point { if little then Swap(x) else x }

  /** cvorg_cpu_to_hw */
  function ToHw(little: bool, a: Point, b: Point): nat {
    var first, second := Be16(little, a), Be16(little, b);
    if little then Or(Shl(first, 16), second) else Or(Shl(second, 16), first)
  }

  /** cvorg_cpu_to_hw_single */
  function ToHwSingle(little: bool, a: Point): nat {
    if little then Shl(Be16(little, a), 16) else Be16(little, a)
  }

  /** cvorg_hw_to_cpu */
  function FromHw(little: bool, w: nat): (Point, Point) {
    var high, low := w / 65536 % 65536, w % 65536;
    if little then (Be16(little, high), Be16(little, low)) else (Be16(little, low), Be16(little, high))
  }

  lemma SwapTwice(x: Point)
    ensures Swap(Swap(x)) == x
  {
    SwapBytes(x);
  }

  lemma Halves(a: Point, b: Point)
    ensures var w := Or(Shl(a, 16), b); w / 65536 % 65536 == a && w % 65536 == b && w < WORD
  {
    hide Or, Shl, Pow2;
    Pow2Values();
    OrIsPlus(a, b, 16);
  }

  /** A pair of points survives the way to the hardware and back. */
  lemma HwRoundTrip(little: bool, a: Point, b: Point)
    ensures ToHw(little, a, b) < WORD && FromHw(little, ToHw(little, a, b)) == (a, b)
    ensures ToHwSingle(little, a) < WORD && FromHw(little, ToHwSingle(little, a)).0 == a
  {
    hide Or, Shl, Swap;
    var first, second := Be16(little, a), Be16(little, b);
    SwapTwice(a);
    SwapTwice(b);
    Halves(first, second);
    Halves(second, first);
    Halves(first, 0);
    OrZero(Shl(first, 16));
  }

  /** Byte i of a 32-bit word in the host's memory. */
  function MemoryByte(little: bool, w: nat, i: nat): nat
    requires i < 4
  {
    var b0, b1, b2, b3 := w / 0x100_0000 % 256, w / 0x1_0000 % 256, w / 0x100 % 256, w % 256;
    if little then [b3, b2, b1, b0][i] else [b0, b1, b2, b3][i]
  }

  /** The word as the module sees it: the first byte in memory is the most significant. */
  function OnBus(little: bool, w: nat): nat {
    0x100_0000 * MemoryByte(little, w, 0) + 0x1_0000 * MemoryByte(little, w, 1) + 0x100 * MemoryByte(little, w, 2) + MemoryByte(little, w, 3)
  }

  /** The module plays the rightmost half of a word first. */
  function LeftHalf(w: nat): Point { w / 65536 % 65536 }

  function RightHalf(w: nat): Point { w % 65536 }

  /** On either kind of host the module gets the first point on the right and the second on the left. */
  lemma BusWord(little: bool, a: Point, b: Point)
    ensures OnBus(little, ToHw(little, a, b)) == 65536 * b + a
    ensures OnBus(little, ToHwSingle(little, a)) == a
  {
    BusPair(little, a, b);
    BusSingle(little, a);
  }

  lemma BusPair(little: bool, a: Point, b: Point)
    ensures OnBus(little, ToHw(little, a, b)) == 65536 * b + a
  {
    hide Or, Shl, Swap, OnBus;
    SwapBytes(a);
    SwapBytes(b);
    BusBytes(little, ToHw(little, a, b));
    if little { WordBytes(Swap(a), Swap(b)); } else { WordBytes(b, a); }
  }

  lemma BusSingle(little: bool, a: Point)
    ensures OnBus(little, ToHwSingle(little, a)) == a
  {
    hide Or, Shl, Swap, OnBus;
    SwapBytes(a);
    BusBytes(little, ToHwSingle(little, a));
    if little {
      WordBytes(Swap(a), 0);
      OrZero(Shl(Swap(a), 16));
    }
  }

  lemma SwapBytes(x: Point)
    ensures Swap(x) % 256 == x / 256 && Swap(x) / 256 == x % 256
  {
    var high, low := x / 256, x % 256;
    var y := Swap(x);
    assert y == 256 * low + high && y / 256 == low && y % 256 == high;
  }

  lemma WordBytes(x: Point, y: Point)
    ensures var w := Or(Shl(x, 16), y);
            w / 0x100_0000 % 256 == x / 256 && w / 0x1_0000 % 256 == x % 256 && w / 0x100 % 256 == y / 256 && w % 256 == y % 256
  {
    hide Or, Shl;
    Halves(x, y);
    var w: nat := Or(Shl(x, 16), y);
    assert w == 65536 * x + y;
    assert w / 0x1_0000 == x && w / 0x100 == 256 * x + y / 256 && w / 0x100_0000 == x / 256;
  }

  lemma BusBytes(little: bool, w: nat)
    ensures OnBus(little, w) ==
            if little then 0x100_0000 * (w % 256) + 0x1_0000 * (w / 0x100 % 256) + 0x100 * (w / 0x1_0000 % 256) + w / 0x100_0000 % 256
            else 0x100_0000 * (w / 0x100_0000 % 256) + 0x1_0000 * (w / 0x1_0000 % 256) + 0x100 * (w / 0x100 % 256) + w % 256
  {
  }

  // ---------- normalisation ----------

  /** The two low bits cleared, 3 rounded up to 4 unless that overflows. */
  function Normal(p: Point): Point { if p % 4 == 3 && p != 0xffff then p + 1 else p - p % 4 }

  /** The closest multiple of 4 that is not below by more than 2, but for the top of the range. */
  lemma NormalRounds(p: Point)
    ensures Normal(p) % 4 == 0 && Normal(Normal(p)) == Normal(p)
    ensures p != 0xffff ==> -2 <= Normal(p) - p <= 1
    ensures p == 0xffff ==> Normal(p) == 0xfffc
  {
  }

  function Normals(ps: seq<Point>): (r: seq<Point>)
    ensures |r| == |ps|
  {
    seq(|ps|, i requires 0 <= i < |ps| => Normal(ps[i]))
  }

  /** normalize_wv; the result replaces the waveform. */
  method Normalize(ps: seq<Point>) returns (data: seq<Point>)
    ensures data == Normals(ps)
  {
    data := ps;
    var i := 0;
    while i < |ps|
      invariant 0 <= i <= |ps| == |data|
      invariant forall k :: 0 <= k < i ==> data[k] == Normal(ps[k])
      invariant forall k :: i <= k < |ps| ==> data[k] == ps[k]
    {
      var p: nat := data[i];
      if p % 4 != 0 && p != 0xffff {
        p := p + 1;
      }
      data := data[i := p - p % 4];
      i := i + 1;
    }
  }

  // ---------- SRAM ----------

  /** The words that hold a waveform, two points each; the last may hold one. */
  function Words(little: bool, ps: seq<Point>): (r: seq<nat>)
    ensures |r| == (|ps| + 1) / 2
  {
    seq((|ps| + 1) / 2, k requires 0 <= k < (|ps| + 1) / 2 =>
      if 2 * k + 1 < |ps| then ToHw(little, ps[2 * k], ps[2 * k + 1]) else ToHwSingle(little, ps[2 * k]))
  }

  /** Point k of what starts at a word address of SRAM. */
  function PointAt(little: bool, sram: seq<nat>, base: nat, k: nat): Point
    requires base + k / 2 < |sram|
  {
    var w := OnBus(little, sram[base + k / 2]);
    if k % 2 == 0 then RightHalf(w) else LeftHalf(w)
  }

  ghost predicate Stored(little: bool, sram: seq<nat>, base: nat, ps: seq<Point>) {
    base + |Words(little, ps)| <= |sram| && sram[base..base + |Words(little, ps)|] == Words(little, ps)
  }

  lemma StoredPoint(little: bool, sram: seq<nat>, base: nat, ps: seq<Point>, k: nat)
    requires Stored(little, sram, base, ps) && k < |ps|
    ensures base + k / 2 < |sram| && PointAt(little, sram, base, k) == ps[k]
  {
    hide ToHw, ToHwSingle, OnBus;
    var h := k / 2;
    assert sram[base + h] == sram[base..base + |Words(little, ps)|][h] == Words(little, ps)[h];
    BusWord(little, ps[2 * h], if 2 * h + 1 < |ps| then ps[2 * h + 1] else 0);
  }

  // ---------- descriptor blocks ----------

  function NextOf(w: nat): nat { Field(w, 0, 5) }

  function Gained(w: nat): bool { Field(w, 8, 1) == 1 }

  function GainOf(w: nat): nat { Field(w, GAIN_SHIFT, 3) }

  /** What the module plays for one block: how often, which points, and at which gain if it sets one. */
  datatype Gain = Default | Code(code: nat)
  datatype Played = Played(recurr: nat, points: seq<Point>, gain: Gain)

  function GainRead(w: nat): Gain { if Gained(w) then Code(GainOf(w)) else Default }

  function GainWanted(w: Wave): Gain { if w.dynamic then Code(w.code) else Default }

  function StartOf(regs: seq<nat>, j: nat): nat
    requires |regs| == REGISTERS && j < MAX_SEQUENCES
  {
    Field(regs[Block(j) + WFSTART], 0, 21)
  }

  function LengthOf(regs: seq<nat>, j: nat): nat
    requires |regs| == REGISTERS && j < MAX_SEQUENCES
  {
    Field(regs[Block(j) + WFLEN], 0, 20)
  }

  lemma Widths(w: nat)
    ensures Field(w, 0, 20) == w % LENGTHS && Field(w, 0, 21) == w % ADDRESSES
  {
    hide Trunc, Pow2;
    assert Shr(w, 0) == w;
    TruncIsMod(w, 20);
    TruncIsMod(w, 21);
    PowersOfWidths();
  }

  lemma PowersOfWidths()
    ensures Pow2(20) == LENGTHS && Pow2(21) == ADDRESSES
  {
    Pow2Values();
    assert Pow2(22) == 2 * Pow2(21) && Pow2(21) == 2 * Pow2(20);
  }

  /** The block's registers lie in the channel, and the points it names, if any, lie in SRAM. */
  predicate Readable(regs: seq<nat>, sram: seq<nat>, j: nat) {
    && |regs| == REGISTERS && j < MAX_SEQUENCES
    && (LengthOf(regs, j) > 0 ==> StartOf(regs, j) % 4 == 0 && StartOf(regs, j) / 4 + (LengthOf(regs, j) + 1) / 2 <= |sram|)
  }

  /** The hardware's reading of a block: as many bits of each register as it has. */
  function ReadBlock(little: bool, regs: seq<nat>, sram: seq<nat>, j: nat): Played
    requires Readable(regs, sram, j)
  {
    var base, len := StartOf(regs, j) / 4, LengthOf(regs, j);
    Played(regs[Block(j) + WFRECURR],
           seq(len, k requires 0 <= k < len => PointAt(little, sram, base, k)),
           GainRead(regs[Block(j) + WFNEXTBLK]))
  }

  /** Following the chain from block j plays ps and meets the end marker after the last of them. */
  ghost predicate Plays(little: bool, regs: seq<nat>, sram: seq<nat>, j: nat, ps: seq<Played>)
    decreases |ps|
  {
    && ps != [] && Readable(regs, sram, j) && ps[0] == ReadBlock(little, regs, sram, j)
    && var next := NextOf(regs[Block(j) + WFNEXTBLK]);
       if next == LAST then |ps| == 1 else Plays(little, regs, sram, next, ps[1..])
  }

  /** The chain determines what is played. */
  lemma {:induction false} PlaysOneThing(little: bool, regs: seq<nat>, sram: seq<nat>, j: nat, ps: seq<Played>, qs: seq<Played>)
    requires Plays(little, regs, sram, j, ps) && Plays(little, regs, sram, j, qs)
    ensures ps == qs
    decreases |ps|
  {
    hide ReadBlock, NextOf;
    assert ps == [ps[0]] + ps[1..] && qs == [qs[0]] + qs[1..];
    if NextOf(regs[Block(j) + WFNEXTBLK]) != LAST {
      PlaysOneThing(little, regs, sram, NextOf(regs[Block(j) + WFNEXTBLK]), ps[1..], qs[1..]);
    }
  }

  // ---------- what the loader leaves ----------

  /** Where waveform j starts, in bytes. */
  function Start(ws: seq<Wave>, j: nat): nat
    requires j <= |ws|
  {
    if j == 0 then 0 else Start(ws, j - 1) + 2 * |ws[j - 1].points|
  }

  /** SRAM is addressed in words: every waveform that another one with points follows fills its words. */
  predicate Aligned(ws: seq<Wave>) {
    forall i: nat, j: nat :: i < j < |ws| && ws[j].points != [] ==> |ws[i].points| % 2 == 0
  }

  predicate EvenBefore(ws: seq<Wave>, j: nat)
    requires j <= |ws|
  {
    forall i: nat :: i < j ==> |ws[i].points| % 2 == 0
  }

  lemma {:induction false} StartAligned(ws: seq<Wave>, j: nat)
    requires j <= |ws| && EvenBefore(ws, j)
    ensures Start(ws, j) % 4 == 0
  {
    if j > 0 {
      StartAligned(ws, j - 1);
      AddFours(Start(ws, j - 1), |ws[j - 1].points|);
    }
  }

  lemma AlignedStart(ws: seq<Wave>, j: nat)
    requires Aligned(ws) && j < |ws| && ws[j].points != []
    ensures Start(ws, j) % 4 == 0
  {
    StartAligned(ws, j);
  }

  lemma AddFours(a: nat, n: nat)
    requires a % 4 == 0 && n % 2 == 0
    ensures (a + 2 * n) % 4 == 0
  {
    var q, h := a / 4, n / 2;
    assert a + 2 * n == 4 * (q + h);
  }

  lemma {:induction false} StartGrows(ws: seq<Wave>, i: nat, j: nat)
    requires i < j <= |ws|
    ensures Start(ws, i) + 2 * |ws[i].points| <= Start(ws, j)
  {
    if i + 1 < j { StartGrows(ws, i, j - 1); }
  }

  /** Word addresses: waveforms do not overlap ... */
  lemma WordRanges(ws: seq<Wave>, i: nat, j: nat)
    requires Aligned(ws) && i < j < |ws| && ws[j].points != []
    ensures Start(ws, i) / 4 + (|ws[i].points| + 1) / 2 <= Start(ws, j) / 4
  {
    StartGrows(ws, i, j);
    StartAligned(ws, i);
    StartAligned(ws, j);
  }

  /** ... and the last ends inside the SRAM. */
  lemma LastFits(ws: seq<Wave>, j: nat)
    requires j < |ws| && Start(ws, |ws|) <= SRAM_SIZE
    ensures Start(ws, j) / 4 + (|ws[j].points| + 1) / 2 <= SRAM_WORDS
  {
    StartGrows(ws, j, |ws|);
    StartEven(ws, j);
  }

  lemma {:induction false} StartEven(ws: seq<Wave>, j: nat)
    requires j <= |ws|
    ensures Start(ws, j) % 2 == 0
  {
    if j > 0 { StartEven(ws, j - 1); }
  }

  /** The words of SRAM that waveform i occupies. */
  predicate Occupies(ws: seq<Wave>, i: nat, word: nat)
    requires i < |ws|
  {
    Start(ws, i) / 4 <= word < Start(ws, i) / 4 + (|ws[i].points| + 1) / 2
  }

  ghost predicate Disjoint(ws: seq<Wave>, i: nat, j: nat)
    requires i < |ws| && j < |ws|
  {
    forall word: nat :: !(Occupies(ws, i, word) && Occupies(ws, j, word))
  }

  /** The first waveform with an odd number of points. */
  lemma {:induction false} FirstOdd(ws: seq<Wave>, from: nat, odd: nat) returns (i: nat)
    requires from <= odd < |ws| && EvenBefore(ws, from) && |ws[odd].points| % 2 == 1
    ensures i <= odd && EvenBefore(ws, i) && |ws[i].points| % 2 == 1
    decreases odd - from
  {
    i := from;
    if |ws[from].points| % 2 == 0 { i := FirstOdd(ws, from + 1, odd); }
  }

  /** The next waveform with points starts where the i-th ends. */
  lemma {:induction false} NextWithPoints(ws: seq<Wave>, i: nat, from: nat, some: nat) returns (k: nat)
    requires i < from <= some < |ws| && ws[some].points != [] && Start(ws, from) == Start(ws, i + 1)
    ensures i < k < |ws| && ws[k].points != [] && Start(ws, k) == Start(ws, i + 1)
    decreases some - from
  {
    k := from;
    if ws[from].points == [] { k := NextWithPoints(ws, i, from + 1, some); }
  }

  /** No two waveforms share a word of SRAM, if and only if every waveform that another one with points
      follows has an even number of points. */
  lemma DisjointIff(ws: seq<Wave>)
    ensures (forall i: nat, j: nat :: i < j < |ws| ==> Disjoint(ws, i, j)) <==> Aligned(ws)
  {
    hide Start;
    if Aligned(ws) {
      forall i: nat, j: nat | i < j < |ws| ensures Disjoint(ws, i, j) {
        if ws[j].points != [] { WordRanges(ws, i, j); }
      }
    } else {
      var i0: nat, j0: nat :| i0 < j0 < |ws| && ws[j0].points != [] && |ws[i0].points| % 2 == 1;
      var i := FirstOdd(ws, 0, i0);
      var k := NextWithPoints(ws, i, i + 1, j0);
      StartAligned(ws, i);
      StartStep(ws, i);
      var word := Start(ws, k) / 4;
      assert Occupies(ws, i, word) && Occupies(ws, k, word);
      assert !Disjoint(ws, i, k);
    }
  }

  /** Addresses and lengths against the widths the hardware documents: a start address has 21 bits, and a
      length has 20, which is one point short of a waveform that fills the SRAM by itself. */
  lemma DescriptorWidths(ws: seq<Wave>, j: nat)
    requires j < |ws| && Start(ws, |ws|) <= SRAM_SIZE && ws[j].points != []
    ensures Start(ws, j) < 0x20_0000
    ensures |ws[j].points| < 0x10_0000 <==> 2 * |ws[j].points| != SRAM_SIZE
  {
    StartGrows(ws, j, |ws|);
  }

  /** Block j describes waveform w at byte address start; where its link goes is another matter. */
  ghost predicate Describes(regs: seq<nat>, j: nat, w: Wave, start: nat)
    requires |regs| == REGISTERS && j < MAX_SEQUENCES
  {
    && regs[Block(j) + WFSTART] == start && regs[Block(j) + WFLEN] == |w.points| && regs[Block(j) + WFRECURR] == w.recurr
    && GainRead(regs[Block(j) + WFNEXTBLK]) == GainWanted(w)
  }

  /** What is wanted of a waveform, and what the module plays of it: the length register wraps. */
  function Wanted(w: Wave): Played { Played(w.recurr, w.points, GainWanted(w)) }

  function Heard(w: Wave): Played { Played(w.recurr, w.points[..|w.points| % LENGTHS], GainWanted(w)) }

  function AllWanted(ws: seq<Wave>): (r: seq<Played>)
    ensures |r| == |ws|
  {
    seq(|ws|, j requires 0 <= j < |ws| => Wanted(ws[j]))
  }

  function AllHeard(ws: seq<Wave>): (r: seq<Played>)
    ensures |r| == |ws|
  {
    seq(|ws|, j requires 0 <= j < |ws| => Heard(ws[j]))
  }

  predicate LengthsFit(ws: seq<Wave>) { forall j: nat :: j < |ws| ==> |ws[j].points| < LENGTHS }

  lemma HeardIsWanted(ws: seq<Wave>)
    ensures AllHeard(ws) == AllWanted(ws) <==> LengthsFit(ws)
  {
    forall j: nat | j < |ws| ensures Heard(ws[j]) == Wanted(ws[j]) <==> |ws[j].points| < LENGTHS {
      if |ws[j].points| < LENGTHS { assert ws[j].points[..|ws[j].points|] == ws[j].points; }
    }
    assert forall j: nat :: j < |ws| ==> AllHeard(ws)[j] == Heard(ws[j]) && AllWanted(ws)[j] == Wanted(ws[j]);
  }

  lemma BlockHeard(little: bool, regs: seq<nat>, sram: seq<nat>, j: nat, w: Wave, start: nat)
    requires |regs| == REGISTERS && j < MAX_SEQUENCES && start + 2 * |w.points| <= SRAM_SIZE && (w.points != [] ==> start % 4 == 0)
    requires Describes(regs, j, w, start) && Stored(little, sram, start / 4, w.points)
    ensures Readable(regs, sram, j) && ReadBlock(little, regs, sram, j) == Heard(w)
  {
    hide PointAt, Stored, GainRead, GainWanted, Field, Words;
    Widths(start);
    Widths(|w.points|);
    var len := |w.points| % LENGTHS;
    if len > 0 {
      assert start / 4 + |Words(little, w.points)| <= |sram| by { StoredRoom(little, sram, start / 4, w.points); }
    }
    forall k: nat | k < len ensures start / 4 + k / 2 < |sram| && PointAt(little, sram, start / 4, k) == w.points[k] {
      StoredPoint(little, sram, start / 4, w.points, k);
    }
    assert ReadBlock(little, regs, sram, j).points == w.points[..len];
  }

  lemma StoredRoom(little: bool, sram: seq<nat>, base: nat, ps: seq<Point>)
    requires Stored(little, sram, base, ps)
    ensures base + |Words(little, ps)| <= |sram|
  {
  }

  /** The channel holds the sequence: every block describes its waveform, every waveform is in SRAM, and
      the links run from block to block and end. */
  ghost predicate Holds(little: bool, regs: seq<nat>, sram: seq<nat>, ws: seq<Wave>) {
    && |regs| == REGISTERS && |ws| <= MAX_SEQUENCES
    && (forall j: nat :: j < |ws| ==> Describes(regs, j, ws[j], Start(ws, j)))
    && (forall j: nat :: j < |ws| ==> Stored(little, sram, Start(ws, j) / 4, ws[j].points))
    && (forall j: nat :: j < |ws| ==> NextOf(regs[Block(j) + WFNEXTBLK]) == if j + 1 < |ws| then j + 1 else LAST)
  }

  /** A channel that holds a sequence plays its waveforms, each as far as the length register says, in
      order, and stops. */
  lemma {:induction false} HoldsPlays(little: bool, regs: seq<nat>, sram: seq<nat>, ws: seq<Wave>, j: nat)
    requires Holds(little, regs, sram, ws) && Aligned(ws) && j < |ws| && Start(ws, |ws|) <= SRAM_SIZE
    ensures Plays(little, regs, sram, j, AllHeard(ws)[j..])
    decreases |ws| - j
  {
    hide ReadBlock, Describes, Stored, NextOf, Heard, Readable, Start, Aligned, EvenBefore;
    if ws[j].points != [] { AlignedStart(ws, j); }
    StartGrows(ws, j, |ws|);
    BlockHeard(little, regs, sram, j, ws[j], Start(ws, j));
    var ps := AllHeard(ws)[j..];
    assert ps[0] == Heard(ws[j]) && ps[1..] == AllHeard(ws)[j + 1..];
    if j + 1 < |ws| {
      HoldsPlays(little, regs, sram, ws, j + 1);
    }
  }

  // ---------- updating a link word ----------

  /** cvorg_uchan on a register value. */
  function Updated(w: nat, value: nat, mask: nat): nat { Or(AndNot(w, mask), value) }

  lemma Masks()
    ensures NEXT_MASK == Mask(0, 5) && CONF_GAIN == Mask(8, 1) && GAIN_MASK == Mask(GAIN_SHIFT, 3)
    ensures CONF_GAIN == Shl(1, 8) && Pow2(5) == 32 && Pow2(1) == 2 && Pow2(3) == 8
  {
    Pow2Values();
    assert Pow2(9) == 2 * Pow2(8) && Pow2(10) == 2 * Pow2(9) && Pow2(11) == 2 * Pow2(10) && Pow2(12) == 2 * Pow2(11);
    assert Shl(1, 4) == 16 && Shl(1, 8) == 16 * Shl(1, 4);
  }

  lemma LinkUpdated(w: nat, v: nat)
    requires v < 32
    ensures var r := Updated(w, v, NEXT_MASK); NextOf(r) == v && GainRead(r) == GainRead(w)
  {
    hide Field, Or, AndNot, Mask, Pow2;
    Masks();
    var c := AndNot(w, NEXT_MASK);
    assert Shl(v, 0) == v;
    FieldCleared(w, 0, 5, 8, 1);
    FieldCleared(w, 0, 5, GAIN_SHIFT, 3);
    FieldFilled(c, v, 0, 5, 8, 1);
    FieldFilled(c, v, 0, 5, GAIN_SHIFT, 3);
  }

  lemma GainCleared(w: nat)
    ensures GainRead(AndNot(w, CONF_GAIN)) == Default && Field(AndNot(w, CONF_GAIN), 8, 1) == 0
  {
    hide Field, AndNot, Mask, Shl;
    Masks();
    FieldCleared(w, 8, 1, 8, 1);
  }

  lemma GainUpdated(w: nat, code: nat)
    requires code < 8 && Field(w, 8, 1) == 0
    ensures GainRead(Updated(Or(w, CONF_GAIN), Shl(code, GAIN_SHIFT), GAIN_MASK)) == Code(code)
  {
    hide Field, Or, AndNot, Mask, Pow2, Shl;
    Masks();
    var a := Or(w, CONF_GAIN);
    FieldFilled(w, 1, 8, 1, 8, 1);
    FieldCleared(a, GAIN_SHIFT, 3, 8, 1);
    FieldFilled(AndNot(a, GAIN_MASK), code, GAIN_SHIFT, 3, 8, 1);
  }

  // ---------- the code ----------

  class Channel {
    const little: bool
    var regs: seq<nat>
    var sram: seq<nat>
    var addr: nat

    predicate Valid()
      reads this
    {
      |regs| == REGISTERS && |sram| == SRAM_WORDS
    }

    /** cvorg_wchan */
    method Wchan(offset: nat, value: nat)
      requires offset < |regs|
      modifies this`regs
      ensures regs == old(regs)[offset := value]
    {
      regs := regs[offset := value];
    }

    /** cvorg_achan with a complemented mask */
    method Achan(offset: nat, mask: nat)
      requires offset < |regs|
      modifies this`regs
      ensures regs == old(regs)[offset := AndNot(old(regs)[offset], mask)]
    {
      Wchan(offset, AndNot(regs[offset], mask));
    }

    /** cvorg_ochan */
    method Ochan(offset: nat, value: nat)
      requires offset < |regs|
      modifies this`regs
      ensures regs == old(regs)[offset := Or(old(regs)[offset], value)]
    {
      Wchan(offset, Or(regs[offset], value));
    }

    /** cvorg_uchan */
    method Uchan(offset: nat, value: nat, mask: nat)
      requires offset < |regs|
      modifies this`regs
      ensures regs == old(regs)[offset := Updated(old(regs)[offset], value, mask)]
    {
      hide Or, AndNot;
      Achan(offset, mask);
      Ochan(offset, value);
    }

    /** A write to SRAMDATA goes to the word that holds the addressed byte; the address moves on to the
        next word. */
    method WriteSram(value: nat)
      requires addr / 4 < |sram|
      modifies this`sram, this`addr
      ensures sram == old(sram)[old(addr) / 4 := value] && addr == old(addr) + 4
    {
      sram := sram[addr / 4 := value];
      addr := addr + 4;
    }

    /** __sram */
    method Sram(data: seq<Point>, dest: nat)
      requires dest / 4 + (|data| + 1) / 2 <= |sram|
      modifies this`sram, this`addr
      ensures sram == Spliced(old(sram), dest / 4, Words(little, data))
    {
      hide ToHw, ToHwSingle, Spliced, Words;
      ghost var words, base := Words(little, data), dest / 4;
      addr := dest;
      var i: nat := 0;
      ghost var h: nat := 0;
      SpliceNone(sram, base, words);
      while i < |data| - 1
        invariant i == 2 * h <= |data| && addr == dest + 4 * h
        invariant sram == Spliced(old(sram), base, words[..h])
      {
        SpliceNext(old(sram), base, words, h);
        WordAt(little, data, h);
        WriteSram(ToHw(little, data[i], data[i + 1]));
        i := i + 2;
        h := h + 1;
      }
      if |data| % 2 != 0 {
        SpliceNext(old(sram), base, words, h);
        WordAt(little, data, h);
        WriteSram(ToHwSingle(little, data[i]));
        h := h + 1;
      }
      assert words[..h] == words;
    }

    /** cvorg_wv_mark_prev and cvorg_wv_mark_last: the link of a block, its gain left alone. */
    method Link(block: nat, next: nat)
      requires block + WFNEXTBLK < |regs| && next < 32
      modifies this`regs
      ensures |regs| == |old(regs)| && regs == old(regs)[block + WFNEXTBLK := regs[block + WFNEXTBLK]]
      ensures NextOf(regs[block + WFNEXTBLK]) == next
      ensures GainRead(regs[block + WFNEXTBLK]) == GainRead(old(regs)[block + WFNEXTBLK])
    {
      hide NextOf, GainRead, Updated;
      LinkUpdated(regs[block + WFNEXTBLK], next);
      Uchan(block + WFNEXTBLK, next, NEXT_MASK);
    }

    /** cvorg_wv_gain_store */
    method GainStore(block: nat, w: Wave)
      requires block + WFNEXTBLK < |regs| && w.code < 8
      modifies this`regs
      ensures |regs| == |old(regs)| && regs == old(regs)[block + WFNEXTBLK := regs[block + WFNEXTBLK]]
      ensures GainRead(regs[block + WFNEXTBLK]) == GainWanted(w)
    {
      hide GainRead, Updated, Or, AndNot, Field, Shl;
      var offset := block + WFNEXTBLK;
      GainCleared(regs[offset]);
      Achan(offset, CONF_GAIN);
      if w.dynamic {
        GainUpdated(regs[offset], w.code);
        Ochan(offset, CONF_GAIN);
        Uchan(offset, Shl(w.code, GAIN_SHIFT), GAIN_MASK);
      }
    }

    /** The registers of one block: cvorg_wv_store after the start address. */
    method StoreBlock(j: nat, w: Wave, ramaddr: nat)
      requires |regs| == REGISTERS && j < MAX_SEQUENCES && w.code < 8
      modifies this`regs
      ensures |regs| == REGISTERS && Describes(regs, j, w, ramaddr)
      ensures forall o: nat :: o < |regs| && !(Block(j) <= o < Block(j) + 0x10) ==> regs[o] == old(regs)[o]
    {
      hide GainRead, GainWanted;
      var block := Block(j);
      Wchan(block + WFSTART, ramaddr);
      Wchan(block + WFLEN, 2 * |w.points| / 2);
      Wchan(block + WFRECURR, w.recurr);
      GainStore(block, w);
    }

    /** The body of the loop of __cvorg_storeseq, for a waveform that has been normalised. */
    method StoreWave(i: nat, w: Wave, n: nat, ramaddr: nat, ghost ws: seq<Wave>)
      requires Valid() && Partly(little, regs, sram, ws, i) && i < |ws| == n && w == ws[i] && ramaddr == Start(ws, i)
      requires WavesOk(ws) && Start(ws, |ws|) <= SRAM_SIZE
      modifies this
      ensures Valid() && Partly(little, regs, sram, ws, i + 1)
      ensures regs[SEQNR] == old(regs)[SEQNR]
    {
      hide Describes, Stored, Words, NextOf, GainRead, Spliced, Start;
      LastFits(ws, i);
      ghost var was := sram;
      Sram(w.points, ramaddr);
      forall j: nat | j <= i && Aligned(ws) ensures Stored(little, sram, Start(ws, j) / 4, ws[j].points) {
        SramKeeps(little, was, ws, i, j);
      }
      StoreRegisters(i, w, n, ramaddr, ws);
    }

    /** The registers that this waveform changes: the link of the block before it, its own block, and its
        own link if it is the last. */
    method StoreRegisters(i: nat, w: Wave, n: nat, ramaddr: nat, ghost ws: seq<Wave>)
      requires i < |ws| == n <= MAX_SEQUENCES && w == ws[i] && WaveOk(w) && ramaddr == Start(ws, i) && |regs| == REGISTERS
      requires forall j: nat :: j < i ==> Describes(regs, j, ws[j], Start(ws, j))
      requires forall j: nat :: j + 1 < i ==> NextOf(regs[Block(j) + WFNEXTBLK]) == j + 1
      modifies this`regs
      ensures |regs| == REGISTERS
      ensures forall j: nat :: j <= i ==> Describes(regs, j, ws[j], Start(ws, j))
      ensures forall j: nat :: j < i ==> NextOf(regs[Block(j) + WFNEXTBLK]) == j + 1
      ensures i + 1 == n ==> NextOf(regs[Block(i) + WFNEXTBLK]) == LAST
      ensures regs[SEQNR] == old(regs)[SEQNR]
    {
      hide NextOf, GainRead, GainWanted, Start;
      if i > 0 {
        Link(Block(i - 1), i);
      }
      StoreBlock(i, w, ramaddr);
      if i == n - 1 {
        Link(Block(i), LAST);
      }
    }

    /** __cvorg_storeseq. A single waveform carries the number of cycles of the sequence in its own
        recurrence count. */
    method StoreWaves(nr: nat, ws0: seq<Wave>)
      requires Valid() && WavesOk(ws0) && 0 < |ws0| <= MAX_SEQUENCES && Start(ws0, |ws0|) <= SRAM_SIZE
      modifies this
      ensures Valid() && Partly(little, regs, sram, Prepared(nr, ws0), |ws0|)
      ensures Aligned(ws0) ==> Plays(little, regs, sram, 0, AllHeard(Prepared(nr, ws0)))
      ensures Aligned(ws0) ==> (Plays(little, regs, sram, 0, AllWanted(Prepared(nr, ws0))) <==> LengthsFit(ws0))
      ensures regs[SEQNR] == SequenceCount(nr, ws0)
    {
      hide Partly, Describes, Stored, Start, Normals, Plays, AllHeard, AllWanted, LengthsFit;
      ghost var target := Prepared(nr, ws0);
      PreparedSame(nr, ws0);
      var ws, count := ws0, nr;
      if |ws| == 1 {
        ws := ws[0 := ws[0].(recurr := ws[0].recurr * nr % WORD)];
        count := 1;
      }
      Wchan(SEQNR, count);
      PartlyStarts(little, regs, sram, target);
      var ramaddr := 0;
      for i := 0 to |ws|
        invariant Partly(little, regs, sram, target, i) && ramaddr == Start(target, i) && |ws| == |target|
        invariant forall j: nat :: i <= j < |ws| ==> ws[j].(points := Normals(ws[j].points)) == target[j]
        invariant Valid() && regs[SEQNR] == count
      {
        var data := Normalize(ws[i].points);
        ws := ws[i := ws[i].(points := data)];
        StoreWave(i, ws[i], |ws|, ramaddr, target);
        StartStep(target, i);
        ramaddr := ramaddr + 2 * |ws[i].points|;
      }
      if Aligned(ws0) { AllDone(little, regs, sram, target); }
      PreparedLengths(nr, ws0);
    }

    /** seq_size */
    method SeqSize(ws: seq<Wave>) returns (size: nat)
      ensures size == Start(ws, |ws|)
    {
      size := 0;
      for i := 0 to |ws|
        invariant size == Start(ws, i)
      {
        size := size + 2 * |ws[i].points|;
      }
    }

    /** cvorg_storeseq: refused, without touching the channel, when the waveforms do not fit, when there
        are none or too many of them, or when the SRAM stays busy; stored otherwise. */
    method StoreSeq(nr: nat, ws: seq<Wave>, busy: bool) returns (status: Status)
      requires Valid() && WavesOk(ws)
      modifies this
      ensures status == if Start(ws, |ws|) > SRAM_SIZE then NoMemory
                        else if |ws| == 0 || |ws| > MAX_SEQUENCES then Invalid
                        else if busy then TryAgain else Success
      ensures Valid() && (status != Success ==> regs == old(regs) && sram == old(sram))
      ensures status == Success && Aligned(ws) ==> Plays(little, regs, sram, 0, AllHeard(Prepared(nr, ws)))
      ensures status == Success && Aligned(ws) ==>
                (Plays(little, regs, sram, 0, AllWanted(Prepared(nr, ws))) <==> LengthsFit(ws))
      ensures status == Success ==> regs[SEQNR] == SequenceCount(nr, ws)
    {
      hide Partly, Plays, Start, AllHeard, AllWanted, LengthsFit;
      var size := SeqSize(ws);
      if size > SRAM_SIZE {
        return NoMemory;
      }
      if |ws| == 0 || |ws| > MAX_SEQUENCES {
        return Invalid;
      }
      if busy {
        return TryAgain;
      }
      StoreWaves(nr, ws);
      return Success;
    }
  }

  datatype Status = Success | NoMemory | Invalid | TryAgain

  /** How often a waveform is heard: cycles of the sequence times recurrence, 0 meaning without end. */
  datatype Count = Times(n: nat) | Forever

  function Repetitions(nr: nat, recurr: nat): Count {
    if nr == 0 || recurr == 0 then Forever else Times(nr * recurr)
  }

  /** Folding the cycles of a single waveform's sequence into its recurrence count keeps the total if and
      only if the product fits the 32-bit register. */
  lemma FoldingKeepsTotal(nr: nat, w: Wave)
    ensures Repetitions(SequenceCount(nr, [w]), Prepared(nr, [w])[0].recurr) == Repetitions(nr, w.recurr)
            <==> nr * w.recurr < WORD
  {
    hide Normals;
    assert Prepared(nr, [w])[0].recurr == w.recurr * nr % WORD;
    if nr != 0 && w.recurr != 0 {
      assert nr * w.recurr == w.recurr * nr > 0 by { Positive(nr, w.recurr); }
    }
  }

  lemma Positive(a: nat, b: nat)
    requires a > 0 && b > 0
    ensures a * b > 0
  {
  }

  /** The waveforms as they are loaded. */
  function Prepared(nr: nat, ws: seq<Wave>): (r: seq<Wave>)
    ensures |r| == |ws|
  {
    seq(|ws|, j requires 0 <= j < |ws| =>
      ws[j].(points := Normals(ws[j].points), recurr := if |ws| == 1 then ws[j].recurr * nr % WORD else ws[j].recurr))
  }

  function SequenceCount(nr: nat, ws: seq<Wave>): nat { if |ws| == 1 then 1 else nr }

  lemma {:induction false} PreparedStart(nr: nat, ws: seq<Wave>, j: nat)
    requires j <= |ws|
    ensures Start(Prepared(nr, ws), j) == Start(ws, j)
  {
    hide Normals;
    if j > 0 {
      PreparedStart(nr, ws, j - 1);
      assert Prepared(nr, ws)[j - 1].points == Normals(ws[j - 1].points);
    }
  }

  lemma PreparedSame(nr: nat, ws: seq<Wave>)
    requires WavesOk(ws)
    ensures var r := Prepared(nr, ws); WavesOk(r) && (Aligned(ws) <==> Aligned(r)) && Start(r, |r|) == Start(ws, |ws|)
  {
    hide Normals;
    var r := Prepared(nr, ws);
    PreparedStart(nr, ws, |ws|);
    forall j: nat | j < |r| ensures WaveOk(r[j]) { assert WaveOk(ws[j]); }
    assert forall j: nat :: j < |r| ==> |r[j].points| == |ws[j].points|;
  }

  lemma PartlyStarts(little: bool, regs: seq<nat>, sram: seq<nat>, ws: seq<Wave>)
    requires |regs| == REGISTERS && |sram| == SRAM_WORDS && 0 < |ws| <= MAX_SEQUENCES
    ensures Partly(little, regs, sram, ws, 0) && Start(ws, 0) == 0
  {
  }

  lemma StartStep(ws: seq<Wave>, i: nat)
    requires i < |ws|
    ensures Start(ws, i + 1) == Start(ws, i) + 2 * |ws[i].points|
  {
  }

  /** What the loader has done after i waveforms. */
  ghost predicate Partly(little: bool, regs: seq<nat>, sram: seq<nat>, ws: seq<Wave>, i: nat) {
    && |regs| == REGISTERS && |sram| == SRAM_WORDS && i <= |ws| <= MAX_SEQUENCES
    && (forall j: nat :: j < i ==> Describes(regs, j, ws[j], Start(ws, j)))
    && (Aligned(ws) ==> forall j: nat :: j < i ==> Stored(little, sram, Start(ws, j) / 4, ws[j].points))
    && (forall j: nat :: j < i && (j + 1 < i || i == |ws|) ==> NextOf(regs[Block(j) + WFNEXTBLK]) == if j + 1 < |ws| then j + 1 else LAST)
  }

  lemma AllDone(little: bool, regs: seq<nat>, sram: seq<nat>, ws: seq<Wave>)
    requires Partly(little, regs, sram, ws, |ws|) && ws != [] && Aligned(ws) && Start(ws, |ws|) <= SRAM_SIZE
    ensures Plays(little, regs, sram, 0, AllHeard(ws))
    ensures Plays(little, regs, sram, 0, AllWanted(ws)) <==> LengthsFit(ws)
  {
    hide Describes, Stored, NextOf, Start, Plays, AllHeard, AllWanted, LengthsFit;
    HoldsPlays(little, regs, sram, ws, 0);
    assert AllHeard(ws)[0..] == AllHeard(ws);
    HeardIsWanted(ws);
    if Plays(little, regs, sram, 0, AllWanted(ws)) { PlaysOneThing(little, regs, sram, 0, AllHeard(ws), AllWanted(ws)); }
  }

  lemma PreparedLengths(nr: nat, ws: seq<Wave>)
    ensures LengthsFit(Prepared(nr, ws)) <==> LengthsFit(ws)
  {
    hide Normals;
    assert forall j: nat :: j < |ws| ==> |Prepared(nr, ws)[j].points| == |ws[j].points|;
  }

  /** For instance, a single waveform that fills the SRAM is accepted and stored, and the module plays
      nothing of it. */
  lemma FullSramIsSilent(nr: nat, w: Wave)
    requires 2 * |w.points| == SRAM_SIZE
    ensures Start([w], 1) == SRAM_SIZE && Aligned([w]) && !LengthsFit([w])
    ensures |AllHeard(Prepared(nr, [w]))| == 1 && AllHeard(Prepared(nr, [w]))[0].points == []
  {
    hide Normals;
    assert Start([w], 0) == 0;
    assert |[w][0].points| == LENGTHS;
    assert |Prepared(nr, [w])[0].points| == LENGTHS;
  }

  /** Writing a waveform above those already there. */
  lemma SramKeeps(little: bool, sram: seq<nat>, ws: seq<Wave>, i: nat, j: nat)
    requires Aligned(ws) && i < |ws| && j <= i
    requires Start(ws, i) / 4 + |Words(little, ws[i].points)| <= |sram|
    requires j < i ==> Stored(little, sram, Start(ws, j) / 4, ws[j].points)
    ensures Stored(little, Spliced(sram, Start(ws, i) / 4, Words(little, ws[i].points)), Start(ws, j) / 4, ws[j].points)
  {
    hide Words, Spliced, Start, Aligned;
    SpliceAt(sram, Start(ws, i) / 4, Words(little, ws[i].points));
    if j < i && ws[i].points == [] {
      SpliceNothing(little, sram, Start(ws, i) / 4, ws[i].points);
    } else if j < i {
      WordRanges(ws, j, i);
      SpliceBelow(sram, Start(ws, i) / 4, Words(little, ws[i].points), Start(ws, j) / 4, |Words(little, ws[j].points)|);
    }
  }

  function Spliced(s: seq<nat>, at: nat, w: seq<nat>): (r: seq<nat>)
    requires at + |w| <= |s|
    ensures |r| == |s|
  {
    s[..at] + w + s[at + |w|..]
  }

  lemma SpliceAt(s: seq<nat>, at: nat, w: seq<nat>)
    requires at + |w| <= |s|
    ensures Spliced(s, at, w)[at..at + |w|] == w
  {
  }

  lemma SpliceBelow(s: seq<nat>, at: nat, w: seq<nat>, base: nat, n: nat)
    requires at + |w| <= |s| && base + n <= at
    ensures Spliced(s, at, w)[base..base + n] == s[base..base + n]
  {
  }

  lemma SpliceNothing(little: bool, s: seq<nat>, at: nat, ps: seq<Point>)
    requires ps == [] && at <= |s|
    ensures Words(little, ps) == [] && Spliced(s, at, Words(little, ps)) == s
  {
  }

  lemma SpliceNone(s: seq<nat>, at: nat, w: seq<nat>)
    requires at <= |s|
    ensures Spliced(s, at, w[..0]) == s
  {
  }

  lemma WordAt(little: bool, ps: seq<Point>, h: nat)
    requires 2 * h < |ps|
    ensures Words(little, ps)[h] ==
            if 2 * h + 1 < |ps| then ToHw(little, ps[2 * h], ps[2 * h + 1]) else ToHwSingle(little, ps[2 * h])
  {
    hide ToHw, ToHwSingle;
  }

  lemma SpliceNext(s: seq<nat>, at: nat, w: seq<nat>, i: nat)
    requires at + |w| <= |s| && i < |w|
    ensures Spliced(s, at, w[..i + 1]) == Spliced(s, at, w[..i])[at + i := w[i]]
  {
  }
}
