/** XSVF data commands against a device that is just a controller with a chain of cells: what the chain holds
    decides the outcome. */
module XsvfChain {
  import opened LenVal
  import opened Longs
  import opened TapController
  import opened XsvfPins
  import opened XsvfSeen
  import opened XsvfShifts
  import opened Xsvf
  import opened XsvfCommands

  function In(m: Mark): seq<bool> { if m.Clocked? then [m.tdi] else [] }

  function Out(m: Mark): (r: seq<bool>)
    ensures |r| == |In(m)|
  {
    if m.Clocked? then [m.tdo] else []
  }

  /** The bits that went in and those that came out. */
  function Ins(m: seq<Mark>): seq<bool> { if m == [] then [] else Ins(m[..|m| - 1]) + In(m[|m| - 1]) }

  function Outs(m: seq<Mark>): (r: seq<bool>)
    ensures |r| == |Ins(m)|
  {
    if m == [] then [] else Outs(m[..|m| - 1]) + Out(m[|m| - 1])
  }

  lemma OneMark(m: seq<Mark>, x: Mark)
    ensures Ins(m + [x]) == Ins(m) + In(x) && Outs(m + [x]) == Outs(m) + Out(x)
  {
    hide In, Out;
    assert (m + [x])[..|m|] == m;
  }

  lemma {:induction false} PutTogether(a: seq<Mark>, b: seq<Mark>)
    ensures Ins(a + b) == Ins(a) + Ins(b) && Outs(a + b) == Outs(a) + Outs(b)
    decreases |b|
  {
    hide In, Out, Ins, Outs;
    if b == [] {
      NoMarks();
      assert a + b == a;
    } else {
      var front, x := b[..|b| - 1], b[|b| - 1];
      assert b == front + [x] && a + b == (a + front) + [x];
      PutTogether(a, front);
      OneMark(front, x);
      OneMark(a + front, x);
      Associate(Ins(a), Ins(front), In(x));
      Associate(Outs(a), Outs(front), Out(x));
    }
  }

  lemma NoMarks()
    ensures Ins([]) == [] && Outs([]) == []
  {
  }

  lemma Associate(a: seq<bool>, b: seq<bool>, c: seq<bool>)
    ensures (a + b) + c == a + (b + c)
  {
  }

  lemma {:induction false} OfMarks(state: Tap, bits: seq<bool>, tdo: seq<bool>)
    requires |tdo| == |bits|
    ensures Ins(Marks(state, bits, tdo)) == bits && Outs(Marks(state, bits, tdo)) == tdo
    decreases |bits|
  {
    if bits != [] {
      var n := |bits| - 1;
      OfMarks(state, bits[..n], tdo[..n]);
      var m := Marks(state, bits, tdo);
      assert m[..n] == Marks(state, bits[..n], tdo[..n]);
      assert bits == bits[..n] + [bits[n]] && tdo == tdo[..n] + [tdo[n]];
    }
  }

  /** A chain that held `cells` and took in `ins` gave out `outs`, and holds `after`. */
  predicate Window(cells: seq<bool>, ins: seq<bool>, outs: seq<bool>, after: seq<bool>) {
    |outs| == |ins| && outs == (cells + ins)[..|ins|] && after == (cells + ins)[|ins|..]
  }

  /** Whatever happens on the port, the chain is a window that slides over what goes in. */
  lemma {:induction false} ChainIsWindow(chip: Chip, trace: seq<Event>)
    requires chip.chain != []
    ensures var m := Seen(ChainDevice(chip), chip, trace);
            |Drive(chip, trace).chain| == |chip.chain| && Window(chip.chain, Ins(m), Outs(m), Drive(chip, trace).chain)
    decreases |trace|
  {
    var dev := ChainDevice(chip);
    if trace == [] {
      assert chip.chain + [] == chip.chain;
    } else {
      var front, e := trace[..|trace| - 1], trace[|trace| - 1];
      assert trace == front + [e];
      ChainIsWindow(chip, front);
      SeenMore(dev, chip, [], front, e);
      assert [] + front == front;
      var m, c := Seen(dev, chip, front), Drive(chip, front);
      hide Seen, Drive, SeenFrom;
      PutTogether(m, MarkOf(dev, c, front, e));
      WindowStep(chip, dev, c, front, e, m);
    }
  }

  lemma WindowStep(chip: Chip, dev: Device, c: Chip, front: seq<Event>, e: Event, m: seq<Mark>)
    requires c.chain != [] && dev(front) == c.chain[0] && |c.chain| == |chip.chain|
    requires Window(chip.chain, Ins(m), Outs(m), c.chain)
    ensures var r := MarkOf(dev, c, front, e);
            && |Apply(c, e).chain| == |chip.chain|
            && Window(chip.chain, Ins(m) + Ins(r), Outs(m) + Outs(r), Apply(c, e).chain)
  {
    var r := MarkOf(dev, c, front, e);
    hide Window;
    if r == [] || r[0].Waited? {
      assert Ins(r) == [] && Outs(r) == [] && Ins(m) + [] == Ins(m) && Outs(m) + [] == Outs(m);
    } else {
      assert r[..0] == [];
      assert Ins(r) == Ins([]) + [c.tdi] == [c.tdi] && Outs(r) == Outs([]) + [dev(front)] == [c.chain[0]];
      WindowOne(chip.chain, Ins(m), Outs(m), c.chain, c.tdi);
    }
  }

  lemma WindowOne(cells: seq<bool>, ins: seq<bool>, outs: seq<bool>, chain: seq<bool>, bit: bool)
    requires Window(cells, ins, outs, chain) && chain != []
    ensures Window(cells, ins + [bit], outs + [chain[0]], chain[1..] + [bit])
  {
    var all := cells + (ins + [bit]);
    assert all == (cells + ins) + [bit];
    assert chain[0] == (cells + ins)[|ins|];
    assert all[..|ins| + 1] == (cells + ins)[..|ins|] + [(cells + ins)[|ins|]];
    assert all[|ins| + 1..] == (cells + ins)[|ins|..][1..] + [bit];
  }

  /** A window that slides in two parts. */
  lemma WindowSplit(cells: seq<bool>, a: seq<bool>, x: seq<bool>, b: seq<bool>, y: seq<bool>, after: seq<bool>)
    requires |x| == |a| && |y| == |b| && Window(cells, a + b, x + y, after)
    ensures Window(cells, a, x, (cells + a)[|a|..]) && Window((cells + a)[|a|..], b, y, after)
  {
    var all := cells + (a + b);
    var mid := (cells + a)[|a|..];
    assert all == (cells + a) + b && all[|a|..] == mid + b;
    assert x == (x + y)[..|a|] == all[..|a|] == (cells + a)[..|a|];
    assert y == (x + y)[|a|..] == all[|a|..|a| + |b|] == (mid + b)[..|b|];
    assert after == all[|a| + |b|..] == (mid + b)[|b|..];
  }

  /** What a chain as long as the data answers to a retry: the data, one cell further if an extra bit came after. */
  function Again(bits: seq<bool>, runTest: int): seq<bool>
    requires bits != []
  {
    if runTest == 0 then bits else bits[1..] + [bits[|bits| - 1]]
  }

  /** The first try, with what comes before the next one. */
  function Head(w: Width, bits: seq<bool>, first: Try, runTest: int): seq<Mark>
    requires bits != [] && |first.tdo| == |bits|
  {
    Marks(ShiftDR, bits, first.tdo) +
      if runTest == 0 then []
      else [Clocked(ShiftDR, bits[|bits| - 1], first.extra), Waited(RunTestIdle, false, Longer(w, runTest))]
  }

  lemma HeadAnswers(w: Width, bits: seq<bool>, first: Try, runTest: int, cells: seq<bool>)
    requires bits != [] && |first.tdo| == |bits| == |cells|
    ensures var h := Head(w, bits, first, runTest);
            && |Ins(h)| >= |bits| && Outs(h)[..|bits|] == first.tdo
            && (cells + Ins(h))[..|bits|] == cells && (cells + Ins(h))[|Ins(h)|..] == Again(bits, runTest)
  {
    hide Longer, Marks, Ins, Outs;
    var shift := Marks(ShiftDR, bits, first.tdo);
    OfMarks(ShiftDR, bits, first.tdo);
    if runTest == 0 {
      assert shift + [] == shift;
    } else {
      var extra := [Clocked(ShiftDR, bits[|bits| - 1], first.extra), Waited(RunTestIdle, false, Longer(w, runTest))];
      TwoMarks(extra);
      PutTogether(shift, extra);
    }
  }

  lemma TwoMarks(m: seq<Mark>)
    requires |m| == 2 && m[0].Clocked? && m[1].Waited?
    ensures Ins(m) == [m[0].tdi] && Outs(m) == [m[0].tdo]
  {
    assert m[..1] == [m[0]] && m[..1][..0] == [];
    assert Ins(m[..1]) == Ins([]) + [m[0].tdi] && Outs(m[..1]) == Outs([]) + [m[0].tdo];
  }

  lemma {:induction false} TriesAnswer(w: Width, bits: seq<bool>, tries: seq<Try>, runTest: int, cells: seq<bool>, after: seq<bool>)
    requires TriesOf(bits, tries) && |cells| == |bits| && IsLong(w, runTest)
    requires var m := TriesSeen(w, bits, tries, runTest); Window(cells, Ins(m), Outs(m), after)
    ensures tries[0].tdo == cells && forall k :: 0 < k < |tries| ==> tries[k].tdo == Again(bits, runTest)
    decreases |tries|
  {
    hide Pause, Longer, IsLong, Marks, Head, Ins, Outs, Window;
    var head := if |tries| == 1 then Marks(ShiftDR, bits, tries[0].tdo) else Head(w, bits, tries[0], runTest);
    var longer := if runTest == 0 then 0 else Longer(w, runTest);
    var more: seq<Try> := tries[1..];
    var rest := if |tries| == 1 then Pause(runTest) else TriesSeen(w, bits, more, longer);
    assert TriesSeen(w, bits, tries, runTest) == head + rest by { InHeads(w, bits, tries, runTest); }
    PutTogether(head, rest);
    WindowSplit(cells, Ins(head), Outs(head), Ins(rest), Outs(rest), after);
    if |tries| == 1 {
      OfMarks(ShiftDR, bits, tries[0].tdo);
      WindowFront(cells, bits, tries[0].tdo, |bits|);
      assert tries[0].tdo[..|bits|] == tries[0].tdo && (cells + bits)[..|bits|] == cells;
    } else {
      NonZeroLonger(w, runTest);
      SmallIsLong(w, 0);
      HeadAnswers(w, bits, tries[0], runTest, cells);
      WindowFront(cells, Ins(head), Outs(head), |bits|);
      TriesAnswer(w, bits, more, longer, Again(bits, runTest), after);
    }
  }

  lemma InHeads(w: Width, bits: seq<bool>, tries: seq<Try>, runTest: int)
    requires TriesOf(bits, tries)
    ensures |tries| == 1 ==> TriesSeen(w, bits, tries, runTest) == Marks(ShiftDR, bits, tries[0].tdo) + Pause(runTest)
    ensures var longer := if runTest == 0 then 0 else Longer(w, runTest);
            |tries| > 1 ==>
              TriesSeen(w, bits, tries, runTest) == Head(w, bits, tries[0], runTest) + TriesSeen(w, bits, tries[1..], longer)
  {
    hide Marks, Pause, Longer;
  }

  lemma WindowFront(cells: seq<bool>, ins: seq<bool>, outs: seq<bool>, n: nat)
    requires Window(cells, ins, outs, (cells + ins)[|ins|..]) && n <= |ins|
    ensures outs[..n] == (cells + ins)[..n]
  {
  }

  /** Against a chain exactly as long as the data, the cells decide: the command succeeds if and only if they hold
      what is expected, on the bits of the mask; or if there may be retries and the data itself is what is expected,
      one cell further when there is a run time, because every retry then clocks one bit more. */
  lemma ChainVerdict(env: Env, s: State, chip: Chip)
    requires StateOk(s) && WellFormed(env, s) && s.error == NONE && (s.command == 3 || s.command == 9)
    requires IsLong(env.long, s.runTest) && Tracks(Drive(chip, s.trace), s.tap) && s.tap != SHIFTIR
    requires env.tdo == ChainDevice(chip) && |chip.chain| == s.bits > 0
    ensures var expected := if s.command == 3 then s.expected else FileBytes(env, s.pos + s.bytes, s.bytes);
            var cells, bits := Drive(chip, s.trace).chain, FileBits(env, s.pos, s.bits);
            && |cells| == |bits|
            && (Execute(env, s).error == NONE <==>
                  || Answers(cells, expected, s.mask)
                  || (s.maxRepeat > 0 && Answers(Again(bits, s.runTest), expected, s.mask)))
  {
    hide Execute, Seen, Drive, FileBits, Answers, TriesSeen, ChainDevice, HoldsBits, IsLong, Window, Ins, Outs, Again;
    var tries := DataCommand(env, s, chip);
    var c, r := Drive(chip, s.trace), Execute(env, s);
    var bits := FileBits(env, s.pos, s.bits);
    ReEntry(env.tdo, c, s.trace, s.tap);
    ChainIsWindow(chip, s.trace);
    ChainIsWindow(chip, r.trace);
    var before, m := Seen(env.tdo, chip, s.trace), TriesSeen(env.long, bits, tries, s.runTest);
    assert before + [] + m == before + m;
    PutTogether(before, m);
    WindowSplit(chip.chain, Ins(before), Outs(before), Ins(m), Outs(m), Drive(chip, r.trace).chain);
    assert c.chain == (chip.chain + Ins(before))[|Ins(before)|..] by { WindowEnds(chip.chain, Ins(before), Outs(before), c.chain); }
    TriesAnswer(env.long, bits, tries, s.runTest, c.chain, Drive(chip, r.trace).chain);
  }

  lemma WindowEnds(cells: seq<bool>, ins: seq<bool>, outs: seq<bool>, after: seq<bool>)
    requires Window(cells, ins, outs, after)
    ensures after == (cells + ins)[|ins|..]
  {
  }
}
