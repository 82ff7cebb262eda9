/** What the shift commands of an XSVF file do to the chip on the port, in terms of the bytes of the file, the
    bits the chip clocks and the answers of the device. */
module XsvfCommands {
  import opened Bits
  import opened LenVal
  import opened Longs
  import opened TapController
  import opened XsvfPins
  import opened XsvfSeen
  import opened Xsvf
  import XsvfShifts

  // ---------- one turn of the retry loop ----------

  /** The bit clocked on the way to shift state x, if the way starts in the other one. */
  function Entry(dev: Device, c: Chip, done: seq<Event>, x: Tap): seq<Mark> {
    if c.state == x then [] else Edge(dev, c, done)
  }

  function Pause(usec: int): seq<Mark> { if usec == 0 then [] else [Waited(RunTestIdle, false, usec)] }

  /** The shifts the command functions ask for. */
  predicate Plain(job: Job, runTest: int) {
    && job.Valid() && job.bits != []
    && (job.endState == job.start || job.endState == RUNTEST || job.endState == PAUSEDR || job.endState == PAUSEIR)
    && (job.start == job.endState ==> runTest == 0)
    && (job.start == SHIFTIR ==> !job.compare)
  }

  lemma NoEdge(dev: Device, c: Chip, done: seq<Event>, s: nat)
    requires Code(c.state) == s && s != SHIFTDR && s != SHIFTIR
    ensures Edge(dev, c, done) == []
  {
  }

  lemma PauseOn(dev: Device, chip: Chip, trace: seq<Event>, s: nat, usec: int)
    requires s < 16 && Tracks(Drive(chip, trace), s) && usec != 0
    ensures var c := Drive(chip, trace);
            var t := trace + GotoTrace(s, RUNTEST) + WaitTrace(usec);
            && Tracks(Drive(chip, t), RUNTEST) && Drive(chip, t).tdi == c.tdi
            && Seen(dev, chip, t) == Seen(dev, chip, trace) + (if s == RUNTEST then [] else Edge(dev, c, trace)) + Pause(usec)
  {
    hide Seen, GotoTrace, WaitTrace, Drive, Edge;
    MoveOn(dev, chip, trace, s, RUNTEST);
    WaitOn(dev, chip, trace + GotoTrace(s, RUNTEST), RUNTEST, usec);
    assert Drive(chip, trace + GotoTrace(s, RUNTEST)).state == RunTestIdle;
  }

  lemma LeaveSeen(dev: Device, chip: Chip, w: Width, job: Job, trace: seq<Event>, retry: bool, runTest: int) returns (extra: bool)
    requires Plain(job, runTest) && job.Exits() && IsLong(w, runTest) && Tracks(Drive(chip, trace), job.start + 1)
    requires retry ==> job.start == SHIFTDR && runTest != 0
    ensures var c := Drive(chip, trace);
            var (t, tap, time) := Leave(w, job, trace, retry, runTest);
            && Tracks(Drive(chip, t), tap) && Drive(chip, t).tdi == c.tdi
            && Seen(dev, chip, t) == Seen(dev, chip, trace) + (if retry then [Clocked(ShiftDR, c.tdi, extra)] else []) + Pause(time)
  {
    hide Seen, GotoTrace, WaitTrace, Drive, Longer, IsLong, Pause;
    var exit1 := job.start + 1;
    LongerIs(w, runTest);
    extra := false;
    NoEdge(dev, Drive(chip, trace), trace, exit1);
    if retry {
      MoveOn(dev, chip, trace, exit1, PAUSEDR);
      var p := trace + GotoTrace(exit1, PAUSEDR);
      NoEdge(dev, Drive(chip, p), p, PAUSEDR);
      MoveOn(dev, chip, p, PAUSEDR, SHIFTDR);
      var q := p + GotoTrace(PAUSEDR, SHIFTDR);
      extra := dev(q + [TMS(true), TCK(false)]);
      PauseOn(dev, chip, q, SHIFTDR, Longer(w, runTest));
      assert Drive(chip, q).state == ShiftDR;
    } else {
      LeaveAtOnce(dev, chip, w, job, trace, runTest);
    }
  }

  lemma LeaveAtOnce(dev: Device, chip: Chip, w: Width, job: Job, trace: seq<Event>, runTest: int)
    requires Plain(job, runTest) && job.Exits() && Tracks(Drive(chip, trace), job.start + 1)
    ensures var (t, tap, time) := Leave(w, job, trace, false, runTest);
            && Tracks(Drive(chip, t), tap) && Drive(chip, t).tdi == Drive(chip, trace).tdi
            && Seen(dev, chip, t) == Seen(dev, chip, trace) + Pause(runTest)
  {
    hide Seen, GotoTrace, WaitTrace, Drive;
    var exit1 := job.start + 1;
    NoEdge(dev, Drive(chip, trace), trace, exit1);
    MoveOn(dev, chip, trace, exit1, job.endState);
    if runTest != 0 {
      var p := trace + GotoTrace(exit1, job.endState);
      NoEdge(dev, Drive(chip, p), p, job.endState);
      PauseOn(dev, chip, p, job.endState, runTest);
    }
  }

  /** What the chip answers to the shift of a turn. */
  function Tdo(env: Env, job: Job, trace: seq<Event>, tap: nat): (r: seq<bool>)
    requires job.Valid() && tap < 16
    ensures |r| == |job.bits|
  {
    TdoBits(env.tdo, trace + GotoTrace(tap, job.start), job.bits, job.Exits())
  }

  /** The answer is the expected one. */
  ghost predicate Matched(job: Job, tdo: seq<bool>)
    requires job.Valid() && job.bits != [] && |tdo| == |job.bits|
  {
    !job.compare || Matches(job.expected, PackBits(tdo, NumBytes(|job.bits|)), job.mask, job.masked)
  }

  lemma TurnSeen(env: Env, job: Job, chip: Chip, trace: seq<Event>, tap: nat, runTest: int, repeat: nat) returns (extra: bool)
    requires Plain(job, runTest) && tap < 16 && IsLong(env.long, runTest) && Tracks(Drive(chip, trace), tap)
    ensures var c, u, x := Drive(chip, trace), OneTurn(env, job, trace, tap, runTest, repeat), ShiftState(job.start);
            var tdo := Tdo(env, job, trace, tap);
            var retry := !Matched(job, tdo) && runTest != 0 && repeat < job.maxRepeat;
            && Tracks(Drive(chip, u.trace), u.tap)
            && u.mismatch == !Matched(job, tdo) && u.captured == PackBits(tdo, NumBytes(|job.bits|))
            && u.runTest == (if retry then Longer(env.long, runTest) else runTest)
            && Seen(env.tdo, chip, u.trace) ==
               Seen(env.tdo, chip, trace) + Entry(env.tdo, c, trace, x) + Marks(x, job.bits, tdo) +
               (if retry then [Clocked(ShiftDR, job.bits[|job.bits| - 1], extra)] else []) + Pause(u.runTest)
            && (u.tap == SHIFTDR || u.tap == SHIFTIR ==> u.tap == job.start)
  {
    hide Seen, GotoTrace, ShiftTrace, TdoBits, Drive, Leave, Matches, PackBits, Pause, Edge, IsLong, Longer;
    var c := Drive(chip, trace);
    MoveOn(env.tdo, chip, trace, tap, job.start);
    var t1 := trace + GotoTrace(tap, job.start);
    ShiftOn(env.tdo, chip, t1, job.start, job.bits, job.Exits());
    var t2 := t1 + ShiftTrace(job.bits, job.Exits());
    extra := false;
    if job.Exits() {
      var retry := !Matched(job, Tdo(env, job, trace, tap)) && runTest != 0 && repeat < job.maxRepeat;
      extra := LeaveSeen(env.tdo, chip, env.long, job, t2, retry, runTest);
      LeaveEnds(env.long, job, t2, retry, runTest);
    } else {
      NoPause();
    }
  }

  lemma NoPause()
    ensures Pause(0) == []
  {
  }

  lemma LeaveEnds(w: Width, job: Job, trace: seq<Event>, retry: bool, runTest: int)
    requires Plain(job, runTest) && job.Exits() && IsLong(w, runTest) && (retry ==> runTest != 0)
    ensures var (_, tap, time) := Leave(w, job, trace, retry, runTest);
            && tap != SHIFTDR && tap != SHIFTIR
            && time == (if retry then Longer(w, runTest) else runTest)
            && tap == if runTest != 0 then RUNTEST else job.endState
  {
    hide GotoTrace, WaitTrace, Longer, IsLong;
    LongerIs(w, runTest);
  }

  // ---------- the loop ----------

  /** One shift of a data command: what the device answered to it, and to the extra bit before a retry. */
  datatype Try = Try(tdo: seq<bool>, extra: bool)

  predicate TriesOf(bits: seq<bool>, tries: seq<Try>) {
    bits != [] && tries != [] && forall k :: 0 <= k < |tries| ==> |tries[k].tdo| == |bits|
  }

  /** What the chip sees of them: every try clocks the same bits. A try before a retry is followed, if there is
      a run time, by one extra bit and a longer wait; the last one by the wait. */
  function TriesSeen(w: Width, bits: seq<bool>, tries: seq<Try>, runTest: int): seq<Mark>
    requires TriesOf(bits, tries)
    decreases |tries|
  {
    var shift := Marks(ShiftDR, bits, tries[0].tdo);
    if |tries| == 1 then shift + Pause(runTest)
    else if runTest == 0 then shift + TriesSeen(w, bits, tries[1..], 0)
    else
      var longer := Longer(w, runTest);
      shift + [Clocked(ShiftDR, bits[|bits| - 1], tries[0].extra), Waited(RunTestIdle, false, longer)] +
        TriesSeen(w, bits, tries[1..], longer)
  }

  lemma FirstTry(w: Width, bits: seq<bool>, first: Try, rest: seq<Try>, runTest: int)
    requires TriesOf(bits, rest) && |first.tdo| == |bits|
    ensures TriesOf(bits, [first] + rest)
    ensures TriesSeen(w, bits, [first] + rest, runTest) ==
            Marks(ShiftDR, bits, first.tdo) +
            (if runTest == 0 then TriesSeen(w, bits, rest, 0)
             else [Clocked(ShiftDR, bits[|bits| - 1], first.extra), Waited(RunTestIdle, false, Longer(w, runTest))] +
                  TriesSeen(w, bits, rest, Longer(w, runTest)))
  {
    assert ([first] + rest)[1..] == rest;
  }

  lemma OnlyTry(w: Width, bits: seq<bool>, only: Try, runTest: int)
    requires bits != [] && |only.tdo| == |bits|
    ensures TriesOf(bits, [only]) && TriesSeen(w, bits, [only], runTest) == Marks(ShiftDR, bits, only.tdo) + Pause(runTest)
  {
  }

  lemma NonZeroLonger(w: Width, runTest: int)
    requires IsLong(w, runTest)
    ensures IsLong(w, Longer(w, runTest)) && (Longer(w, runTest) == 0 <==> runTest == 0)
    ensures runTest != 0 ==> Pause(Longer(w, runTest)) == [Waited(RunTestIdle, false, Longer(w, runTest))]
  {
    LongerIs(w, runTest);
  }

  /** What the loop from some turn on, with `left` retries to go, does to a chip. */
  ghost predicate LoopSeen(env: Env, job: Job, chip: Chip, trace: seq<Event>, runTest: int, left: int, o: Outcome, tries: seq<Try>)
    requires job.Valid()
  {
    && TriesOf(job.bits, tries) && |tries| <= left + 1 && o.matched != []
    && Tracks(Drive(chip, o.trace), o.tap)
    && Seen(env.tdo, chip, o.trace) ==
       Seen(env.tdo, chip, trace) + Entry(env.tdo, Drive(chip, trace), trace, ShiftDR) +
       TriesSeen(env.long, job.bits, tries, runTest)
    && (forall k :: 0 <= k < |tries| - 1 ==> !Matched(job, tries[k].tdo))
    && (o.Failed() <==> !Matched(job, tries[|tries| - 1].tdo))
    && (o.Failed() ==> |tries| == left + 1)
    && o.captured == PackBits(tries[|tries| - 1].tdo, NumBytes(|job.bits|))
  }

  lemma LoopAgain(env: Env, job: Job, chip: Chip, trace: seq<Event>, runTest: int, left: int, u: Turn, o: Outcome, first: Try, rest: seq<Try>)
    requires Plain(job, runTest) && u.tap != SHIFTIR && Tracks(Drive(chip, u.trace), u.tap)
    requires |first.tdo| == |job.bits| && !Matched(job, first.tdo)
    requires u.runTest == if runTest != 0 then Longer(env.long, runTest) else 0
    requires Seen(env.tdo, chip, u.trace) ==
             Seen(env.tdo, chip, trace) + Entry(env.tdo, Drive(chip, trace), trace, ShiftDR) + Marks(ShiftDR, job.bits, first.tdo) +
             (if runTest != 0 then [Clocked(ShiftDR, job.bits[|job.bits| - 1], first.extra), Waited(RunTestIdle, false, u.runTest)] else [])
    requires LoopSeen(env, job, chip, u.trace, u.runTest, left - 1, o, rest)
    ensures LoopSeen(env, job, chip, trace, runTest, left,
                     o.(matched := [false] + o.matched, waits := u.waits + o.waits), [first] + rest)
  {
    hide Seen, Drive, Matched, PackBits, TriesSeen, Longer, Pause, Entry, Marks, Tracks, NumBytes;
    FirstTry(env.long, job.bits, first, rest, runTest);
    ReEntry(env.tdo, Drive(chip, u.trace), u.trace, u.tap);
  }

  lemma LoopEnds(env: Env, job: Job, chip: Chip, trace: seq<Event>, runTest: int, left: nat, u: Turn, only: Try)
    requires Plain(job, runTest) && Tracks(Drive(chip, u.trace), u.tap)
    requires |only.tdo| == |job.bits| && u.mismatch == !Matched(job, only.tdo) && (u.mismatch ==> left == 0)
    requires u.captured == PackBits(only.tdo, NumBytes(|job.bits|))
    requires Seen(env.tdo, chip, u.trace) ==
             Seen(env.tdo, chip, trace) + Entry(env.tdo, Drive(chip, trace), trace, ShiftDR) +
             Marks(ShiftDR, job.bits, only.tdo) + Pause(runTest)
    ensures LoopSeen(env, job, chip, trace, runTest, left, Outcome(u.trace, u.tap, u.captured, [!u.mismatch], u.waits), [only])
  {
    hide Seen, Drive, Matched, PackBits, TriesSeen, Pause, Entry, Marks, Tracks, NumBytes;
    OnlyTry(env.long, job.bits, only, runTest);
  }

  /** The retry loop against a chip that tracks the shadow state. */
  lemma {:induction false} AttemptsSeen(env: Env, job: Job, chip: Chip, trace: seq<Event>, tap: nat, runTest: int, repeat: nat)
    returns (tries: seq<Try>)
    requires Plain(job, runTest) && job.start == SHIFTDR && tap < 16 && repeat <= job.maxRepeat
    requires IsLong(env.long, runTest) && Tracks(Drive(chip, trace), tap)
    ensures LoopSeen(env, job, chip, trace, runTest, job.maxRepeat - repeat,
                     Attempts(env, job, trace, tap, runTest, repeat), tries)
    decreases job.maxRepeat - repeat
  {
    hide LoopSeen, Seen, Drive, OneTurn, Matched, PackBits, IsLong, Longer, Pause, Entry, Tdo, Marks, Tracks, NumBytes;
    var extra := TurnSeen(env, job, chip, trace, tap, runTest, repeat);
    var u := OneTurn(env, job, trace, tap, runTest, repeat);
    var first := Try(Tdo(env, job, trace, tap), extra);
    NonZeroLonger(env.long, runTest);
    NoPause();
    if u.mismatch && repeat < job.maxRepeat {
      var rest := AttemptsSeen(env, job, chip, u.trace, u.tap, u.runTest, repeat + 1);
      tries := [first] + rest;
      LoopAgain(env, job, chip, trace, runTest, job.maxRepeat - repeat, u,
                Attempts(env, job, u.trace, u.tap, u.runTest, repeat + 1), first, rest);
    } else {
      tries := [first];
      LoopEnds(env, job, chip, trace, runTest, job.maxRepeat - repeat, u, first);
    }
  }

  lemma ReEntry(dev: Device, c: Chip, done: seq<Event>, tap: nat)
    requires Tracks(c, tap) && tap != SHIFTIR
    ensures Entry(dev, c, done, ShiftDR) == []
  {
  }

  // ---------- bytes of the file, bits of the answer ----------

  function FileByte(env: Env, p: nat): Byte { if p < |env.input| then env.input[p] else 255 }

  function FileBytes(env: Env, p: nat, n: nat): (r: seq<Byte>)
    ensures |r| == n
  {
    seq<Byte>(n, i requires 0 <= i < n => FileByte(env, p + i))
  }

  /** The bits of a value in the order they are shifted: the last byte first, its low bit first. */
  function DataBits(v: seq<Byte>, n: nat): (r: seq<bool>)
    requires |v| == (n + 7) / 8
    ensures |r| == n
  {
    seq(n, i requires 0 <= i < n => Bit(v[|v| - 1 - i / 8], i % 8))
  }

  /** The n bits to be shifted from position p. */
  function FileBits(env: Env, p: nat, n: nat): (r: seq<bool>)
    ensures |r| == n
  {
    DataBits(FileBytes(env, p, (n + 7) / 8), n)
  }

  predicate BitAt(bits: seq<bool>, i: nat) { i < |bits| && bits[i] }

  /** On the bits of m, byte e is what was answered from bit i on. */
  ghost predicate AnswersByte(tdo: seq<bool>, i: nat, e: Byte, m: Byte) {
    forall k: nat :: k < 8 && Bit(m, k) ==> (Bit(e, k) <==> BitAt(tdo, i + k))
  }

  /** The device answered what is expected, on the bits set in the mask; beyond its answer it counts as zero.
      The byte strings have their last bits first. */
  ghost predicate Answers(tdo: seq<bool>, expected: seq<Byte>, mask: seq<Byte>)
    requires |expected| <= |mask| && |expected| <= (|tdo| + 7) / 8
  {
    forall b: nat :: b < |expected| ==> AnswersByte(tdo, 8 * ((|tdo| + 7) / 8 - 1 - b), expected[b], mask[b])
  }

  /** A byte string holds these bits. */
  predicate HoldsBits(v: seq<Byte>, bits: seq<bool>) { |v| == (|bits| + 7) / 8 && DataBits(v, |bits|) == bits }

  lemma BitOfBytes(v: seq<Byte>, i: nat)
    requires i < 8 * |v|
    ensures i / 8 < |v| && (BitsOf(v)[i] <==> Bit(v[|v| - 1 - i / 8], i % 8))
  {
    hide BitsOf, Bit;
    var q, k := i / 8, i % 8;
    assert i == 8 * q + k && q < |v|;
    BitsOfAt(v, q, k);
  }

  lemma ReadIsFile(env: Env, p: nat, n: nat)
    ensures InputAt(env, p) == FileByte(env, p) && Read(env, p, n) == FileBytes(env, p, n)
  {
    forall i: nat | i < n ensures Read(env, p, n)[i] == FileBytes(env, p, n)[i] {
      assert Read(env, p, n)[i] == InputAt(env, p + i);
      assert FileBytes(env, p, n)[i] == FileByte(env, p + i);
    }
  }

  lemma FirstBitsAre(v: seq<Byte>, n: nat)
    requires |v| == (n + 7) / 8
    ensures FirstBits(v, n) == DataBits(v, n)
  {
    hide BitsOf, Bit;
    forall i: nat | i < n ensures BitsOf(v)[i] == DataBits(v, n)[i] { BitOfBytes(v, i); }
  }

  lemma ShiftedFromFile(env: Env, p: nat, n: nat)
    ensures FirstBits(Read(env, p, NumBytes(n)), n) == FileBits(env, p, n)
  {
    ReadIsFile(env, p, NumBytes(n));
    FirstBitsAre(FileBytes(env, p, NumBytes(n)), n);
  }

  lemma PackedHolds(tdo: seq<bool>)
    ensures HoldsBits(PackBits(tdo, NumBytes(|tdo|)), tdo)
  {
    hide PackBits, BitsOf, Bit;
    var v := PackBits(tdo, NumBytes(|tdo|));
    forall i: nat | i < |tdo| ensures tdo[i] <==> Bit(v[|v| - 1 - i / 8], i % 8) {
      PackBitsAt(tdo, |v|, i);
      BitOfBytes(v, i);
    }
  }

  lemma PackedByte(tdo: seq<bool>, b: nat, k: nat)
    requires b < NumBytes(|tdo|) && k < 8
    ensures var n := NumBytes(|tdo|); Bit(PackBits(tdo, n)[b], k) <==> BitAt(tdo, 8 * (n - 1 - b) + k)
  {
    hide PackBits, Bit, BitsOf;
    var n := NumBytes(|tdo|);
    BitsOfAt(PackBits(tdo, n), n - 1 - b, k);
    PackBitsAt(tdo, n, 8 * (n - 1 - b) + k);
  }

  lemma ByteIsAnswered(tdo: seq<bool>, b: nat, e: Byte, m: Byte)
    requires b < NumBytes(|tdo|)
    ensures var n := NumBytes(|tdo|); SameUnder(e, PackBits(tdo, n)[b], m) <==> AnswersByte(tdo, 8 * (n - 1 - b), e, m)
  {
    hide PackBits, Bit, BitAt;
    forall k: nat | k < 8 { PackedByte(tdo, b, k); }
  }

  lemma MatchesIsAnswers(tdo: seq<bool>, expected: seq<Byte>, mask: seq<Byte>, masked: bool, m: seq<Byte>)
    requires |expected| <= NumBytes(|tdo|) && (masked ==> |expected| <= |mask|) && |expected| <= |m|
    requires forall b: nat :: b < |expected| ==> m[b] == if masked then mask[b] else 255
    ensures Matches(expected, PackBits(tdo, NumBytes(|tdo|)), mask, masked) <==> Answers(tdo, expected, m)
  {
    hide PackBits, SameUnder, AnswersByte;
    forall b: nat | b < |expected| { ByteIsAnswered(tdo, b, expected[b], m[b]); }
  }

  // ---------- instruction commands ----------

  /** The controller states that XENDIR and XENDDR choose. */
  function RestState(end: nat): Tap {
    if end == PAUSEIR then PauseIR else if end == PAUSEDR then PauseDR else RunTestIdle
  }

  /** The chip clocks exactly these bits in Shift-IR, after one bit if the command leaves Shift-DR, and then time
      passes if there is a run time. It comes to rest in Run-Test/Idle then, else where XENDIR says. */
  ghost predicate InstructionSeen(env: Env, s: State, r: State, chip: Chip, bits: seq<bool>) {
    var c := Drive(chip, s.trace);
    && (exists tdo: seq<bool> ::
          |tdo| == |bits| && Seen(env.tdo, chip, r.trace) ==
                             Seen(env.tdo, chip, s.trace) + Entry(env.tdo, c, s.trace, ShiftIR) +
                             Marks(ShiftIR, bits, tdo) + Pause(s.runTest))
    && Drive(chip, r.trace).state == if s.runTest != 0 then RunTestIdle else RestState(s.endIR)
  }

  /** Without bits there is only the wait. */
  ghost predicate NothingSeen(env: Env, s: State, r: State, chip: Chip) {
    var c := Drive(chip, s.trace);
    && Seen(env.tdo, chip, r.trace) ==
       Seen(env.tdo, chip, s.trace) + (if s.runTest == 0 then [] else Entry(env.tdo, c, s.trace, RunTestIdle)) + Pause(s.runTest)
    && Drive(chip, r.trace).state == if s.runTest != 0 then RunTestIdle else c.state
  }

  lemma RestsIn(c: Chip, end: nat)
    requires Tracks(c, end) && (end == RUNTEST || end == PAUSEIR || end == PAUSEDR)
    ensures c.state == RestState(end)
  {
  }

  lemma IrShiftSeen(env: Env, s: State, chip: Chip, n: nat)
    requires StateOk(s) && IsLong(env.long, s.runTest) && Tracks(Drive(chip, s.trace), s.tap)
    requires |s.tdi| == NumBytes(n) && n > 0
    ensures var r := Shift(env, s, IrJob(s, s.tdi, n), s.runTest);
            && r.error == s.error && r.captured == s.captured
            && InstructionSeen(env, s, r, chip, FirstBits(s.tdi, n))
  {
    hide Seen, Drive, FirstBits, Marks, Pause, OneTurn, TdoBits, IsLong, Entry;
    var job := IrJob(s, s.tdi, n);
    var extra := TurnSeen(env, job, chip, s.trace, s.tap, s.runTest, 0);
    XsvfShifts.TurnEnds(env, job, s.trace, s.tap, s.runTest, 0);
    var u := OneTurn(env, job, s.trace, s.tap, s.runTest, 0);
    var tdo := Tdo(env, job, s.trace, s.tap);
    RestsIn(Drive(chip, u.trace), u.tap);
    assert |tdo| == n;
    var r := Shift(env, s, job, s.runTest);
    assert r.trace == u.trace;
    AppendNothing(Seen(env.tdo, chip, s.trace) + Entry(env.tdo, Drive(chip, s.trace), s.trace, ShiftIR) + Marks(ShiftIR, job.bits, tdo));
  }

  lemma AppendNothing(a: seq<Mark>)
    ensures a + [] == a
  {
  }

  lemma EmptyShiftSeen(env: Env, s: State, job: Job, chip: Chip)
    requires s.tap < 16 && job.Valid() && job.bits == [] && Tracks(Drive(chip, s.trace), s.tap)
    ensures var r := Shift(env, s, job, s.runTest);
            r.error == s.error && r.captured == s.captured && NothingSeen(env, s, r, chip)
  {
    hide Seen, Drive, GotoTrace, WaitTrace, Edge;
    if s.runTest != 0 {
      PauseOn(env.tdo, chip, s.trace, s.tap, s.runTest);
    }
  }

  // ---------- data commands ----------

  /** The chip clocks these bits in Shift-DR, once for each try, after one bit if the command leaves Shift-IR. Tries
      go on until the device answers as expected under the mask, for XREPEAT retries at most. The error says
      whether it ever did, and the answer to the last try is kept. */
  ghost predicate DataSeen(env: Env, s: State, r: State, chip: Chip, bits: seq<bool>, expected: seq<Byte>, mask: seq<Byte>, tries: seq<Try>)
    requires TriesOf(bits, tries) && |expected| <= |mask| && |expected| <= (|bits| + 7) / 8
  {
    var last := |tries| - 1;
    && |tries| <= s.maxRepeat + 1
    && Seen(env.tdo, chip, r.trace) ==
       Seen(env.tdo, chip, s.trace) + Entry(env.tdo, Drive(chip, s.trace), s.trace, ShiftDR) +
       TriesSeen(env.long, bits, tries, s.runTest)
    && (forall k :: 0 <= k < last ==> !Answers(tries[k].tdo, expected, mask))
    && (!Answers(tries[last].tdo, expected, mask) ==> last == s.maxRepeat)
    && r.error == (if Answers(tries[last].tdo, expected, mask) then NONE
                   else if 0 < s.maxRepeat < 255 then MAXRETRIES else TDOMISMATCH)
    && HoldsBits(r.captured, tries[last].tdo)
    && Drive(chip, r.trace).state == if s.runTest != 0 then RunTestIdle else RestState(s.endDR)
  }

  lemma ShiftTdiSeen(env: Env, s: State, chip: Chip) returns (tries: seq<Try>)
    requires StateOk(s) && |s.tdi| == s.bytes && CanCompare(s) && s.bits > 0 && s.error == NONE
    requires IsLong(env.long, s.runTest) && Tracks(Drive(chip, s.trace), s.tap)
    ensures TriesOf(FirstBits(s.tdi, s.bits), tries)
    ensures DataSeen(env, s, ShiftTdi(env, s), chip, FirstBits(s.tdi, s.bits), s.expected, s.mask, tries)
  {
    hide Seen, Drive, FirstBits, Attempts, TriesSeen, Entry, PackBits, Matches, Answers, HoldsBits, IsLong;
    var job := DrJob(s);
    tries := AttemptsSeen(env, job, chip, s.trace, s.tap, s.runTest, 0);
    XsvfShifts.RetriesFrom(env, job, s.trace, s.tap, s.runTest, 0);
    var o := Attempts(env, job, s.trace, s.tap, s.runTest, 0);
    RestsIn(Drive(chip, o.trace), o.tap);
    forall k | 0 <= k < |tries| ensures Matched(job, tries[k].tdo) <==> Answers(tries[k].tdo, s.expected, s.mask) {
      MatchesIsAnswers(tries[k].tdo, s.expected, s.mask, true, s.mask);
    }
    PackedHolds(tries[|tries| - 1].tdo);
  }

  /** XSDR and XSDRTDO, which also reads what to expect. */
  lemma DataCommand(env: Env, s: State, chip: Chip) returns (tries: seq<Try>)
    requires StateOk(s) && WellFormed(env, s) && s.error == NONE && s.bits > 0 && (s.command == 3 || s.command == 9)
    requires IsLong(env.long, s.runTest) && Tracks(Drive(chip, s.trace), s.tap)
    ensures var r, bits := Execute(env, s), FileBits(env, s.pos, s.bits);
            var expected := if s.command == 3 then s.expected else FileBytes(env, s.pos + s.bytes, s.bytes);
            && TriesOf(bits, tries) && DataSeen(env, s, r, chip, bits, expected, s.mask, tries)
            && r == s.(tdi := FileBytes(env, s.pos, s.bytes), expected := expected,
                       pos := s.pos + (if s.command == 3 then s.bytes else 2 * s.bytes),
                       trace := r.trace, tap := r.tap, captured := r.captured, error := r.error)
  {
    hide Seen, Drive, FirstBits, ShiftTdi, TriesSeen, Entry, Answers, HoldsBits, IsLong, Read, Tracks;
    ReadIsFile(env, s.pos, s.bytes);
    ReadIsFile(env, s.pos + s.bytes, s.bytes);
    ShiftedFromFile(env, s.pos, s.bits);
    var s1 := Take(env, s, s.bytes);
    var s2 := if s.command == 3 then s1 else s1.(expected := Read(env, s1.pos, s.bytes), pos := s1.pos + s.bytes);
    tries := ShiftTdiSeen(env, s2, chip);
    assert Execute(env, s) == ShiftTdi(env, s2);
  }

  /** Without bits, they only wait. */
  lemma EmptyDataCommand(env: Env, s: State, chip: Chip)
    requires StateOk(s) && WellFormed(env, s) && s.bits == 0 && (s.command == 3 || s.command == 9)
    requires Tracks(Drive(chip, s.trace), s.tap)
    ensures var r := Execute(env, s); r.error == s.error && r.captured == s.captured && NothingSeen(env, s, r, chip)
  {
    hide Seen, Drive, FirstBits, Shift, Entry, Read, Tracks;
    var s1 := Take(env, s, s.bytes);
    var s2 := if s.command == 3 then s1 else s1.(expected := Read(env, s1.pos, s.bytes), pos := s1.pos + s.bytes);
    EmptyShiftSeen(env, s2, DrJob(s2), chip);
  }

  /** XSIR and XSIR2, whose length has one byte or two. */
  lemma InstructionCommand(env: Env, s: State, chip: Chip)
    requires StateOk(s) && (s.command == 2 || s.command == 21)
    requires IsLong(env.long, s.runTest) && Tracks(Drive(chip, s.trace), s.tap)
    ensures var r := Execute(env, s);
            var n := if s.command == 2 then FileByte(env, s.pos) else 256 * FileByte(env, s.pos) + FileByte(env, s.pos + 1);
            var p := s.pos + if s.command == 2 then 1 else 2;
            && r == s.(tdi := r.tdi, pos := r.pos, trace := r.trace, tap := r.tap, error := r.error)
            && if (n + 7) / 8 > 7000 then r.error == DATAOVERFLOW && r.trace == s.trace && r.tap == s.tap && r.pos == p
               else r.error == s.error && r.pos == p + (n + 7) / 8 && r.tdi == FileBytes(env, p, (n + 7) / 8)
                    && if n == 0 then NothingSeen(env, s, r, chip) else InstructionSeen(env, s, r, chip, FileBits(env, p, n))
  {
    hide Execute, DoXsir, NothingSeen, InstructionSeen, Read, Tracks, IsLong, Drive, FileBits, FileBytes, BigEndian, FileByte;
    IsXsir(env, s);
    if s.command == 2 {
      ReadIsFile(env, s.pos, 1);
      IrCommand(env, s, s.(pos := s.pos + 1), chip, FileByte(env, s.pos));
    } else {
      ReadIsFile(env, s.pos, 2);
      TwoFileBytes(env, s.pos);
      IrCommand(env, s, Take(env, s, 2), chip, BigEndian(Read(env, s.pos, 2)));
    }
  }

  lemma IsXsir(env: Env, s: State)
    requires StateOk(s) && (s.command == 2 || s.command == 21)
    ensures s.command == 2 ==> Execute(env, s) == DoXsir(env, s.(pos := s.pos + 1), InputAt(env, s.pos))
    ensures s.command == 21 ==> Execute(env, s) == DoXsir(env, Take(env, s, 2), BigEndian(Read(env, s.pos, 2)))
  {
    hide DoXsir, Take, BigEndian, Read, InputAt;
  }

  lemma TwoFileBytes(env: Env, p: nat)
    ensures var high: nat, low: nat := FileByte(env, p), FileByte(env, p + 1); BigEndian(FileBytes(env, p, 2)) == 256 * high + low
  {
    hide BigEndian;
    TwoBytes(FileBytes(env, p, 2));
  }

  /** The common part, after the length has been read. */
  lemma IrCommand(env: Env, s: State, s0: State, chip: Chip, n: nat)
    requires StateOk(s) && s0 == s.(tdi := s0.tdi, pos := s0.pos)
    requires IsLong(env.long, s.runTest) && Tracks(Drive(chip, s.trace), s.tap)
    ensures var r, p := DoXsir(env, s0, n), s0.pos;
            && r == s0.(tdi := r.tdi, pos := r.pos, trace := r.trace, tap := r.tap, error := r.error)
            && if (n + 7) / 8 > 7000 then r.error == DATAOVERFLOW && r.trace == s.trace && r.tap == s.tap && r.pos == p
               else r.error == s.error && r.pos == p + (n + 7) / 8 && r.tdi == FileBytes(env, p, (n + 7) / 8)
                    && if n == 0 then NothingSeen(env, s, r, chip) else InstructionSeen(env, s, r, chip, FileBits(env, p, n))
  {
    hide Seen, Drive, FirstBits, Shift, Entry, Read, Tracks, IsLong, InstructionSeen, NothingSeen;
    ReadIsFile(env, s0.pos, NumBytes(n));
    ShiftedFromFile(env, s0.pos, n);
    if NumBytes(n) <= MAX_LEN {
      var s1 := Take(env, s0, NumBytes(n));
      if n == 0 { EmptyShiftSeen(env, s1, IrJob(s1, s1.tdi, n), chip); } else { IrShiftSeen(env, s1, chip, n); }
      SameStart(env, s, s1, DoXsir(env, s0, n), chip, n);
    }
  }

  lemma TwoBytes(v: seq<Byte>)
    requires |v| == 2
    ensures var high: nat, low: nat := v[0], v[1]; BigEndian(v) == 256 * high + low
  {
    assert v[..1][..0] == [];
    assert BigEndian(v[..1]) == v[0];
  }

  lemma SameStart(env: Env, s: State, s1: State, r: State, chip: Chip, n: nat)
    requires s1 == s.(tdi := s1.tdi, pos := s1.pos)
    ensures NothingSeen(env, s1, r, chip) <==> NothingSeen(env, s, r, chip)
    ensures forall bits: seq<bool> :: InstructionSeen(env, s1, r, chip, bits) <==> InstructionSeen(env, s, r, chip, bits)
  {
  }
}
