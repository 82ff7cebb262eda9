/** The other commands of an XSVF file, and short programs of commands, in terms of what is in the file. */
module XsvfPrograms {
  import opened Bits
  import opened LenVal
  import opened Longs
  import opened TapController
  import opened XsvfPins
  import opened XsvfSeen
  import opened Xsvf
  import opened XsvfRewrites
  import opened XsvfCommands
  import XsvfShifts
  import XsvfSplits

  // ---------- parts of shifts ----------

  function Ones(n: nat): (r: seq<Byte>)
    ensures |r| == n
  {
    seq<Byte>(n, _ => 255)
  }

  lemma PartShiftSeen(env: Env, s: State, chip: Chip, compare: bool, last: bool) returns (tdo: seq<bool>)
    requires StateOk(s) && s.error == NONE && |s.tdi| == s.bytes && s.bits > 0 && Tracks(Drive(chip, s.trace), s.tap)
    requires compare ==> |s.expected| == s.bytes
    ensures |tdo| == s.bits
    ensures var r := Shift(env, s, PartJob(s, compare, last), 0);
            && Seen(env.tdo, chip, r.trace) ==
               Seen(env.tdo, chip, s.trace) + Entry(env.tdo, Drive(chip, s.trace), s.trace, ShiftDR) +
               Marks(ShiftDR, FirstBits(s.tdi, s.bits), tdo)
            && Drive(chip, r.trace).state == (if last then RestState(s.endDR) else ShiftDR)
            && r.error == (if compare && !Answers(tdo, s.expected, Ones(s.bytes)) then TDOMISMATCH else NONE)
            && (if compare then HoldsBits(r.captured, tdo) else r.captured == s.captured)
  {
    hide Seen, Drive, FirstBits, Attempts, TriesSeen, Entry, PackBits, Matches, Answers, HoldsBits, Marks;
    var job := PartJob(s, compare, last);
    SmallIsLong(env.long, 0);
    var tries := AttemptsSeen(env, job, chip, s.trace, s.tap, 0, 0);
    XsvfShifts.RetriesFrom(env, job, s.trace, s.tap, 0, 0);
    var o := Attempts(env, job, s.trace, s.tap, 0, 0);
    tdo := tries[0].tdo;
    assert tries == [tries[0]];
    OnlyTry(env.long, job.bits, tries[0], 0);
    AppendNothing(Marks(ShiftDR, job.bits, tdo));
    if last { RestsIn(Drive(chip, o.trace), o.tap); }
    if compare {
      PackedHolds(tdo);
      MatchesIsAnswers(tdo, s.expected, [], false, Ones(s.bytes));
    }
  }

  /** XSDRB, XSDRC, XSDRE and their TDO forms: one try, without mask, wait or retry. The last of each three leaves
      Shift-DR, the others stay. */
  lemma PartCommand(env: Env, s: State, chip: Chip) returns (tdo: seq<bool>)
    requires StateOk(s) && s.error == NONE && s.bits > 0 && 12 <= s.command <= 17 && Tracks(Drive(chip, s.trace), s.tap)
    ensures |tdo| == s.bits
    ensures var r := Execute(env, s);
            var compare, last := s.command >= 15, s.command == 14 || s.command == 17;
            var expected := if compare then FileBytes(env, s.pos + s.bytes, s.bytes) else s.expected;
            && Seen(env.tdo, chip, r.trace) ==
               Seen(env.tdo, chip, s.trace) + Entry(env.tdo, Drive(chip, s.trace), s.trace, ShiftDR) +
               Marks(ShiftDR, FileBits(env, s.pos, s.bits), tdo)
            && Drive(chip, r.trace).state == (if last then RestState(s.endDR) else ShiftDR)
            && r.error == (if compare && !Answers(tdo, FileBytes(env, s.pos + s.bytes, s.bytes), Ones(s.bytes)) then TDOMISMATCH else NONE)
            && (if compare then HoldsBits(r.captured, tdo) else r.captured == s.captured)
            && r == s.(tdi := FileBytes(env, s.pos, s.bytes), expected := expected,
                       pos := s.pos + (if compare then 2 * s.bytes else s.bytes),
                       trace := r.trace, tap := r.tap, captured := r.captured, error := r.error)
  {
    hide Seen, Drive, FirstBits, Shift, Entry, Answers, HoldsBits, Read, Tracks, Marks, Execute;
    IsPart(env, s);
    ReadIsFile(env, s.pos, s.bytes);
    ReadIsFile(env, s.pos + s.bytes, s.bytes);
    ShiftedFromFile(env, s.pos, s.bits);
    var compare := s.command >= 15;
    var s1 := Take(env, s, s.bytes);
    var s2 := if compare then s1.(expected := Read(env, s1.pos, s.bytes), pos := s1.pos + s.bytes) else s1;
    tdo := PartShiftSeen(env, s2, chip, compare, s.command == 14 || s.command == 17);
  }

  lemma IsPart(env: Env, s: State)
    requires StateOk(s) && 12 <= s.command <= 17
    ensures Execute(env, s) == Part(env, s, s.command >= 15, s.command == 14 || s.command == 17)
  {
    hide Part;
  }

  lemma EmptyPart(env: Env, s: State)
    requires StateOk(s) && s.bits == 0 && 12 <= s.command <= 17
    ensures var r := Execute(env, s); r.trace == s.trace && r.tap == s.tap && r.error == s.error && r.pos == s.pos
  {
    hide Read, Attempts, FirstBits, Execute;
    IsPart(env, s);
    assert NumBytes(0) == 0;
  }

  // ---------- moves ----------

  /** Going to the state with number t: the exit-2 states are refused but from the pause before them. */
  predicate Refused(from: Tap, t: nat) {
    (t == 7 && from != PauseDR && from != Exit2DR) || (t == 14 && from != PauseIR && from != Exit2IR)
  }

  predicate Arrives(from: Tap, t: nat, to: Tap) { if Refused(from, t) then to == from else Code(to) == t }

  /** XSTATE takes the controller to the state named in the file, unless that is refused, which is an error. */
  lemma StateCommand(env: Env, s: State, chip: Chip)
    requires StateOk(s) && s.command == 18 && WellFormed(env, s) && Tracks(Drive(chip, s.trace), s.tap)
    ensures var c, r, t := Drive(chip, s.trace), Execute(env, s), FileByte(env, s.pos);
            && Arrives(c.state, t, Drive(chip, r.trace).state)
            && Seen(env.tdo, chip, r.trace) ==
               Seen(env.tdo, chip, s.trace) + (if Drive(chip, r.trace).state == c.state then [] else Edge(env.tdo, c, s.trace))
            && r == s.(pos := s.pos + 1, trace := r.trace, tap := r.tap, error := if Refused(c.state, t) then ILLEGALSTATE else s.error)
            && (Refused(c.state, t) ==> r.trace == s.trace)
  {
    hide Seen, Drive, GotoTrace, Edge, Next;
    var t := FileByte(env, s.pos);
    MoveOn(env.tdo, chip, s.trace, s.tap, t);
    RefusedMove(s.tap, t, s.trace);
    MoveIs(env, s, chip, t);
    assert Execute(env, s) == s.(pos := s.pos + 1, trace := s.trace + GotoTrace(s.tap, t), tap := GotoState(s.tap, t),
                                 error := if IllegalMove(s.tap, t) then ILLEGALSTATE else s.error);
  }

  lemma RefusedMove(s: nat, t: nat, trace: seq<Event>)
    requires s < 16 && t < 16
    ensures IllegalMove(s, t) ==> trace + GotoTrace(s, t) == trace
  {
  }

  /** A move in terms of the controller's states. */
  lemma MoveIs(env: Env, s: State, chip: Chip, t: nat)
    requires s.tap < 16 && t < 16 && Tracks(Drive(chip, s.trace), s.tap)
    ensures var c, trace := Drive(chip, s.trace), s.trace + GotoTrace(s.tap, t);
            var d := Drive(chip, trace);
            && Tracks(d, GotoState(s.tap, t)) && d.tdi == c.tdi && Arrives(c.state, t, d.state)
            && (Refused(c.state, t) <==> IllegalMove(s.tap, t))
            && (d.state == c.state <==> GotoState(s.tap, t) == s.tap)
            && Seen(env.tdo, chip, trace) == Seen(env.tdo, chip, s.trace) + if d.state == c.state then [] else Edge(env.tdo, c, s.trace)
  {
    hide Seen, Drive, GotoTrace, Edge, Next;
    MoveOn(env.tdo, chip, s.trace, s.tap, t);
    SameCode(Drive(chip, s.trace).state, Drive(chip, s.trace + GotoTrace(s.tap, t)).state);
  }

  lemma SameCode(a: Tap, b: Tap)
    ensures Code(a) == Code(b) <==> a == b
  {
  }

  /** XWAIT: time passes in the first state named, and the controller ends in the second. Refusals are ignored. */
  lemma WaitCommand(env: Env, s: State, chip: Chip) returns (mid: Tap, extra: seq<Mark>)
    requires StateOk(s) && s.command == 23 && WellFormed(env, s) && Tracks(Drive(chip, s.trace), s.tap)
    ensures var c, r := Drive(chip, s.trace), Execute(env, s);
            var usec := AsLong(env.long, BigEndian(FileBytes(env, s.pos + 2, 4)));
            && Arrives(c.state, FileByte(env, s.pos), mid)
            && Arrives(mid, FileByte(env, s.pos + 1), Drive(chip, r.trace).state)
            && Seen(env.tdo, chip, r.trace) ==
               Seen(env.tdo, chip, s.trace) + (if mid == c.state then [] else Edge(env.tdo, c, s.trace)) + [Waited(mid, false, usec)] + extra
            && LastEdge(extra, mid, Drive(chip, r.trace).state, c.tdi)
            && r == s.(tdi := FileBytes(env, s.pos + 2, 4), pos := s.pos + 6, trace := r.trace, tap := r.tap)
  {
    hide Seen, Drive, GotoTrace, WaitTrace, BigEndian, AsLong, Read, DoXwait, Edge, Next;
    ReadIsFile(env, s.pos + 2, 4);
    ReadIsFile(env, s.pos + 1, 4);
    ReadIsFile(env, s.pos, 4);
    var usec := AsLong(env.long, BigEndian(FileBytes(env, s.pos + 2, 4)));
    var s0 := Take(env, s.(pos := s.pos + 2), 4);
    assert Execute(env, s) == DoXwait(s0, FileByte(env, s.pos), FileByte(env, s.pos + 1), usec);
    mid, extra := XwaitSeen(env, s0, chip, FileByte(env, s.pos), FileByte(env, s.pos + 1), usec);
  }

  lemma XwaitSeen(env: Env, s: State, chip: Chip, w: nat, e: nat, usec: int) returns (mid: Tap, extra: seq<Mark>)
    requires s.tap < 16 && w < 16 && e < 16 && Tracks(Drive(chip, s.trace), s.tap)
    ensures var c, r := Drive(chip, s.trace), DoXwait(s, w, e, usec);
            && Arrives(c.state, w, mid) && Arrives(mid, e, Drive(chip, r.trace).state)
            && Seen(env.tdo, chip, r.trace) ==
               Seen(env.tdo, chip, s.trace) + (if mid == c.state then [] else Edge(env.tdo, c, s.trace)) + [Waited(mid, false, usec)] + extra
            && LastEdge(extra, mid, Drive(chip, r.trace).state, c.tdi)
            && r == s.(trace := r.trace, tap := r.tap)
  {
    hide Seen, Drive, GotoTrace, WaitTrace, Edge, Next, GotoState, Arrives;
    var c := Drive(chip, s.trace);
    GoSeen(env, s, chip, w);
    var s1 := if s.tap != w then MoveTo(s, w) else s;
    mid := Drive(chip, s1.trace).state;
    WaitOn(env.tdo, chip, s1.trace, s1.tap, usec);
    var s2 := s1.(trace := s1.trace + WaitTrace(usec));
    var c2 := Drive(chip, s2.trace);
    GoSeen(env, s2, chip, e);
    var r := DoXwait(s, w, e, usec);
    extra := if Drive(chip, r.trace).state == mid then [] else Edge(env.tdo, c2, s2.trace);
    EdgeIs(env.tdo, c2, s2.trace);
  }

  /** The bit clocked if the controller leaves a shift state. */
  predicate LastEdge(extra: seq<Mark>, from: Tap, to: Tap, tdi: bool) {
    if Shifting(from) && to != from then |extra| == 1 && extra[0].Clocked? && extra[0].state == from && extra[0].tdi == tdi
    else extra == []
  }

  lemma EdgeIs(dev: Device, c: Chip, done: seq<Event>)
    ensures var x := Edge(dev, c, done);
            if Shifting(c.state) then |x| == 1 && x[0].Clocked? && x[0].state == c.state && x[0].tdi == c.tdi else x == []
  {
  }

  lemma GoSeen(env: Env, s: State, chip: Chip, t: nat)
    requires s.tap < 16 && t < 16 && Tracks(Drive(chip, s.trace), s.tap)
    ensures var c, r := Drive(chip, s.trace), if s.tap != t then MoveTo(s, t) else s;
            var d := Drive(chip, r.trace);
            && r.tap < 16 && Tracks(d, r.tap) && d.tdi == c.tdi && Arrives(c.state, t, d.state)
            && Seen(env.tdo, chip, r.trace) ==
               Seen(env.tdo, chip, s.trace) + if d.state == c.state then [] else Edge(env.tdo, c, s.trace)
  {
    hide Seen, Drive, GotoTrace, Edge, Next;
    MoveIs(env, s, chip, t);
    AppendNothing(Seen(env.tdo, chip, s.trace));
  }

  // ---------- settings ----------

  /** A setting command with its operands, from where the file holds it. */
  lemma Fetched(env: Env, s: State, command: Byte, data: seq<Byte>)
    requires Running(s) && Holds(env, s.pos, [command] + data)
    ensures Fetch(env, s) == s.(command := command, count := s.count + 1, pos := s.pos + 1)
    ensures Read(env, s.pos + 1, |data|) == data && (data != [] ==> InputAt(env, s.pos + 1) == data[0])
  {
    hide Read, Holds, InputAt;
    XsvfSplits.ReadCommand(env, s.pos, command, data);
    if data != [] { FirstRead(env, s.pos + 1, |data|); }
  }

  lemma FirstRead(env: Env, p: nat, n: nat)
    requires n > 0
    ensures Read(env, p, n)[0] == InputAt(env, p)
  {
  }

  /** XTDOMASK */
  lemma MaskStep(env: Env, s: State, mask: seq<Byte>)
    requires StateOk(s) && Running(s) && |mask| == s.bytes && Holds(env, s.pos, [1] + mask)
    ensures WellFormed(env, Fetch(env, s))
    ensures Step(env, s) == s.(command := 1, count := s.count + 1, mask := mask, pos := s.pos + 1 + |mask|)
  {
    hide Read, Holds;
    Fetched(env, s, 1, mask);
  }

  /** XRUNTEST */
  lemma TimeStep(env: Env, s: State, time: nat)
    requires StateOk(s) && Running(s) && time < 0x8000_0000 && Holds(env, s.pos, [4] + ToBytes(time, 4))
    ensures WellFormed(env, Fetch(env, s))
    ensures Step(env, s) == s.(command := 4, count := s.count + 1, runTest := time, tdi := ToBytes(time, 4), pos := s.pos + 5)
    ensures IsLong(env.long, time)
  {
    hide Read, Holds, ToBytes, BigEndian, AsLong, IsLong;
    Fetched(env, s, 4, ToBytes(time, 4));
    XsvfSplits.FourBytes(time);
    SmallIsLong(env.long, time);
  }

  /** XREPEAT */
  lemma RepeatStep(env: Env, s: State, retries: Byte)
    requires StateOk(s) && Running(s) && Holds(env, s.pos, [7] + [retries])
    ensures WellFormed(env, Fetch(env, s))
    ensures Step(env, s) == s.(command := 7, count := s.count + 1, maxRepeat := retries, pos := s.pos + 2)
  {
    hide Read, Holds;
    Fetched(env, s, 7, [retries]);
  }

  /** XSETSDRMASKS */
  lemma MasksStep(env: Env, s: State, address: seq<Byte>, data: seq<Byte>)
    requires StateOk(s) && Running(s) && |address| == |data| == s.bytes && Holds(env, s.pos, [10] + (address + data))
    ensures WellFormed(env, Fetch(env, s))
    ensures Step(env, s) == s.(command := 10, count := s.count + 1, addressMask := address, dataMask := data,
                               pos := s.pos + 1 + |address| + |data|)
  {
    hide Read, Holds, InputAt;
    Fetched(env, s, 10, address + data);
    HoldsSplit(env, s.pos, [10], address + data);
    HoldsSplit(env, s.pos + 1, address, data);
    HoldsRead(env, s.pos + 1, address);
    HoldsRead(env, s.pos + 1 + |address|, data);
  }

  /** XENDIR and XENDDR: 0 is Run-Test/Idle, 1 the pause state, anything else an error. */
  lemma EndStep(env: Env, s: State, ir: bool, code: Byte)
    requires StateOk(s) && Running(s) && Holds(env, s.pos, [if ir then 19 else 20] + [code])
    ensures WellFormed(env, Fetch(env, s))
    ensures var r := Step(env, s);
            && r == s.(command := r.command, count := s.count + 1, pos := s.pos + 2, endIR := r.endIR, endDR := r.endDR, error := r.error)
            && (r.error == NONE <==> code <= 1) && (code > 1 ==> r.error == ILLEGALSTATE)
            && (if ir && code <= 1 then Rests(r.endIR, if code == 1 then PauseIR else RunTestIdle) else r.endIR == s.endIR)
            && (if !ir && code <= 1 then Rests(r.endDR, if code == 1 then PauseDR else RunTestIdle) else r.endDR == s.endDR)
  {
    hide Read, Holds;
    Fetched(env, s, if ir then 19 else 20, [code]);
  }

  /** This is the number of a state to rest in. */
  predicate Rests(end: nat, state: Tap) { Code(state) == end }

  /** XCOMMENT: the position moves past the first NUL, and nothing else happens. */
  lemma CommentStep(env: Env, s: State, text: seq<Byte>)
    requires StateOk(s) && Running(s) && 0 !in text && Holds(env, s.pos, [22] + (text + [0]))
    ensures WellFormed(env, Fetch(env, s))
    ensures Step(env, s) == s.(command := 22, count := s.count + 1, pos := s.pos + |text| + 2)
  {
    hide Read, Holds, SkipComment;
    Fetched(env, s, 22, text + [0]);
    HoldsSplit(env, s.pos, [22], text + [0]);
    TextEnds(env, s.pos + 1, text);
  }

  lemma TextEnds(env: Env, p: nat, text: seq<Byte>)
    requires 0 !in text && Holds(env, p, text + [0])
    ensures (exists q :: p <= q < |env.input| && env.input[q] == 0) && SkipComment(env, p) == p + |text| + 1
  {
    hide SkipComment;
    var all := env.input[p..p + |text| + 1];
    assert forall k :: p <= k <= p + |text| ==> env.input[k] == all[k - p];
    assert env.input[p + |text|] == all[|text|] == 0;
    SkipsText(env, p, text);
  }

  lemma {:induction false} SkipsText(env: Env, p: nat, text: seq<Byte>)
    requires 0 !in text && p + |text| < |env.input| && env.input[p + |text|] == 0
    requires forall k :: p <= k < p + |text| ==> env.input[k] == text[k - p]
    ensures SkipComment(env, p) == p + |text| + 1
    decreases |text|
  {
    if text != [] {
      assert env.input[p] == text[0];
      assert forall k :: p + 1 <= k < p + |text| ==> env.input[k] == text[1..][k - (p + 1)];
      SkipsText(env, p + 1, text[1..]);
    }
  }

  /** XCOMPLETE ends the run without an error; command bytes without a command end it with one. */
  lemma LastStep(env: Env, s: State)
    requires StateOk(s) && Running(s)
    requires var b := FileByte(env, s.pos); b == 0 || b == 5 || b == 6 || b > 23
    ensures WellFormed(env, Fetch(env, s))
    ensures var r, b := Step(env, s), FileByte(env, s.pos);
            && !Running(r) && (r.error == NONE <==> b == 0) && r.complete == (b == 0) && (b != 0 ==> r.error == ILLEGALCMD)
            && r.trace == s.trace && r.tap == s.tap
  {
  }

  /** Before any setting: rest in Run-Test/Idle, do not wait, do not retry. The buffers hold what they held. */
  lemma StartsPlain(s: State)
    ensures var r := Initialize(s);
            && Rests(r.endIR, RunTestIdle) && Rests(r.endDR, RunTestIdle) && r.runTest == 0 && r.maxRepeat == 0 && r.bits == 0
            && Running(r) && r.pos == s.pos && r.mask == s.mask && r.expected == s.expected
            && r.addressMask == s.addressMask && r.dataMask == s.dataMask
  {
  }

  // ---------- programs ----------

  /** What a file can say before a shift. Pausing is resting in the pause state instead of Run-Test/Idle. */
  datatype Setting =
    | Size(n: nat)
    | TdoMask(mask: seq<Byte>)
    | Repeat(retries: Byte)
    | RunTest(usec: nat)
    | EndIr(pause: bool)
    | EndDr(pause: bool)
    | SdrMasks(address: seq<Byte>, data: seq<Byte>)
    | Comment(text: seq<Byte>)

  function Flag(b: bool): Byte { if b then 1 else 0 }

  function Encode(x: Setting): seq<Byte> {
    match x
    case Size(n) => [8] + ToBytes(n, 4)
    case TdoMask(mask) => [1] + mask
    case Repeat(retries) => [7] + [retries]
    case RunTest(usec) => [4] + ToBytes(usec, 4)
    case EndIr(pause) => [19] + [Flag(pause)]
    case EndDr(pause) => [20] + [Flag(pause)]
    case SdrMasks(address, data) => [10] + (address + data)
    case Comment(text) => [22] + (text + [0])
  }

  /** Lengths agree with the size set last, and numbers fit. */
  predicate SettingOk(bytes: nat, x: Setting) {
    match x
    case Size(n) => (n + 7) / 8 <= 7000
    case TdoMask(mask) => |mask| == bytes
    case RunTest(usec) => usec < 0x8000_0000
    case SdrMasks(address, data) => |address| == |data| == bytes
    case Comment(text) => 0 !in text
    case _ => true
  }

  /** What it changes. */
  function Applied(s: State, x: Setting): State {
    match x
    case Size(n) => s.(bits := n, bytes := (n + 7) / 8)
    case TdoMask(mask) => s.(mask := mask)
    case Repeat(retries) => s.(maxRepeat := retries)
    case RunTest(usec) => s.(runTest := usec)
    case EndIr(pause) => s.(endIR := Code(if pause then PauseIR else RunTestIdle))
    case EndDr(pause) => s.(endDR := Code(if pause then PauseDR else RunTestIdle))
    case SdrMasks(address, data) => s.(addressMask := address, dataMask := data)
    case Comment(_) => s
  }

  function AllApplied(s: State, xs: seq<Setting>): State
    decreases |xs|
  {
    if xs == [] then s else AllApplied(Applied(s, xs[0]), xs[1..])
  }

  function EncodeAll(xs: seq<Setting>): seq<Byte> {
    if xs == [] then [] else Encode(xs[0]) + EncodeAll(xs[1..])
  }

  predicate AllOk(s: State, xs: seq<Setting>)
    decreases |xs|
  {
    xs == [] || (SettingOk(s.bytes, xs[0]) && AllOk(Applied(s, xs[0]), xs[1..]))
  }

  /** The same but for the TDI buffer, the position and the command. */
  predicate SameButReading(a: State, b: State) {
    a == b.(tdi := a.tdi, pos := a.pos, command := a.command, count := a.count)
  }

  lemma SettingStep(env: Env, s: State, x: Setting)
    requires StateOk(s) && Running(s) && SettingOk(s.bytes, x) && Holds(env, s.pos, Encode(x))
    ensures WellFormed(env, Fetch(env, s))
    ensures var r := Step(env, s);
            && StateOk(r) && SameButReading(r, Applied(s, x)) && r.pos == s.pos + |Encode(x)|
            && (IsLong(env.long, s.runTest) ==> IsLong(env.long, r.runTest))
  {
    hide Step, WellFormed, Holds, ToBytes, IsLong;
    match x
    case Size(n) => XsvfSplits.SizeStep(env, s, n);
    case TdoMask(mask) => MaskStep(env, s, mask);
    case Repeat(retries) => RepeatStep(env, s, retries);
    case RunTest(usec) => TimeStep(env, s, usec);
    case EndIr(pause) => EndStep(env, s, true, Flag(pause));
    case EndDr(pause) => EndStep(env, s, false, Flag(pause));
    case SdrMasks(address, data) => MasksStep(env, s, address, data);
    case Comment(text) => CommentStep(env, s, text);
  }

  lemma SameApplied(a: State, b: State, x: Setting)
    requires SameButReading(a, b)
    ensures SameButReading(Applied(a, x), Applied(b, x)) && (Running(a) ==> Running(Applied(a, x)))
    ensures a.bytes == b.bytes
  {
  }

  lemma {:induction false} SameAllApplied(a: State, b: State, xs: seq<Setting>)
    requires SameButReading(a, b)
    ensures SameButReading(AllApplied(a, xs), AllApplied(b, xs)) && AllOk(a, xs) == AllOk(b, xs)
    decreases |xs|
  {
    if xs != [] {
      SameApplied(a, b, xs[0]);
      hide Applied, SameButReading;
      SameAllApplied(Applied(a, xs[0]), Applied(b, xs[0]), xs[1..]);
    }
  }

  /** n commands and one more. */
  lemma PlaysNext(env: Env, s: State, n: nat, r: State)
    requires StateOk(s) && Running(s) && WellFormed(env, Fetch(env, s)) && Plays(env, Step(env, s), n, r)
    ensures Plays(env, s, n + 1, r)
  {
    hide Step, WellFormed;
  }

  /** Any settings do what they say, in order, and no more: no pin moves. */
  lemma {:induction false} SettingsPlayed(env: Env, s: State, xs: seq<Setting>) returns (r: State)
    requires StateOk(s) && Running(s) && AllOk(s, xs) && Holds(env, s.pos, EncodeAll(xs))
    ensures Plays(env, s, |xs|, r) && StateOk(r) && Running(r)
    ensures SameButReading(r, AllApplied(s, xs)) && r.pos == s.pos + |EncodeAll(xs)|
    ensures IsLong(env.long, s.runTest) ==> IsLong(env.long, r.runTest)
    decreases |xs|
  {
    hide Step, WellFormed, Holds, Encode, Applied, IsLong;
    r := s;
    if xs != [] {
      var rest: seq<Setting> := xs[1..];
      HoldsSplit(env, s.pos, Encode(xs[0]), EncodeAll(rest));
      SettingStep(env, s, xs[0]);
      var t := Step(env, s);
      SameApplied(s, s, xs[0]);
      SameAllApplied(t, Applied(s, xs[0]), rest);
      r := SettingsPlayed(env, t, rest);
      PlaysNext(env, s, |rest|, r);
    }
  }

  /** The command after the settings. */
  lemma ThenOne(env: Env, s: State, n: nat, t: State, r: State)
    requires Plays(env, s, n, t) && StateOk(t) && Running(t) && WellFormed(env, Fetch(env, t)) && r == Step(env, t)
    ensures Plays(env, s, n + 1, r)
    decreases n
  {
    hide Step, WellFormed;
    if n == 0 {
      PlaysNext(env, t, 0, r);
    } else {
      ThenOne(env, Step(env, s), n - 1, t, r);
    }
  }

  lemma SameData(env: Env, a: State, b: State, r: State, chip: Chip, bits: seq<bool>, expected: seq<Byte>, mask: seq<Byte>, tries: seq<Try>)
    requires TriesOf(bits, tries) && |expected| <= |mask| && |expected| <= (|bits| + 7) / 8
    requires SameButReading(a, b) && DataSeen(env, a, r, chip, bits, expected, mask, tries)
    ensures DataSeen(env, b, r, chip, bits, expected, mask, tries)
  {
  }

  /** A test vector: any settings, then XSDRTDO. The chip clocks its data and nothing else, once for each try, and
      everything is as the settings ask. */
  lemma VectorPlayed(env: Env, s: State, chip: Chip, xs: seq<Setting>, tdi: seq<Byte>, expected: seq<Byte>)
    returns (r: State, tries: seq<Try>)
    requires StateOk(s) && Running(s) && AllOk(s, xs) && IsLong(env.long, s.runTest) && Tracks(Drive(chip, s.trace), s.tap)
    requires var t := AllApplied(s, xs); t.bits > 0 && t.bytes == (t.bits + 7) / 8 == |tdi| == |expected| <= |t.mask|
    requires Holds(env, s.pos, EncodeAll(xs) + ([9] + (tdi + expected)))
    ensures Plays(env, s, |xs| + 1, r)
    ensures var t := AllApplied(s, xs);
            TriesOf(DataBits(tdi, t.bits), tries) && DataSeen(env, t, r, chip, DataBits(tdi, t.bits), expected, t.mask, tries)
  {
    hide Step, Holds, DataSeen, DataBits, Execute, Drive, Plays, IsLong, WellFormed;
    HoldsSplit(env, s.pos, EncodeAll(xs), [9] + (tdi + expected));
    var t := SettingsPlayed(env, s, xs);
    PinsKept(s, xs);
    var f := Fetch(env, t);
    DataRead(env, t, tdi, expected);
    tries := DataCommand(env, f, chip);
    r := Execute(env, f);
    StepIs(env, t);
    ThenOne(env, s, |xs|, t, r);
    SameData(env, f, AllApplied(s, xs), r, chip, DataBits(tdi, t.bits), expected, t.mask, tries);
  }

  lemma DataRead(env: Env, t: State, tdi: seq<Byte>, expected: seq<Byte>)
    requires StateOk(t) && Running(t) && t.bytes == |tdi| == |expected| <= |t.mask|
    requires Holds(env, t.pos, [9] + (tdi + expected))
    ensures var f := Fetch(env, t);
            && f == t.(command := 9, count := t.count + 1, pos := t.pos + 1) && WellFormed(env, f)
            && FileBytes(env, f.pos, |tdi|) == tdi && FileBytes(env, f.pos + |tdi|, |tdi|) == expected
  {
    hide Holds, Read, FileBytes;
    Fetched(env, t, 9, tdi + expected);
    HoldsSplit(env, t.pos, [9], tdi + expected);
    HoldsSplit(env, t.pos + 1, tdi, expected);
    HoldsRead(env, t.pos + 1, tdi);
    HoldsRead(env, t.pos + 1 + |tdi|, expected);
    ReadIsFile(env, t.pos + 1, |tdi|);
    ReadIsFile(env, t.pos + 1 + |tdi|, |tdi|);
  }

  lemma StepIs(env: Env, s: State)
    requires StateOk(s) && Running(s) && WellFormed(env, Fetch(env, s))
    ensures Step(env, s) == Execute(env, Fetch(env, s))
  {
    hide Execute;
  }

  lemma {:induction false} PinsKept(s: State, xs: seq<Setting>)
    ensures var t := AllApplied(s, xs); t.trace == s.trace && t.tap == s.tap && t.error == s.error
    decreases |xs|
  {
    if xs != [] { PinsKept(Applied(s, xs[0]), xs[1..]); }
  }

  lemma SameInstruction(env: Env, a: State, b: State, r: State, chip: Chip, bits: seq<bool>)
    requires SameButReading(a, b) && InstructionSeen(env, a, r, chip, bits)
    ensures InstructionSeen(env, b, r, chip, bits)
  {
  }

  /** An instruction after any settings. */
  lemma InstructionPlayed(env: Env, s: State, chip: Chip, xs: seq<Setting>, n: Byte, data: seq<Byte>) returns (r: State)
    requires StateOk(s) && Running(s) && AllOk(s, xs) && IsLong(env.long, s.runTest) && Tracks(Drive(chip, s.trace), s.tap)
    requires n > 0 && |data| == (n + 7) / 8 && Holds(env, s.pos, EncodeAll(xs) + ([2] + ([n] + data)))
    ensures Plays(env, s, |xs| + 1, r) && r.error == NONE
    ensures InstructionSeen(env, AllApplied(s, xs), r, chip, DataBits(data, n))
  {
    hide Step, Holds, InstructionSeen, NothingSeen, DataBits, Execute, Drive, Plays, IsLong, WellFormed, Tracks, FileBytes, FileByte, EncodeAll;
    HoldsSplit(env, s.pos, EncodeAll(xs), [2] + ([n] + data));
    var t := SettingsPlayed(env, s, xs);
    PinsKept(s, xs);
    var f := Fetch(env, t);
    InstructionRead(env, t, n, data);
    InstructionCommand(env, f, chip);
    r := Execute(env, f);
    StepIs(env, t);
    ThenOne(env, s, |xs|, t, r);
    SameInstruction(env, f, AllApplied(s, xs), r, chip, DataBits(data, n));
  }

  lemma InstructionRead(env: Env, t: State, n: Byte, data: seq<Byte>)
    requires StateOk(t) && Running(t) && Holds(env, t.pos, [2] + ([n] + data))
    ensures var f := Fetch(env, t);
            && f == t.(command := 2, count := t.count + 1, pos := t.pos + 1) && WellFormed(env, f)
            && FileByte(env, f.pos) == n && FileBytes(env, f.pos + 1, |data|) == data
  {
    hide Holds, Read, FileBytes;
    Fetched(env, t, 2, [n] + data);
    HoldsSplit(env, t.pos, [2], [n] + data);
    HoldsSplit(env, t.pos + 1, [n], data);
    HoldsRead(env, t.pos + 2, data);
    ReadIsFile(env, t.pos + 1, 1);
    ReadIsFile(env, t.pos + 2, |data|);
  }
}
