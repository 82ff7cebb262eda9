/** The XSVF player as a function of its state: what each command does to the shadow controller state,
    the buffers, the input position and the pins. */
module Xsvf {
  import opened LenVal
  import opened Longs
  import opened SdrMasking
  import opened TapController
  import opened XsvfPins

  const MAX_LEN: nat := 7000

  datatype Error = NONE | TDOMISMATCH | MAXRETRIES | ILLEGALCMD | ILLEGALSTATE | DATAOVERFLOW

  /** The file being played, the device on the port, and the width of a long. */
  datatype Env = Env(input: seq<Byte>, tdo: Device, long: Width)

  /** SXsvfInfo, the file position and the pin activity so far. */
  datatype State = State(
    complete: bool, command: Byte, count: nat, error: Error,
    tap: nat, endIR: nat, endDR: nat,
    maxRepeat: Byte, runTest: int,
    bits: nat, bytes: nat,
    tdi: seq<Byte>, expected: seq<Byte>, captured: seq<Byte>, mask: seq<Byte>,
    addressMask: seq<Byte>, dataMask: seq<Byte>,
    pos: nat, trace: seq<Event>)

  /** What the interpreter relies on between commands. */
  predicate StateOk(s: State) {
    && s.tap < 16
    && (s.endIR == RUNTEST || s.endIR == PAUSEIR)
    && (s.endDR == RUNTEST || s.endDR == PAUSEDR)
    && s.bytes == NumBytes(s.bits)
  }

  function NumBytes(bits: nat): nat { (bits + 7) / 8 }

  // ---------- input ----------

  /** readByte: past the end of the file fgetc returns EOF, which is 0xFF as an unsigned char. */
  function InputAt(env: Env, p: nat): Byte { if p < |env.input| then env.input[p] else 255 }

  /** readVal */
  function Read(env: Env, p: nat, n: nat): (r: seq<Byte>)
    ensures |r| == n
  {
    seq<Byte>(n, i requires 0 <= i < n => InputAt(env, p + i))
  }

  // ---------- xsvfShift ----------

  /** The arguments of xsvfShift that stay fixed over its retries. */
  datatype Job = Job(start: nat, bits: seq<bool>, capture: bool, compare: bool,
                     expected: seq<Byte>, mask: seq<Byte>, masked: bool, endState: nat, maxRepeat: Byte) {
    predicate Valid() {
      && (start == SHIFTDR || start == SHIFTIR)
      && endState < 16
      && (bits != [] && compare ==> |expected| <= NumBytes(|bits|) && (masked ==> |expected| <= |mask|))
    }

    predicate Exits() { start != endState }
  }

  /** What xsvfShift leaves behind. Which of its shifts matched and how long it waited are for the record. */
  datatype Outcome = Outcome(trace: seq<Event>, tap: nat, captured: seq<Byte>, matched: seq<bool>, waits: seq<int>) {
    predicate Failed() { matched != [] && !matched[|matched| - 1] }
  }

  /** The moves after a shift that leaves the shift state: to try again, through Pause-DR and back to
      Shift-DR with a longer wait; otherwise to the end state. Then the wait in Run-Test/Idle, if any. */
  function Leave(w: Width, job: Job, trace: seq<Event>, retry: bool, runTest: int): (r: (seq<Event>, nat, int))
    requires job.Valid()
    ensures r.1 < 16
  {
    var exit1 := job.start + 1;
    var (t, tap, time) :=
      if retry then
        var paused := trace + GotoTrace(exit1, PAUSEDR);
        (paused + GotoTrace(PAUSEDR, SHIFTDR), SHIFTDR, Longer(w, runTest))
      else (trace + GotoTrace(exit1, job.endState), GotoState(exit1, job.endState), runTest);
    if time == 0 then (t, tap, time)
    else (t + GotoTrace(tap, RUNTEST) + WaitTrace(time), RUNTEST, time)
  }

  /** One turn of the do-while loop of xsvfShift: the position it leaves, the run time it leaves, what it
      captured, whether that was wrong, and the wait if there was one. */
  datatype Turn = Turn(trace: seq<Event>, tap: nat, runTest: int, captured: seq<Byte>, mismatch: bool, waits: seq<int>)

  ghost function OneTurn(env: Env, job: Job, trace: seq<Event>, tap: nat, runTest: int, repeat: nat): (r: Turn)
    requires job.Valid() && job.bits != [] && tap < 16
    ensures r.tap < 16 && |r.captured| == NumBytes(|job.bits|)
  {
    var t1 := trace + GotoTrace(tap, job.start);
    var captured := PackBits(TdoBits(env.tdo, t1, job.bits, job.Exits()), NumBytes(|job.bits|));
    var mismatch := job.compare && !Matches(job.expected, captured, job.mask, job.masked);
    var t2 := t1 + ShiftTrace(job.bits, job.Exits());
    if job.Exits() then
      var (t3, tap3, time3) := Leave(env.long, job, t2, mismatch && runTest != 0 && repeat < job.maxRepeat, runTest);
      Turn(t3, tap3, time3, captured, mismatch, if time3 != 0 then [time3] else [])
    else Turn(t2, job.start, runTest, captured, mismatch, [])
  }

  /** The loop from its repeat-th turn on. */
  ghost function Attempts(env: Env, job: Job, trace: seq<Event>, tap: nat, runTest: int, repeat: nat): (r: Outcome)
    requires job.Valid() && job.bits != [] && tap < 16 && repeat <= job.maxRepeat
    ensures r.tap < 16 && |r.captured| == NumBytes(|job.bits|) && r.matched != []
    decreases job.maxRepeat - repeat
  {
    var u := OneTurn(env, job, trace, tap, runTest, repeat);
    if u.mismatch && repeat < job.maxRepeat then
      var rest := Attempts(env, job, u.trace, u.tap, u.runTest, repeat + 1);
      rest.(matched := [false] + rest.matched, waits := u.waits + rest.waits)
    else Outcome(u.trace, u.tap, u.captured, [!u.mismatch], u.waits)
  }

  /** After ucMaxRepeat + 1 failures the unsigned char counter has wrapped to 0 if the maximum is 255. */
  function ShiftError(mismatch: bool, maxRepeat: Byte): Error {
    if !mismatch then NONE
    else if maxRepeat != 0 && (maxRepeat + 1) % 256 > maxRepeat then MAXRETRIES
    else TDOMISMATCH
  }

  /** xsvfShift and the recording of its error. Without bits there is only the wait. */
  ghost function Shift(env: Env, s: State, job: Job, runTest: int): (r: State)
    requires s.tap < 16 && job.Valid()
    ensures r.tap < 16 && r == s.(trace := r.trace, tap := r.tap, captured := r.captured, error := r.error)
  {
    if job.bits == [] then
      if runTest == 0 then s
      else s.(trace := s.trace + GotoTrace(s.tap, RUNTEST) + WaitTrace(runTest), tap := RUNTEST)
    else
      var o := Attempts(env, job, s.trace, s.tap, runTest, 0);
      var e := ShiftError(o.Failed(), job.maxRepeat);
      s.(trace := o.trace, tap := o.tap, captured := if job.capture then o.captured else s.captured,
         error := if e == NONE then s.error else e)
  }

  // ---------- shift commands ----------

  function FirstBits(v: seq<Byte>, n: nat): (r: seq<bool>)
    requires n <= 8 * |v|
    ensures |r| == n
  {
    BitsOf(v)[..n]
  }

  /** An instruction shift: nothing is captured. */
  function IrJob(s: State, tdi: seq<Byte>, n: nat): Job
    requires NumBytes(n) == |tdi|
  {
    Job(SHIFTIR, FirstBits(tdi, n), false, false, [], [], false, s.endIR, 0)
  }

  /** XSDR, XSDRTDO and XSDRINC: compare under the mask and retry. */
  function DrJob(s: State): Job
    requires |s.tdi| == s.bytes == NumBytes(s.bits)
  {
    Job(SHIFTDR, FirstBits(s.tdi, s.bits), true, true, s.expected, s.mask, true, s.endDR, s.maxRepeat)
  }

  /** XSDRB, XSDRC, XSDRE and their TDO forms: no mask, no wait, no retry; the last one leaves Shift-DR. */
  function PartJob(s: State, compare: bool, last: bool): Job
    requires |s.tdi| == s.bytes == NumBytes(s.bits)
  {
    Job(SHIFTDR, FirstBits(s.tdi, s.bits), compare, compare, if compare then s.expected else [], [], false,
        if last then s.endDR else SHIFTDR, 0)
  }

  /** The buffers that a masked comparison reads have been filled for this length. */
  predicate CanCompare(s: State) {
    s.bits == 0 || (|s.expected| <= s.bytes && |s.expected| <= |s.mask|)
  }

  ghost function ShiftTdi(env: Env, s: State): (r: State)
    requires StateOk(s) && |s.tdi| == s.bytes && CanCompare(s)
    ensures r.tap < 16 && r == s.(trace := r.trace, tap := r.tap, captured := r.captured, error := r.error)
  {
    Shift(env, s, DrJob(s), s.runTest)
  }

  predicate IncReady(s: State) {
    StateOk(s) && |s.tdi| == s.bytes && CanCompare(s) && |s.addressMask| == |s.dataMask| == s.bytes
  }

  /** Read the data of one XSDRINC piece and compute its shift data. */
  function NextPiece(env: Env, s: State): (r: State)
    requires |s.tdi| == |s.addressMask| == |s.dataMask|
    ensures |r.tdi| == |s.tdi| && r == s.(tdi := r.tdi, pos := r.pos)
  {
    var data := Read(env, s.pos, DataBytes(s.dataMask));
    s.(tdi := NextTdi(s.tdi, s.addressMask, s.dataMask, data), pos := s.pos + |data|)
  }

  /** The k remaining pieces of an XSDRINC. */
  ghost function IncLoop(env: Env, s: State, k: nat): (r: State)
    requires IncReady(s)
    ensures StateOk(r)
    decreases k
  {
    if k == 0 || s.error != NONE then s
    else IncLoop(env, ShiftTdi(env, NextPiece(env, s)), k - 1)
  }

  // ---------- commands ----------

  function Take(env: Env, s: State, n: nat): State { s.(tdi := Read(env, s.pos, n), pos := s.pos + n) }

  ghost function DoXsir(env: Env, s: State, n: nat): State
    requires StateOk(s)
  {
    if NumBytes(n) > MAX_LEN then s.(error := DATAOVERFLOW)
    else
      var s' := Take(env, s, NumBytes(n));
      Shift(env, s', IrJob(s', s'.tdi, n), s'.runTest)
  }

  ghost function DoXsdrInc(env: Env, s: State): State
    requires StateOk(s) && CanCompare(s) && |s.addressMask| == |s.dataMask| == s.bytes
  {
    IncRest(env, ShiftTdi(env, Take(env, s, s.bytes)))
  }

  /** The number of pieces is read only if the first shift succeeded. */
  ghost function IncRest(env: Env, s: State): State
    requires IncReady(s)
  {
    if s.error != NONE then s else IncLoop(env, s.(pos := s.pos + 1), InputAt(env, s.pos))
  }

  /** The position after the comment's terminating NUL. */
  function SkipComment(env: Env, p: nat): nat
    requires exists q :: p <= q < |env.input| && env.input[q] == 0
    decreases |env.input| - p
  {
    if env.input[p] == 0 then p + 1 else SkipComment(env, p + 1)
  }

  function MoveTo(s: State, t: nat): State
    requires s.tap < 16 && t < 16
  {
    s.(trace := s.trace + GotoTrace(s.tap, t), tap := GotoState(s.tap, t))
  }

  /** XWAIT ignores the result of its moves, and does not move at all if already there. */
  function DoXwait(s: State, waitState: nat, endState: nat, usec: int): State
    requires s.tap < 16 && waitState < 16 && endState < 16
  {
    var s1 := if s.tap != waitState then MoveTo(s, waitState) else s;
    var s2 := s1.(trace := s1.trace + WaitTrace(usec));
    if s2.tap != endState then MoveTo(s2, endState) else s2
  }

  function DoXendxr(s: State, ir: bool, code: Byte): State {
    if code > 1 then s.(error := ILLEGALSTATE)
    else if ir then s.(endIR := if code == 0 then RUNTEST else PAUSEIR)
    else s.(endDR := if code == 0 then RUNTEST else PAUSEDR)
  }

  /** What the source leaves to the author of the file, command by command: the comparison and mask
      buffers have been set for the current length, state numbers exist, a shift length in bytes fits a
      short, and comments end. Elsewhere the player would read stale buffers or loop for ever. */
  ghost predicate WellFormed(env: Env, s: State) {
    match s.command
    case 3 => CanCompare(s)
    case 8 => NumBytes(BigEndian(Read(env, s.pos, 4))) <= 32767
    case 9 => s.bytes <= |s.mask|
    case 11 => CanCompare(s) && |s.addressMask| == |s.dataMask| == s.bytes <= 255
    case 18 => InputAt(env, s.pos) < 16
    case 22 => exists q :: s.pos <= q < |env.input| && env.input[q] == 0
    case 23 => InputAt(env, s.pos) < 16 && InputAt(env, s.pos + 1) < 16
    case _ => true
  }

  /** The command functions, dispatched on the command byte just read. */
  ghost function Execute(env: Env, s: State): State
    requires StateOk(s) && WellFormed(env, s)
  {
    match s.command
    case 0 => s.(complete := true)
    case 1 => s.(mask := Read(env, s.pos, s.bytes), pos := s.pos + s.bytes)
    case 2 => DoXsir(env, s.(pos := s.pos + 1), InputAt(env, s.pos))
    case 3 => ShiftTdi(env, Take(env, s, s.bytes))
    case 4 => Take(env, s, 4).(runTest := AsLong(env.long, BigEndian(Read(env, s.pos, 4))))
    case 7 => s.(maxRepeat := InputAt(env, s.pos), pos := s.pos + 1)
    case 8 =>
      var bits := BigEndian(Read(env, s.pos, 4));
      Take(env, s, 4).(bits := bits, bytes := NumBytes(bits),
                       error := if NumBytes(bits) > MAX_LEN then DATAOVERFLOW else s.error)
    case 9 =>
      var s' := Take(env, s, s.bytes);
      ShiftTdi(env, s'.(expected := Read(env, s'.pos, s.bytes), pos := s'.pos + s.bytes))
    case 10 =>
      s.(addressMask := Read(env, s.pos, s.bytes), dataMask := Read(env, s.pos + s.bytes, s.bytes), pos := s.pos + 2 * s.bytes)
    case 11 => DoXsdrInc(env, s)
    case 12 => Part(env, s, false, false)
    case 13 => Part(env, s, false, false)
    case 14 => Part(env, s, false, true)
    case 15 => Part(env, s, true, false)
    case 16 => Part(env, s, true, false)
    case 17 => Part(env, s, true, true)
    case 18 =>
      var t := InputAt(env, s.pos);
      var s' := MoveTo(s.(pos := s.pos + 1), t);
      if IllegalMove(s.tap, t) then s'.(error := ILLEGALSTATE) else s'
    case 19 => DoXendxr(s.(pos := s.pos + 1), true, InputAt(env, s.pos))
    case 20 => DoXendxr(s.(pos := s.pos + 1), false, InputAt(env, s.pos))
    case 21 =>
      var n := BigEndian(Read(env, s.pos, 2));
      DoXsir(env, Take(env, s, 2), n)
    case 22 => s.(pos := SkipComment(env, s.pos), error := NONE)
    case 23 =>
      DoXwait(Take(env, s.(pos := s.pos + 2), 4), InputAt(env, s.pos), InputAt(env, s.pos + 1),
              AsLong(env.long, BigEndian(Read(env, s.pos + 2, 4))))
    case _ => s.(error := ILLEGALCMD)
  }

  ghost function Part(env: Env, s: State, compare: bool, last: bool): State
    requires StateOk(s)
  {
    var s1 := Take(env, s, s.bytes);
    var s2 := if compare then s1.(expected := Read(env, s1.pos, s.bytes), pos := s1.pos + s.bytes) else s1;
    Shift(env, s2, PartJob(s2, compare, last), 0)
  }

  predicate Running(s: State) { s.error == NONE && !s.complete }

  function Fetch(env: Env, s: State): State {
    s.(command := InputAt(env, s.pos), pos := s.pos + 1, count := s.count + 1)
  }

  /** xsvfRun */
  ghost function Step(env: Env, s: State): State
    requires StateOk(s) && (Running(s) ==> WellFormed(env, Fetch(env, s)))
  {
    if Running(s) then Execute(env, Fetch(env, s)) else s
  }

  /** xsvfInitialize, from whatever the buffers and the port hold. */
  function Initialize(s: State): State {
    s.(complete := false, command := 0, count := 0, error := NONE, maxRepeat := 0,
       tap := RESET, endIR := RUNTEST, endDR := RUNTEST, bits := 0, bytes := 0, runTest := 0,
       trace := s.trace + GotoTrace(RESET, RESET))
  }
}
