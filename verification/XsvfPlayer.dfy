/** The XSVF player as it is written: fields updated command by command, pins written one at a time, and
    loops over bits, bytes, states and retries. Each method is proved to compute what module Xsvf says. */
module XsvfPlayer {
  import opened Bits
  import opened LenVal
  import opened Longs
  import opened SdrMasking
  import opened TapController
  import opened XsvfPins
  import opened Xsvf
  import XsvfProofs
  import XsvfRuns

  predicate IsShift(command: Byte) { command == 2 || command == 3 || command == 9 || 11 <= command <= 17 || command == 21 }

  predicate LeavesPause(s: nat, t: nat) { s == t && (t == PAUSEDR || t == PAUSEIR) }

  class Player {
    const input: seq<Byte>       // the file
    const tdo: Device            // the device on the port
    const long: Width            // the width of a C long

    var complete: bool
    var command: Byte
    var count: nat
    var error: Error
    var tap: nat
    var endIR: nat
    var endDR: nat
    var maxRepeat: Byte
    var runTest: int
    var bits: nat
    var bytes: nat
    var tdi: seq<Byte>
    var expected: seq<Byte>
    var captured: seq<Byte>
    var mask: seq<Byte>
    var addressMask: seq<Byte>
    var dataMask: seq<Byte>
    var pos: nat
    var trace: seq<Event>

    ghost function World(): Env { Env(input, tdo, long) }

    ghost function View(): State
      reads this
    {
      State(complete, command, count, error, tap, endIR, endDR, maxRepeat, runTest, bits, bytes,
            tdi, expected, captured, mask, addressMask, dataMask, pos, trace)
    }

    // ---------- ports.c and lenval.c ----------

    method SetPort(e: Event)
      modifies this`trace
      ensures trace == old(trace) + [e]
    {
      trace := trace + [e];
    }

    method WaitTime(usec: int)
      modifies this`trace
      ensures trace == old(trace) + WaitTrace(usec)
    {
      SetPort(TCK(false));
      trace := trace + [Wait(usec)];
    }

    method ReadByte() returns (b: Byte)
      modifies this`pos
      ensures b == InputAt(World(), old(pos)) && pos == old(pos) + 1
    {
      b := if pos < |input| then input[pos] else 255;
      pos := pos + 1;
    }

    method ReadVal(n: nat) returns (v: seq<Byte>)
      modifies this`pos
      ensures v == Read(World(), old(pos), n) && pos == old(pos) + n
    {
      v := [];
      for i := 0 to n
        invariant |v| == i && pos == old(pos) + i
        invariant forall j :: 0 <= j < i ==> v[j] == InputAt(World(), old(pos) + j)
      {
        var b := ReadByte();
        v := v + [b];
      }
    }

    /** readVal into the TDI buffer, and the number it holds. */
    method ReadNumber(n: nat) returns (v: int)
      modifies this`tdi, this`pos
      ensures View() == Take(World(), old(View()), n) && v == AsLong(long, BigEndian(Read(World(), old(pos), n)))
    {
      hide Read, BigEndian;
      tdi := ReadVal(n);
      v := Value(tdi, long);
    }

    // ---------- state moves ----------

    method TmsTransition(tms: bool)
      modifies this`trace
      ensures trace == old(trace) + Cycle(tms)
    {
      SetPort(TMS(tms));
      SetPort(TCK(false));
      SetPort(TCK(true));
    }

    /** The reset sequence: one transition with TMS high and five more clock pulses. */
    method ResetTap()
      modifies this`trace, this`tap
      ensures trace == old(trace) + GotoTrace(0, RESET) && tap == RESET
    {
      TmsTransition(true);
      ghost var t := trace;
      for i := 0 to 5
        invariant trace == t + PULSES[..2 * i]
      {
        SetPort(TCK(false));
        SetPort(TCK(true));
        assert PULSES[..2 * (i + 1)] == PULSES[..2 * i] + [TCK(false), TCK(true)];
      }
      assert PULSES[..2 * 5] == PULSES;
      assert t + PULSES == old(trace) + (Cycle(true) + PULSES);
      tap := RESET;
    }

    /** The loop of xsvfGotoTapState. */
    method Walk(t: nat)
      requires tap < 16 && Legal(tap, t)
      modifies this`trace, this`tap
      ensures trace == old(trace) + Cycles(Path(old(tap), t)) && tap == t
    {
      while t != tap
        invariant tap < 16 && Legal(tap, t)
        invariant trace + Cycles(Path(tap, t)) == old(trace) + Cycles(Path(old(tap), t))
        decreases Distance(tap, t)
      {
        TowardIsCloser(tap, t);
        PathStep(tap, t);
        hide Path, Toward, Distance, Legal;
        var (tms, next) := Toward(tap, t);
        assert trace + (Cycle(tms) + Cycles(Path(next, t))) == trace + Cycle(tms) + Cycles(Path(next, t));
        TmsTransition(tms);
        tap := next;
      }
      assert Path(t, t) == [];
    }

    /** Asked to go to the pause state it is in, the player leaves it first. */
    method LeavePause(t: nat)
      modifies this`trace, this`tap
      ensures trace == if LeavesPause(old(tap), t) then old(trace) + Cycle(true) else old(trace)
      ensures tap == if LeavesPause(old(tap), t) then t + 1 else old(tap)
    {
      if t == tap {
        if t == PAUSEDR {
          TmsTransition(true);
          tap := EXIT2DR;
        } else if t == PAUSEIR {
          TmsTransition(true);
          tap := EXIT2IR;
        }
      }
    }

    /** xsvfGotoTapState */
    method Goto(t: nat) returns (e: Error)
      requires tap < 16 && t < 16
      modifies this`trace, this`tap
      ensures trace == old(trace) + GotoTrace(old(tap), t) && tap == GotoState(old(tap), t)
      ensures tap < 16 && e == if IllegalMove(old(tap), t) then ILLEGALSTATE else NONE
    {
      hide Path, Cycles, Cycle;
      e := NONE;
      if t == RESET {
        ResetTap();
        return;
      }
      if t != tap && ((t == EXIT2DR && tap != PAUSEDR) || (t == EXIT2IR && tap != PAUSEIR)) {
        return ILLEGALSTATE;
      }
      LeavePause(t);
      ghost var left := trace;
      Walk(t);
      assert trace == left + Cycles(Path(if LeavesPause(old(tap), t) then t + 1 else old(tap), t));
    }

    // ---------- shifting ----------

    /** One bit: TDO is sampled while TCK is low. */
    method ShiftBit(bit: bool, last: bool) returns (t: bool)
      modifies this`trace
      ensures trace == old(trace) + BitTrace(bit, last)
      ensures var b := BitTrace(bit, last); t == tdo(old(trace) + b[..|b| - 1])
    {
      if last {
        SetPort(TMS(true));
      }
      SetPort(TDI(bit));
      SetPort(TCK(false));
      t := tdo(trace);
      ghost var b := BitTrace(bit, last);
      assert trace == old(trace) + b[..|b| - 1];
      SetPort(TCK(true));
      assert trace == old(trace) + b;
    }

    /** The inner loop of xsvfShiftOnly: up to eight bits of one byte. B is all the data to shift, m0 of
        its bits having been shifted before. */
    method ShiftByte(b: Byte, left0: nat, exit: bool, ghost start: seq<Event>, ghost B: seq<bool>, ghost m0: nat)
      returns (c: Byte, left: nat)
      requires 0 < left0 && m0 + left0 == |B| && trace == start + ShiftTrace(B[..m0], false)
      requires forall i: nat :: i < 8 ==> ByteAt(B, m0, b, i)
      modifies this`trace
      ensures left == if left0 < 8 then 0 else left0 - 8
      ensures trace == start + ShiftTrace(B[..|B| - left], exit && left == 0)
      ensures c == FromBits(TdoBits(tdo, start, B[..|B| - left], exit && left == 0)[m0..])
    {
      hide ShiftTrace, TdoBits, BitTrace, FromBits, Or, Pow2, Bit, Shr;
      NoBits(b);
      var byte: nat := b;
      var i: nat := 0;
      left := left0;
      c := 0;
      ghost var C := TdoBits(tdo, start, B[..m0], false);
      assert C[m0..] == [];
      while left > 0 && i < 8
        invariant i <= 8 && left + i == left0 && byte == Shr(b, i)
        invariant trace == start + ShiftTrace(B[..m0 + i], exit && left == 0)
        invariant C == TdoBits(tdo, start, B[..m0 + i], exit && left == 0)
        invariant c == FromBits(C[m0..])
      {
        left := left - 1;
        assert ByteAt(B, m0, b, i);
        LowBit(b, i);
        NextBit(tdo, start, B, m0 + i, exit && left == 0);
        var t := ShiftBit(byte % 2 == 1, exit && left == 0);
        AppendBit(C[m0..], t);
        assert (C + [t])[m0..] == C[m0..] + [t];
        byte := byte / 2;
        c := Or(c, if t then Pow2(i) else 0);
        C := C + [t];
        i := i + 1;
      }
    }

    /** xsvfShiftOnly: bytes from the last one, bits from the low end. The captured value is as long as the
        data; the caller decides whether to keep it. */
    method ShiftOnly(n: nat, data: seq<Byte>, exit: bool) returns (out: seq<Byte>)
      requires n > 0 && NumBytes(n) == |data|
      modifies this`trace
      ensures trace == old(trace) + ShiftTrace(FirstBits(data, n), exit)
      ensures out == PackBits(TdoBits(tdo, old(trace), FirstBits(data, n), exit), |data|)
    {
      hide ShiftTrace, TdoBits, PackBits, BitsOf, FromBits;
      ghost var B, start := FirstBits(data, n), trace;
      NothingShifted(tdo, start);
      ghost var C: seq<bool> := [];
      var left: nat := n;
      var k := |data|;
      out := [];
      assert B[..0] == [];
      while left > 0
        invariant 0 <= k <= |data| && left <= n && |C| == n - left <= 8 * (|data| - k)
        invariant if left > 0 then n - left == 8 * (|data| - k) else k == 0
        invariant trace == start + ShiftTrace(B[..n - left], exit && left == 0)
        invariant C == TdoBits(tdo, start, B[..n - left], exit && left == 0)
        invariant out == PackBits(C, |data| - k)
        decreases left
      {
        k := k - 1;
        ghost var j: nat, m: nat := |data| - 1 - k, n - left;
        ByteOfBits(data, B, k, m, data[k]);
        var c;
        c, left := ShiftByte(data[k], left, exit, start, B, m);
        ghost var C' := TdoBits(tdo, start, B[..n - left], exit && left == 0);
        TdoPrefix(tdo, start, B[..n - left], exit && left == 0, m);
        assert B[..n - left][..m] == B[..m];
        assert C' == C + C'[m..];
        PackOneMore(C, C'[m..], j);
        out := [c] + out;
        C := C';
      }
      assert B[..n] == B;
    }

    /** xsvfShift */
    method Shift(job: Job, data: seq<Byte>, n: nat, runTime: int) returns (e: Error)
      requires tap < 16 && job.Valid() && NumBytes(n) == |data| && job.bits == FirstBits(data, n)
      modifies this`trace, this`tap, this`captured
      ensures var r := Xsvf.Shift(World(), old(View()), job, runTime);
              trace == r.trace && tap == r.tap && captured == r.captured &&
              (if e == NONE then r.error == old(error) else r.error == e)
    {
      e := NONE;
      if n == 0 {
        if runTime != 0 {
          var _ := Goto(RUNTEST);
          WaitTime(runTime);
          assert trace == old(trace) + GotoTrace(old(tap), RUNTEST) + WaitTrace(runTime);
        }
        return;
      }
      var failed, repeat := ShiftLoop(job, data, n, runTime);
      if failed {
        e := if job.maxRepeat != 0 && repeat > job.maxRepeat then MAXRETRIES else TDOMISMATCH;
      }
    }

    /** The do-while loop of xsvfShift. The counter is an unsigned char, incremented also by the test that
        ends the loop. */
    method ShiftLoop(job: Job, data: seq<Byte>, n: nat, runTime0: int) returns (mismatch: bool, repeat: nat)
      requires tap < 16 && job.Valid() && n > 0 && NumBytes(n) == |data| && job.bits == FirstBits(data, n)
      modifies this`trace, this`tap, this`captured
      ensures var o := Attempts(World(), job, old(trace), old(tap), runTime0, 0);
              && trace == o.trace && tap == o.tap && mismatch == o.Failed()
              && captured == (if job.capture then o.captured else old(captured))
      ensures mismatch ==> repeat == (job.maxRepeat + 1) % 256
    {
      hide OneTurn, Attempts, FirstBits, NumBytes;
      ghost var o := Attempts(World(), job, trace, tap, runTime0, 0);
      var runTime := runTime0;
      repeat := 0;
      mismatch := true;
      ghost var turns := 0;
      while true
        invariant tap < 16 && turns == repeat <= job.maxRepeat
        invariant Continues(Attempts(World(), job, trace, tap, runTime, turns), o)
        invariant captured == old(captured) || job.capture
        decreases job.maxRepeat - turns
      {
        AttemptsStep(World(), job, trace, tap, runTime, repeat);
        var out;
        mismatch, runTime, out := TurnOnce(job, data, n, runTime, repeat);
        if job.capture {
          captured := out;
        }
        var more := repeat < job.maxRepeat;
        if !(mismatch && more) {
          repeat := (repeat + 1) % 256;
          return;
        }
        repeat := (repeat + 1) % 256;
        turns := turns + 1;
      }
    }

    /** The body of that loop. */
    method TurnOnce(job: Job, data: seq<Byte>, n: nat, runTime: int, repeat: nat) returns (mismatch: bool, time: int, out: seq<Byte>)
      requires tap < 16 && job.Valid() && n > 0 && NumBytes(n) == |data| && job.bits == FirstBits(data, n)
      modifies this`trace, this`tap
      ensures OneTurn(World(), job, old(trace), old(tap), runTime, repeat).(waits := []) == Turn(trace, tap, time, out, mismatch, [])
    {
      hide GotoTrace, ShiftTrace, Matches, PackBits, TdoBits;
      time := runTime;
      var _ := Goto(job.start);
      out := ShiftOnly(n, data, job.Exits());
      mismatch := false;
      if job.compare {
        var equal := EqualLenVal(job.expected, out, job.mask, job.masked);
        mismatch := !equal;
      }
      if job.Exits() {
        tap := tap + 1;
        if mismatch && time != 0 && repeat < job.maxRepeat {
          var _ := Goto(PAUSEDR);
          var _ := Goto(SHIFTDR);
          time := Longer(long, time);
        } else {
          var _ := Goto(job.endState);
        }
        if time != 0 {
          ghost var t, p := trace, tap;
          var _ := Goto(RUNTEST);
          WaitTime(time);
          assert trace == t + GotoTrace(p, RUNTEST) + WaitTrace(time);
        }
      }
    }

    /** xsvfShift, with the error recorded as every command function does. */
    method ShiftAndRecord(job: Job, data: seq<Byte>, n: nat, runTime: int) returns (e: Error)
      requires tap < 16 && job.Valid() && NumBytes(n) == |data| && job.bits == FirstBits(data, n)
      modifies this`trace, this`tap, this`captured, this`error
      ensures View() == Xsvf.Shift(World(), old(View()), job, runTime)
      ensures error == if e == NONE then old(error) else e
    {
      hide Xsvf.Shift;
      e := Shift(job, data, n, runTime);
      if e != NONE {
        error := e;
      }
    }

    // ---------- the command functions ----------

    method DoIllegalCmd()
      modifies this`error
      ensures View() == old(View()).(error := ILLEGALCMD)
    {
      error := ILLEGALCMD;
    }

    method DoXcomplete()
      modifies this`complete
      ensures View() == old(View()).(complete := true)
    {
      complete := true;
    }

    method DoXrepeat()
      modifies this`maxRepeat, this`pos
      ensures View() == old(View()).(maxRepeat := InputAt(World(), old(pos)), pos := old(pos) + 1)
    {
      maxRepeat := ReadByte();
    }

    method DoXtdomask()
      modifies this`mask, this`pos
      ensures View() == old(View()).(mask := Read(World(), old(pos), bytes), pos := old(pos) + bytes)
    {
      mask := ReadVal(bytes);
    }

    /** The common part of XSIR and XSIR2. */
    method ShiftIr(n: nat)
      requires StateOk(View())
      modifies this`tdi, this`pos, this`trace, this`tap, this`captured, this`error
      ensures View() == Xsvf.DoXsir(World(), old(View()), n)
    {
      hide Xsvf.Shift, Read;
      if NumBytes(n) > MAX_LEN {
        error := DATAOVERFLOW;
      } else {
        tdi := ReadVal(NumBytes(n));
        assert View() == Take(World(), old(View()), NumBytes(n));
        var _ := ShiftAndRecord(Job(SHIFTIR, FirstBits(tdi, n), false, false, [], [], false, endIR, 0), tdi, n, runTest);
      }
    }

    method DoXsir()
      requires StateOk(View())
      modifies this`tdi, this`pos, this`trace, this`tap, this`captured, this`error
      ensures View() == Xsvf.DoXsir(World(), old(View()).(pos := old(pos) + 1), InputAt(World(), old(pos)))
    {
      var n := ReadByte();
      ShiftIr(n);
    }

    method DoXsir2()
      requires StateOk(View())
      modifies this`tdi, this`pos, this`trace, this`tap, this`captured, this`error
      ensures View() == Xsvf.DoXsir(World(), Take(World(), old(View()), 2), BigEndian(Read(World(), old(pos), 2)))
    {
      hide Read, BigEndian, Xsvf.DoXsir, Take, AsLong;
      TwoBytes(Read(World(), pos, 2), long);
      var n := ReadNumber(2);
      ShiftIr(n);
    }

    /** The shift that XSDR, XSDRTDO and XSDRINC have in common. */
    method ShiftDr() returns (e: Error)
      requires StateOk(View()) && |tdi| == bytes && CanCompare(View())
      modifies this`trace, this`tap, this`captured, this`error
      ensures View() == ShiftTdi(World(), old(View()))
      ensures error == if e == NONE then old(error) else e
    {
      hide Xsvf.Shift;
      e := ShiftAndRecord(Job(SHIFTDR, FirstBits(tdi, bits), true, true, expected, mask, true, endDR, maxRepeat), tdi, bits, runTest);
    }

    method DoXsdr()
      requires StateOk(View()) && CanCompare(View())
      modifies this`tdi, this`pos, this`trace, this`tap, this`captured, this`error
      ensures View() == ShiftTdi(World(), Take(World(), old(View()), bytes))
    {
      hide ShiftTdi, Read;
      tdi := ReadVal(bytes);
      var _ := ShiftDr();
    }

    method DoXruntest()
      modifies this`tdi, this`pos, this`runTest
      ensures View() == Take(World(), old(View()), 4).(runTest := AsLong(long, BigEndian(Read(World(), old(pos), 4))))
    {
      hide Read, BigEndian, Take;
      runTest := ReadNumber(4);
    }

    method DoXsdrsize()
      requires NumBytes(BigEndian(Read(World(), pos, 4))) <= 32767
      modifies this`tdi, this`pos, this`bits, this`bytes, this`error
      ensures var n := BigEndian(Read(World(), old(pos), 4));
              View() == Take(World(), old(View()), 4).(bits := n, bytes := NumBytes(n),
                                                       error := if NumBytes(n) > MAX_LEN then DATAOVERFLOW else old(error))
    {
      SizeIsLong(BigEndian(Read(World(), pos, 4)), long);
      hide Read, BigEndian, NumBytes, Take, AsLong;
      bits := ReadNumber(4);
      bytes := NumBytes(bits);
      if bytes > MAX_LEN {
        error := DATAOVERFLOW;
      }
    }

    method DoXsdrtdo()
      requires StateOk(View()) && bytes <= |mask|
      modifies this`tdi, this`expected, this`pos, this`trace, this`tap, this`captured, this`error
      ensures var s := Take(World(), old(View()), bytes);
              View() == ShiftTdi(World(), s.(expected := Read(World(), s.pos, bytes), pos := s.pos + bytes))
    {
      hide ShiftTdi, Read;
      tdi := ReadVal(bytes);
      expected := ReadVal(bytes);
      var _ := ShiftDr();
    }

    method DoXsetsdrmasks()
      modifies this`addressMask, this`dataMask, this`pos
      ensures View() == old(View()).(addressMask := Read(World(), old(pos), bytes),
                                     dataMask := Read(World(), old(pos) + bytes, bytes), pos := old(pos) + 2 * bytes)
    {
      addressMask := ReadVal(bytes);
      dataMask := ReadVal(bytes);
    }

    /** The body of the loop of xsvfDoXSDRINC: read a piece, merge it into the TDI value, shift. */
    method NextShift(dataBytes: nat) returns (e: Error)
      requires IncReady(View()) && dataBytes == DataBytes(dataMask)
      modifies this`tdi, this`pos, this`trace, this`tap, this`captured, this`error
      ensures View() == ShiftTdi(World(), NextPiece(World(), old(View())))
      ensures View().error == if e == NONE then old(View()).error else e
    {
      hide ShiftTdi, NextTdi, Read, DataBytes, NumBytes;
      var next := ReadVal(dataBytes);
      tdi := DoSdrMasking(tdi, next, addressMask, dataMask);
      assert View() == NextPiece(World(), old(View()));
      e := ShiftDr();
    }

    /** The loop of xsvfDoXSDRINC over the data pieces. */
    method Pieces(times: nat, dataBytes: nat)
      requires IncReady(View()) && View().error == NONE && dataBytes == DataBytes(dataMask)
      modifies this`tdi, this`pos, this`trace, this`tap, this`captured, this`error
      ensures View() == IncLoop(World(), old(View()), times)
    {
      hide ShiftTdi, NextPiece, DataBytes, IncReady, IncLoop, View;
      var i, e := 0, NONE;
      while e == NONE && i < times
        invariant i <= times && e == View().error
        invariant IncReady(View())
        invariant IncLoop(World(), View(), times - i) == IncLoop(World(), old(View()), times)
      {
        IncLoopStep(World(), View(), times - i);
        e := NextShift(dataBytes);
        i := i + 1;
      }
      IncLoopEnds(World(), View(), times - i);
    }

    /** The part of xsvfDoXSDRINC after a first shift that succeeded. */
    method DoIncRest()
      requires IncReady(View()) && error == NONE && bytes <= 255
      modifies this`tdi, this`pos, this`trace, this`tap, this`captured, this`error
      ensures View() == IncRest(World(), old(View()))
    {
      hide IncLoop, Pop, InputAt;
      var maskBits := CountMaskBits(dataMask);
      var times := ReadByte();
      Pieces(times, NumBytes(maskBits));
    }

    method DoXsdrinc()
      requires StateOk(View()) && error == NONE && CanCompare(View()) && |addressMask| == |dataMask| == bytes <= 255
      modifies this`tdi, this`pos, this`trace, this`tap, this`captured, this`error
      ensures View() == Xsvf.DoXsdrInc(World(), old(View()))
    {
      hide ShiftTdi, IncLoop, Read;
      tdi := ReadVal(bytes);
      assert View() == Take(World(), old(View()), bytes);
      var e := ShiftDr();
      if e == NONE {
        DoIncRest();
      }
    }

    /** xsvfDoXSDRBCE */
    method DoXsdrbce()
      requires StateOk(View())
      modifies this`tdi, this`pos, this`trace, this`tap, this`captured, this`error
      ensures View() == Part(World(), old(View()), false, command == 14)
    {
      hide Xsvf.Shift, Read;
      var end := if command == 14 then endDR else SHIFTDR;
      tdi := ReadVal(bytes);
      assert View() == Take(World(), old(View()), bytes);
      var _ := ShiftAndRecord(Job(SHIFTDR, FirstBits(tdi, bits), false, false, [], [], false, end, 0), tdi, bits, 0);
    }

    /** xsvfDoXSDRTDOBCE */
    method DoXsdrtdobce()
      requires StateOk(View())
      modifies this`tdi, this`expected, this`pos, this`trace, this`tap, this`captured, this`error
      ensures View() == Part(World(), old(View()), true, command == 17)
    {
      hide Xsvf.Shift, Read, FirstBits;
      var end := if command == 17 then endDR else SHIFTDR;
      tdi := ReadVal(bytes);
      expected := ReadVal(bytes);
      var _ := ShiftAndRecord(Job(SHIFTDR, FirstBits(tdi, bits), true, true, expected, [], false, end, 0), tdi, bits, 0);
    }

    method DoXstate()
      requires tap < 16 && InputAt(World(), pos) < 16
      modifies this`pos, this`trace, this`tap, this`error
      ensures var t := InputAt(World(), old(pos));
              var s := MoveTo(old(View()).(pos := old(pos) + 1), t);
              View() == if IllegalMove(old(tap), t) then s.(error := ILLEGALSTATE) else s
    {
      hide GotoTrace, GotoState, IllegalMove, InputAt;
      var t := ReadByte();
      var e := Goto(t);
      if e != NONE {
        error := e;
      }
    }

    method DoXendxr()
      requires command == 19 || command == 20
      modifies this`pos, this`endIR, this`endDR, this`error
      ensures View() == Xsvf.DoXendxr(old(View()).(pos := old(pos) + 1), command == 19, InputAt(World(), old(pos)))
    {
      var end := ReadByte();
      if end != 0 && end != 1 {
        error := ILLEGALSTATE;
      } else if command == 19 {
        endIR := if end == 0 then RUNTEST else PAUSEIR;
      } else {
        endDR := if end == 0 then RUNTEST else PAUSEDR;
      }
    }

    method DoXcomment()
      requires exists q :: pos <= q < |input| && input[q] == 0
      modifies this`pos, this`error
      ensures View() == old(View()).(pos := SkipComment(World(), old(pos)), error := NONE)
    {
      ghost var target := SkipComment(World(), pos);
      var text := ReadByte();
      while text != 0
        invariant if text == 0 then pos == target
                  else (exists q :: pos <= q < |input| && input[q] == 0) && SkipComment(World(), pos) == target
        decreases |input| - pos, if text == 0 then 0 else 1
      {
        text := ReadByte();
      }
      error := NONE;
    }

    method GoUnlessThere(t: nat)
      requires tap < 16 && t < 16
      modifies this`trace, this`tap
      ensures View() == if old(tap) != t then MoveTo(old(View()), t) else old(View())
      ensures tap < 16
    {
      hide GotoTrace, GotoState, IllegalMove;
      if tap != t {
        var _ := Goto(t);
      }
    }

    method WaitBetween(waitState: nat, endState: nat, time: int)
      requires tap < 16 && waitState < 16 && endState < 16
      modifies this`trace, this`tap
      ensures View() == Xsvf.DoXwait(old(View()), waitState, endState, time)
    {
      hide MoveTo, WaitTrace;
      GoUnlessThere(waitState);
      ghost var s := View();
      WaitTime(time);
      assert View() == s.(trace := s.trace + WaitTrace(time));
      GoUnlessThere(endState);
    }

    method ReadState() returns (t: Byte)
      modifies this`tdi, this`pos
      ensures View() == Take(World(), old(View()), 1) && t == InputAt(World(), old(pos))
    {
      tdi := ReadVal(1);
      t := tdi[0];
    }

    method DoXwait()
      requires tap < 16 && InputAt(World(), pos) < 16 && InputAt(World(), pos + 1) < 16
      modifies this`tdi, this`pos, this`trace, this`tap
      ensures View() == Xsvf.DoXwait(Take(World(), old(View()).(pos := old(pos) + 2), 4), InputAt(World(), old(pos)),
                                     InputAt(World(), old(pos) + 1), AsLong(long, BigEndian(Read(World(), old(pos) + 2, 4))))
    {
      hide Xsvf.DoXwait, BigEndian, Read;
      var waitState := ReadState();
      var endState := ReadState();
      var time := ReadNumber(4);
      WaitBetween(waitState, endState, time);
    }

    // ---------- execution control ----------

    /** The dispatch table of xsvfRun: the commands that shift. */
    method DispatchShift()
      requires StateOk(View()) && error == NONE && WellFormed(World(), View()) && IsShift(command)
      modifies this`error, this`tap, this`tdi, this`expected, this`captured, this`pos, this`trace
      ensures View() == Execute(World(), old(View()))
    {
      hide ShiftTdi, Part, Xsvf.DoXsir, Xsvf.DoXsdrInc, Read, BigEndian;
      match command {
        case 2 => DoXsir();
        case 3 => DoXsdr();
        case 9 => DoXsdrtdo();
        case 11 => DoXsdrinc();
        case 12 => DoXsdrbce();
        case 13 => DoXsdrbce();
        case 14 => DoXsdrbce();
        case 15 => DoXsdrtdobce();
        case 16 => DoXsdrtdobce();
        case 17 => DoXsdrtdobce();
        case _ => DoXsir2();
      }
    }

    /** The dispatch table of xsvfRun: the other commands. */
    method DispatchOther()
      requires StateOk(View()) && WellFormed(World(), View()) && !IsShift(command)
      modifies this`complete, this`error, this`tap, this`endIR, this`endDR, this`maxRepeat, this`runTest, this`bits, this`bytes,
               this`tdi, this`expected, this`captured, this`mask, this`addressMask, this`dataMask, this`pos, this`trace
      ensures View() == Execute(World(), old(View()))
    {
      hide Xsvf.DoXwait, Xsvf.DoXendxr, MoveTo, Read, BigEndian, SkipComment, IllegalMove, Take;
      match command {
        case 0 => DoXcomplete();
        case 1 => DoXtdomask();
        case 4 => DoXruntest();
        case 7 => DoXrepeat();
        case 8 => DoXsdrsize();
        case 10 => DoXsetsdrmasks();
        case 18 => DoXstate();
        case 19 => DoXendxr();
        case 20 => DoXendxr();
        case 22 => DoXcomment();
        case 23 => DoXwait();
        case _ => DoIllegalCmd();
      }
    }

    /** xsvfRun */
    method Run()
      requires StateOk(View()) && (Running(View()) ==> WellFormed(World(), Fetch(World(), View())))
      modifies this
      ensures View() == Step(World(), old(View()))
      ensures count == old(count) + if Running(old(View())) then 1 else 0
    {
      hide Execute, WellFormed;
      if error == NONE && !complete {
        command := ReadByte();
        count := count + 1;
        assert View() == Fetch(World(), old(View()));
        if IsShift(command) {
          DispatchShift();
        } else {
          DispatchOther();
        }
      }
    }

    /** xsvfInfoInit, but for the buffers, which it does not touch. */
    method InfoInit()
      modifies this`complete, this`command, this`count, this`error, this`maxRepeat, this`tap, this`endIR, this`endDR,
               this`bits, this`bytes, this`runTest
      ensures !complete && command == 0 && count == 0 && error == NONE && maxRepeat == 0
      ensures tap == RESET && endIR == endDR == RUNTEST && bits == bytes == runTest == 0
    {
      complete, command, count, error, maxRepeat := false, 0, 0, NONE, 0;
      tap, endIR, endDR := RESET, RUNTEST, RUNTEST;
      bits, bytes, runTest := 0, 0, 0;
    }

    /** xsvfInitialize */
    method Initialize()
      modifies this
      ensures View() == Xsvf.Initialize(old(View()))
    {
      hide GotoTrace, GotoState, IllegalMove;
      InfoInit();
      ResetIsLegal();
      error := Goto(RESET);
    }

    /** xsvfExecute: plays the file to its end, leaving what the run machine says. */
    method Play() returns (success: bool)
      requires pos == 0
      requires StateOk(Xsvf.Initialize(View())) && XsvfProofs.Agrees(Xsvf.Initialize(View()))
      requires XsvfRuns.Playable(World(), Xsvf.Initialize(View()))
      modifies this
      ensures View() == XsvfRuns.After(World(), Xsvf.Initialize(old(View())), |input| + 1)
      ensures !Running(View()) && count <= |input| + 1
      ensures success <==> error == NONE
      ensures forall chip: Chip :: Code(Drive(chip, trace).state) == tap
    {
      hide Step, WellFormed, XsvfProofs.Agrees, Drive, GotoTrace;
      Initialize();
      ghost var s0 := View();
      ghost var n := |input| + 1;
      while error == NONE && !complete
        invariant StateOk(View()) && XsvfProofs.Agrees(View()) && XsvfRuns.Playable(World(), View())
        invariant XsvfRuns.Budget(World(), View()) <= n && count + n == |input| + 1
        invariant XsvfRuns.After(World(), View(), n) == XsvfRuns.After(World(), s0, |input| + 1)
        decreases n
      {
        XsvfRuns.StepUsesBudget(World(), View());
        XsvfRuns.StepKeeps(World(), View());
        Run();
        n := n - 1;
      }
      AgreeingIsControllerState(View());
      success := error == NONE;
    }
  }

  /** The outcome from some turn on is the outcome of the whole loop, but for the record of earlier turns. */
  ghost predicate Continues(rest: Outcome, whole: Outcome) {
    rest.trace == whole.trace && rest.tap == whole.tap && rest.captured == whole.captured && rest.Failed() == whole.Failed()
  }

  lemma AttemptsStep(env: Env, job: Job, trace: seq<Event>, tap: nat, runTest: int, repeat: nat)
    requires job.Valid() && job.bits != [] && tap < 16 && repeat <= job.maxRepeat
    ensures var o, u := Attempts(env, job, trace, tap, runTest, repeat), OneTurn(env, job, trace, tap, runTest, repeat);
            if u.mismatch && repeat < job.maxRepeat then
              Continues(Attempts(env, job, u.trace, u.tap, u.runTest, repeat + 1), o)
            else
              o.trace == u.trace && o.tap == u.tap && o.captured == u.captured && o.Failed() == u.mismatch
  {
    hide OneTurn;
    var u := OneTurn(env, job, trace, tap, runTest, repeat);
    if u.mismatch && repeat < job.maxRepeat {
      var rest := Attempts(env, job, u.trace, u.tap, u.runTest, repeat + 1);
      assert ([false] + rest.matched)[|rest.matched|] == rest.matched[|rest.matched| - 1];
    }
  }

  lemma AgreeingIsControllerState(s: State)
    requires XsvfProofs.Agrees(s)
    ensures forall chip: Chip :: Code(Drive(chip, s.trace).state) == s.tap
  {
    forall chip: Chip ensures Code(Drive(chip, s.trace).state) == s.tap {
      assert Tracks(Drive(chip, s.trace), s.tap);
    }
  }

  lemma IncLoopStep(env: Env, s: State, k: nat)
    requires IncReady(s) && k > 0 && s.error == NONE
    ensures var s' := ShiftTdi(env, NextPiece(env, s)); IncReady(s') && IncLoop(env, s, k) == IncLoop(env, s', k - 1)
  {
    hide ShiftTdi;
  }

  lemma IncLoopEnds(env: Env, s: State, k: nat)
    requires IncReady(s) && (k == 0 || s.error != NONE)
    ensures IncLoop(env, s, k) == s
  {
  }

  /** Shifting a byte right brings its next bit to the low end. */
  lemma LowBit(b: Byte, i: nat)
    ensures Bit(b, i) <==> Shr(b, i) % 2 == 1
    ensures Shr(b, i) / 2 == Shr(b, i + 1)
  {
    BitShr(b, i, 0);
    ShrStep(b, i);
  }

  lemma NoBits(b: Byte)
    ensures Shr(b, 0) == b && FromBits([]) == 0
  {
  }

  lemma TwoBytes(v: seq<Byte>, w: Width)
    requires |v| == 2
    ensures AsLong(w, BigEndian(v)) == BigEndian(v)
  {
    assert v[..1][..0] == [];
    assert BigEndian(v) == 256 * BigEndian(v[..1]) + v[1] && BigEndian(v[..1]) == v[0];
    SmallIsLong(w, BigEndian(v));
  }

  lemma SizeIsLong(n: nat, w: Width)
    requires NumBytes(n) <= 32767
    ensures AsLong(w, n) == n
  {
    SmallIsLong(w, n);
  }

  lemma ResetIsLegal()
    ensures !IllegalMove(RESET, RESET) && GotoState(RESET, RESET) == RESET
  {
  }

  lemma NothingShifted(dev: Device, start: seq<Event>)
    ensures ShiftTrace([], false) == [] && TdoBits(dev, start, [], false) == [] && PackBits([], 0) == []
  {
  }

  ghost predicate ByteAt(B: seq<bool>, m: nat, b: Byte, i: nat) { m + i < |B| ==> B[m + i] == Bit(b, i) }

  lemma ByteOfBits(data: seq<Byte>, B: seq<bool>, k: nat, m: nat, b: Byte)
    requires k < |data| && b == data[k] && m == 8 * (|data| - 1 - k) && |B| <= 8 * |data| && B == FirstBits(data, |B|)
    ensures forall i: nat :: i < 8 ==> ByteAt(B, m, b, i)
  {
    forall i: nat | i < 8 ensures ByteAt(B, m, b, i) {
      BitsOfAt(data, |data| - 1 - k, i);
    }
  }

  lemma PathStep(s: nat, t: nat)
    requires s < 16 && Legal(s, t) && s != t
    ensures var (tms, s') := Toward(s, t);
            s' < 16 && Legal(s', t) && Cycles(Path(s, t)) == Cycle(tms) + Cycles(Path(s', t))
  {
    TowardIsCloser(s, t);
    var (tms, s') := Toward(s, t);
    assert Path(s, t) == [tms] + Path(s', t) && ([tms] + Path(s', t))[1..] == Path(s', t);
  }

  /** The trace and the samples one bit further. */
  lemma NextBit(dev: Device, start: seq<Event>, B: seq<bool>, m: nat, last: bool)
    requires m < |B|
    ensures start + ShiftTrace(B[..m], false) + BitTrace(B[m], last) == start + ShiftTrace(B[..m + 1], last)
    ensures var b := BitTrace(B[m], last);
            |b| > 0 && TdoBits(dev, start, B[..m + 1], last) ==
            TdoBits(dev, start, B[..m], false) + [dev(start + ShiftTrace(B[..m], false) + b[..|b| - 1])]
  {
    hide BitTrace;
    var C := B[..m + 1];
    assert C[..|C| - 1] == B[..m] && C[|C| - 1] == B[m];
    SomeEvents(B[m], last);
    assert ShiftTrace(C, last) == ShiftTrace(C[..|C| - 1], false) + BitTrace(B[m], last);
  }

  lemma SomeEvents(bit: bool, last: bool)
    ensures |BitTrace(bit, last)| > 0
  {
  }

  lemma AppendBit(bs: seq<bool>, t: bool)
    requires |bs| < 8
    ensures Or(FromBits(bs), if t then Pow2(|bs|) else 0) == FromBits(bs + [t])
    ensures FromBits(bs + [t]) < 256
  {
    SetNextBit(bs, t);
    FromBitsBound(bs + [t]);
    PowBound(|bs| + 1);
  }

  lemma {:induction false} PackOneMore(bs: seq<bool>, cs: seq<bool>, j: nat)
    requires |bs| == 8 * j && |cs| <= 8 && FromBits(cs) < 256
    ensures PackBits(bs + cs, j + 1) == [FromBits(cs)] + PackBits(bs, j)
    decreases j
  {
    if j == 0 {
      assert bs + cs == cs && cs[..|cs|] == cs && cs[|cs|..] == [];
    } else {
      PackOneMore(bs[8..], cs, j - 1);
      assert (bs + cs)[..8] == bs[..8] && (bs + cs)[8..] == bs[8..] + cs;
    }
  }

  lemma {:induction false} TdoPrefix(dev: Device, start: seq<Event>, bits: seq<bool>, exit: bool, m: nat)
    requires m <= |bits| && (m == |bits| ==> !exit)
    ensures TdoBits(dev, start, bits, exit)[..m] == TdoBits(dev, start, bits[..m], false)
    decreases |bits|
  {
    hide BitTrace, ShiftTrace;
    if m == |bits| {
      assert bits[..m] == bits;
    } else {
      var front := bits[..|bits| - 1];
      TdoPrefix(dev, start, front, false, m);
      assert front[..m] == bits[..m];
    }
  }
}
