/** Commands to the time-to-digital converter of the timing module, sent over a JTAG port that is one
    register of the module's memory map. */
module Hptdc {
  import opened Bits
  import opened LenVal
  import opened TapController

  const CMD_BITS: nat := 4

  // ---------- the port ----------

  /** A value written to the port register, line by line. TRST is active low. */
  datatype Pins = Pins(trst: bool, tck: bool, tdi: bool, tms: bool)

  /** What reaches the chip behind the scan path. */
  datatype Update = Instruction(bits: seq<bool>) | Data(bits: seq<bool>)

  /** An IEEE 1149.1 port seen from outside: the controller, the bits shifted in since the last capture,
      the captured data register, the level on TDO, and the updates so far. */
  datatype Port = Port(state: Tap, tck: bool, ir: seq<bool>, dr: seq<bool>, captured: seq<bool>, tdo: bool, updates: seq<Update>)

  /** Rising edge of TCK: the controller moves, a capture empties the log of the shift path, a shift adds
      a bit to it, and entering an update state delivers it. */
  function Rise(p: Port, tdi: bool, tms: bool): Port {
    var s := Next(p.state, tms);
    var ir := if p.state == CaptureIR then [] else if p.state == ShiftIR then p.ir + [tdi] else p.ir;
    var dr := if p.state == CaptureDR then [] else if p.state == ShiftDR then p.dr + [tdi] else p.dr;
    var delivered := if s == UpdateIR then [Instruction(ir)] else if s == UpdateDR then [Data(dr)] else [];
    p.(state := s, tck := true, ir := ir, dr := dr, updates := p.updates + delivered)
  }

  /** Falling edge: in Shift-DR the cell next to TDO is presented. The shift path holds the captured
      register followed by what was shifted in, less what has left it. */
  function Fall(p: Port): Port {
    p.(tck := false, tdo := if p.state == ShiftDR && p.captured != [] then (p.captured + p.dr)[|p.dr|] else p.tdo)
  }

  function Write(p: Port, w: Pins): Port {
    if !w.trst then p.(state := TestLogicReset, tck := w.tck)
    else if w.tck && !p.tck then Rise(p, w.tdi, w.tms)
    else if !w.tck && p.tck then Fall(p)
    else p
  }

  function WriteAll(p: Port, ws: seq<Pins>): Port
    decreases |ws|
  {
    if ws == [] then p else Write(WriteAll(p, ws[..|ws| - 1]), ws[|ws| - 1])
  }

  lemma {:induction false} WriteAllConcat(p: Port, a: seq<Pins>, b: seq<Pins>)
    ensures WriteAll(p, a + b) == WriteAll(WriteAll(p, a), b)
    decreases |b|
  {
    if b == [] {
      assert a + b == a;
    } else {
      assert (a + b)[..|a + b| - 1] == a + b[..|b| - 1];
      WriteAllConcat(p, a, b[..|b| - 1]);
    }
  }

  // ---------- bit transfers ----------

  datatype Step = Step(tdi: bool, tms: bool)

  function Transfer(s: Step): seq<Pins> {
    [Pins(true, false, s.tdi, s.tms), Pins(true, true, s.tdi, s.tms), Pins(true, false, s.tdi, s.tms)]
  }

  function Transfers(steps: seq<Step>): seq<Pins>
    decreases |steps|
  {
    if steps == [] then [] else Transfers(steps[..|steps| - 1]) + Transfer(steps[|steps| - 1])
  }

  lemma {:induction false} TransfersConcat(a: seq<Step>, b: seq<Step>)
    ensures Transfers(a + b) == Transfers(a) + Transfers(b)
    decreases |b|
  {
    if b == [] {
      assert a + b == a;
    } else {
      assert (a + b)[..|a + b| - 1] == a + b[..|b| - 1];
      TransfersConcat(a, b[..|b| - 1]);
    }
  }

  function Pulse(p: Port, s: Step): Port { Fall(Rise(p, s.tdi, s.tms)) }

  /** The port after a list of bit transfers. */
  function Clocked(p: Port, steps: seq<Step>): (q: Port)
    ensures !p.tck ==> !q.tck
    decreases |steps|
  {
    if steps == [] then p else Pulse(Clocked(p, steps[..|steps| - 1]), steps[|steps| - 1])
  }

  lemma {:induction false} ClockedConcat(p: Port, a: seq<Step>, b: seq<Step>)
    ensures Clocked(p, a + b) == Clocked(Clocked(p, a), b)
    decreases |b|
  {
    if b == [] {
      assert a + b == a;
    } else {
      assert (a + b)[..|a + b| - 1] == a + b[..|b| - 1];
      ClockedConcat(p, a, b[..|b| - 1]);
    }
  }

  /** The three register writes of a transfer are one clock pulse. TDO is read between its edges. */
  lemma TransferIsPulse(p: Port, s: Step)
    requires !p.tck
    ensures WriteAll(p, Transfer(s)) == Pulse(p, s)
    ensures WriteAll(p, Transfer(s)[..2]).tdo == p.tdo
  {
    var t := Transfer(s);
    assert t[..2] == [t[0], t[1]] && t[..2][..1] == [t[0]] && [t[0]][..0] == [];
    assert WriteAll(p, [t[0]]) == Write(WriteAll(p, []), t[0]) == p;
    assert WriteAll(p, t[..2]) == Write(WriteAll(p, t[..2][..1]), t[1]);
    assert WriteAll(p, t) == Write(WriteAll(p, t[..2]), t[2]);
  }

  lemma {:induction false} TransfersArePulses(p: Port, steps: seq<Step>)
    requires !p.tck
    ensures WriteAll(p, Transfers(steps)) == Clocked(p, steps)
    decreases |steps|
  {
    if steps != [] {
      var front := steps[..|steps| - 1];
      TransfersArePulses(p, front);
      WriteAllConcat(p, Transfers(front), Transfer(steps[|steps| - 1]));
      TransferIsPulse(Clocked(p, front), steps[|steps| - 1]);
    }
  }

  // ---------- the command ----------

  /** The low n bits of a value, low bit first. */
  function ValueBits(value: nat, n: nat): (r: seq<bool>)
    ensures |r| == n
  {
    seq(n, i requires 0 <= i => Bit(value, i))
  }

  /** A register of the chip: its value and where it lies in the setup string. */
  datatype Register = Register(value: nat, endBit: nat, startBit: nat) {
    /** No more than 32 bits, as the chip's register table promises. */
    predicate Valid() { startBit <= endBit + 1 && endBit + 1 - startBit <= 32 }

    function Bits(): seq<bool>
      requires Valid()
    {
      ValueBits(value, endBit + 1 - startBit)
    }
  }

  predicate AllValid(regs: seq<Register>) { forall j :: 0 <= j < |regs| ==> regs[j].Valid() }

  function AllBits(regs: seq<Register>): seq<bool>
    requires AllValid(regs)
    decreases |regs|
  {
    if regs == [] then [] else AllBits(regs[..|regs| - 1]) + regs[|regs| - 1].Bits()
  }

  function CmdBits(cmd: nat): seq<bool> { ValueBits(cmd, CMD_BITS) }

  function Ones(bits: seq<bool>): nat
    decreases |bits|
  {
    if bits == [] then 0 else Ones(bits[..|bits| - 1]) + if bits[|bits| - 1] then 1 else 0
  }

  lemma {:induction false} OnesConcat(a: seq<bool>, b: seq<bool>)
    ensures Ones(a + b) == Ones(a) + Ones(b)
    decreases |b|
  {
    if b == [] {
      assert a + b == a;
    } else {
      assert (a + b)[..|a + b| - 1] == a + b[..|b| - 1];
      OnesConcat(a, b[..|b| - 1]);
    }
  }

  function Parity(bits: seq<bool>): bool { Ones(bits) % 2 == 1 }

  /** Shift bits with TMS low, or high on the last one. */
  function Shifts(bits: seq<bool>, exit: bool): (r: seq<Step>)
    ensures |r| == |bits|
  {
    seq(|bits|, i requires 0 <= i < |bits| => Step(bits[i], exit && i == |bits| - 1))
  }

  /** The data part: without parity every register ends with TMS high. */
  function RegisterSteps(regs: seq<Register>, parity: bool): seq<Step>
    requires AllValid(regs)
    decreases |regs|
  {
    if regs == [] then [] else RegisterSteps(regs[..|regs| - 1], parity) + Shifts(regs[|regs| - 1].Bits(), !parity)
  }

  const SELECT_IR: seq<Step> := [Step(false, true), Step(false, true), Step(false, false), Step(false, false)]
  const SELECT_DR: seq<Step> := [Step(false, true), Step(false, true), Step(false, false), Step(false, false)]
  const FINISH: seq<Step> := [Step(false, true), Step(false, false)]

  function CommandPart(cmd: nat): seq<Step> { Shifts(CmdBits(cmd), false) + [Step(Parity(CmdBits(cmd)), true)] }

  function DataPart(regs: seq<Register>, parity: bool): seq<Step>
    requires AllValid(regs)
  {
    RegisterSteps(regs, parity) + if parity then [Step(Parity(AllBits(regs)), true)] else []
  }

  function CommandSteps(cmd: nat, regs: seq<Register>, parity: bool): seq<Step>
    requires AllValid(regs)
  {
    SELECT_IR + CommandPart(cmd) + SELECT_DR + DataPart(regs, parity) + FINISH
  }

  // ---------- what it does to the port ----------

  lemma {:induction false} ShiftIrBits(p: Port, bits: seq<bool>)
    requires !p.tck && p.state == ShiftIR
    ensures Clocked(p, Shifts(bits, false)) == p.(ir := p.ir + bits)
    decreases |bits|
  {
    if bits == [] {
      assert p.ir + bits == p.ir;
    } else {
      var front := bits[..|bits| - 1];
      ShiftIrBits(p, front);
      assert Shifts(bits, false)[..|bits| - 1] == Shifts(front, false);
      assert p.ir + bits == (p.ir + front) + [bits[|bits| - 1]];
    }
  }

  /** TDO shows the cell that the next shift will push out. */
  predicate Presents(p: Port) { p.captured == [] || p.tdo == (p.captured + p.dr)[|p.dr|] }

  lemma ShiftDrPulse(p: Port, b: bool)
    requires !p.tck && p.state == ShiftDR
    ensures var q := Pulse(p, Step(b, false)); Presents(q) && q == p.(dr := p.dr + [b], tdo := q.tdo)
  {
  }

  /** A move that neither captures, shifts nor updates. */
  lemma QuietPulse(p: Port, s: Step)
    requires !p.tck && p.state !in {CaptureIR, ShiftIR, CaptureDR, ShiftDR}
    requires Next(p.state, s.tms) !in {UpdateIR, UpdateDR, ShiftDR}
    ensures Pulse(p, s) == p.(state := Next(p.state, s.tms))
  {
  }

  lemma CapturePulse(p: Port)
    requires !p.tck && (p.state == CaptureIR || p.state == CaptureDR)
    ensures var q := Pulse(p, Step(false, false));
            if p.state == CaptureIR then q == p.(state := ShiftIR, ir := [])
            else Presents(q) && q == p.(state := ShiftDR, dr := [], tdo := q.tdo)
  {
  }

  lemma UpdateIrPulse(p: Port)
    requires !p.tck && p.state == Exit1IR
    ensures Pulse(p, Step(false, true)) == p.(state := UpdateIR, updates := p.updates + [Instruction(p.ir)])
  {
  }

  lemma {:induction false} ShiftDrBits(p: Port, bits: seq<bool>)
    requires !p.tck && p.state == ShiftDR && Presents(p)
    ensures var q := Clocked(p, Shifts(bits, false)); Presents(q) && q == p.(dr := p.dr + bits, tdo := q.tdo)
    decreases |bits|
  {
    hide Pulse, Presents;
    if bits == [] {
      assert p.dr + bits == p.dr;
    } else {
      var front, last := bits[..|bits| - 1], bits[|bits| - 1];
      ShiftDrBits(p, front);
      var steps := Shifts(bits, false);
      assert steps[..|bits| - 1] == Shifts(front, false) && steps[|bits| - 1] == Step(last, false);
      ShiftDrPulse(Clocked(p, Shifts(front, false)), last);
      assert p.dr + bits == (p.dr + front) + [last];
    }
  }

  lemma ClockedOne(p: Port, s: Step)
    ensures Clocked(p, [s]) == Pulse(p, s)
  {
    assert [s][..0] == [];
  }

  lemma ClockedTwo(p: Port, s: Step, t: Step)
    ensures Clocked(p, [s, t]) == Pulse(Pulse(p, s), t)
  {
    ClockedOne(p, s);
    assert [s, t][..1] == [s];
  }

  lemma ClockedFour(p: Port, steps: seq<Step>)
    requires |steps| == 4
    ensures Clocked(p, steps) == Pulse(Pulse(Pulse(Pulse(p, steps[0]), steps[1]), steps[2]), steps[3])
  {
    var a, b := steps[..2], steps[2..];
    assert steps == a + b && a == [steps[0], steps[1]] && b == [steps[2], steps[3]];
    ClockedConcat(p, a, b);
    ClockedTwo(p, steps[0], steps[1]);
    ClockedTwo(Clocked(p, a), steps[2], steps[3]);
  }

  /** From idle to an empty instruction path. */
  lemma SelectIrPath(p: Port)
    requires !p.tck && p.state == RunTestIdle
    ensures Clocked(p, SELECT_IR) == p.(state := ShiftIR, ir := [])
  {
    hide Clocked, Pulse;
    ClockedFour(p, SELECT_IR);
    QuietPulse(p, SELECT_IR[0]);
    QuietPulse(p.(state := SelectDR), SELECT_IR[1]);
    QuietPulse(p.(state := SelectIR), SELECT_IR[2]);
    CapturePulse(p.(state := CaptureIR));
  }

  /** From Exit1-IR, through the update of the instruction, to an empty data path. */
  lemma SelectDrPath(p: Port)
    requires !p.tck && p.state == Exit1IR
    ensures var q := Clocked(p, SELECT_DR);
            Presents(q) && q == p.(state := ShiftDR, dr := [], tdo := q.tdo, updates := p.updates + [Instruction(p.ir)])
  {
    hide Clocked, Pulse, Presents;
    ClockedFour(p, SELECT_DR);
    UpdateIrPulse(p);
    var q := Pulse(p, SELECT_DR[0]);
    QuietPulse(q, SELECT_DR[1]);
    QuietPulse(q.(state := SelectDR), SELECT_DR[2]);
    CapturePulse(q.(state := CaptureDR));
  }

  lemma FinishPath(p: Port)
    requires !p.tck && p.state == Exit1DR
    ensures Clocked(p, FINISH) == p.(state := RunTestIdle, updates := p.updates + [Data(p.dr)])
  {
    hide Clocked;
    ClockedTwo(p, FINISH[0], FINISH[1]);
  }

  lemma CommandPath(p: Port, cmd: nat)
    requires !p.tck && p.state == ShiftIR && p.ir == []
    ensures var c := CmdBits(cmd); Clocked(p, CommandPart(cmd)) == p.(state := Exit1IR, ir := c + [Parity(c)])
  {
    hide Clocked, CmdBits, Parity;
    var c := CmdBits(cmd);
    ClockedConcat(p, Shifts(c, false), [Step(Parity(c), true)]);
    ShiftIrBits(p, c);
    assert [] + c == c;
    ClockedOne(p.(ir := c), Step(Parity(c), true));
  }

  /** The instruction half of every command: from idle to Shift-DR with the command delivered. */
  lemma InstructionDelivered(p: Port, cmd: nat)
    requires !p.tck && p.state == RunTestIdle
    ensures var c := CmdBits(cmd);
            var q := Clocked(p, SELECT_IR + CommandPart(cmd) + SELECT_DR);
            && Presents(q)
            && q == p.(state := ShiftDR, ir := c + [Parity(c)], dr := [], tdo := q.tdo,
                       updates := p.updates + [Instruction(c + [Parity(c)])])
  {
    hide Clocked, CmdBits, Parity, CommandPart, Presents;
    var p1 := Clocked(p, SELECT_IR);
    SelectIrPath(p);
    ClockedConcat(p, SELECT_IR, CommandPart(cmd));
    CommandPath(p1, cmd);
    ClockedConcat(p, SELECT_IR + CommandPart(cmd), SELECT_DR);
    SelectDrPath(Clocked(p1, CommandPart(cmd)));
  }

  lemma {:induction false} RegistersAreBits(regs: seq<Register>)
    requires AllValid(regs)
    ensures RegisterSteps(regs, true) == Shifts(AllBits(regs), false)
    decreases |regs|
  {
    if regs != [] { RegistersAreBits(regs[..|regs| - 1]); }
  }

  lemma ParityEvens(bits: seq<bool>)
    ensures Ones(bits + [Parity(bits)]) % 2 == 0
  {
    OnesConcat(bits, [Parity(bits)]);
    assert [Parity(bits)][..0] == [];
  }

  lemma DataDelivered(p: Port, d: seq<bool>, parity: bool)
    requires !p.tck && p.state == ShiftDR && p.dr == [] && Presents(p)
    ensures var q := Clocked(p, Shifts(d, false) + [Step(parity, true)] + FINISH);
            q.state == RunTestIdle && q.updates == p.updates + [Data(d + [parity])]
  {
    hide Clocked;
    ClockedConcat(p, Shifts(d, false), [Step(parity, true)]);
    ShiftDrBits(p, d);
    assert [] + d == d;
    var p1 := Clocked(p, Shifts(d, false));
    ClockedOne(p1, Step(parity, true));
    ClockedConcat(p, Shifts(d, false) + [Step(parity, true)], FINISH);
    FinishPath(Pulse(p1, Step(parity, true)));
  }

  /** With parity, a command started in Run-Test/Idle ends there; the chip receives exactly one
      instruction, the four command bits and their parity, and then exactly one data update, the bits of
      all registers in order and their parity. The number of ones is even in both. */
  lemma CommandDelivers(p: Port, cmd: nat, regs: seq<Register>)
    requires !p.tck && p.state == RunTestIdle && AllValid(regs)
    ensures var q, c, d := Clocked(p, CommandSteps(cmd, regs, true)), CmdBits(cmd), AllBits(regs);
            && q.state == RunTestIdle
            && q.updates == p.updates + [Instruction(c + [Parity(c)]), Data(d + [Parity(d)])]
            && Ones(c + [Parity(c)]) % 2 == 0 && Ones(d + [Parity(d)]) % 2 == 0
  {
    hide Clocked, CmdBits, AllBits, Parity, RegisterSteps, Presents, Ones;
    var c, d := CmdBits(cmd), AllBits(regs);
    var first := SELECT_IR + CommandPart(cmd) + SELECT_DR;
    var second := Shifts(d, false) + [Step(Parity(d), true)] + FINISH;
    InstructionDelivered(p, cmd);
    RegistersAreBits(regs);
    assert CommandSteps(cmd, regs, true) == first + second;
    ClockedConcat(p, first, second);
    DataDelivered(Clocked(p, first), d, Parity(d));
    ParityEvens(c);
    ParityEvens(d);
  }

  /** Where register j starts in the setup string. */
  function Offset(regs: seq<Register>, j: nat): nat
    requires AllValid(regs) && j <= |regs|
  {
    if j == 0 then 0 else Offset(regs, j - 1) + (regs[j - 1].endBit + 1 - regs[j - 1].startBit)
  }

  lemma {:induction false} SetupString(regs: seq<Register>, j: nat, i: nat)
    requires AllValid(regs) && j < |regs| && i < regs[j].endBit + 1 - regs[j].startBit
    ensures Offset(regs, j) + i < |AllBits(regs)| == Offset(regs, |regs|)
    ensures AllBits(regs)[Offset(regs, j) + i] <==> Bit(regs[j].value, i)
    decreases |regs|
  {
    hide Bit;
    var n := |regs| - 1;
    AllBitsLength(regs);
    AllBitsLength(regs[..n]);
    OffsetPrefix(regs, n, n);
    if j < n {
      SetupString(regs[..n], j, i);
      OffsetPrefix(regs, n, j);
    }
  }

  lemma {:induction false} AllBitsLength(regs: seq<Register>)
    requires AllValid(regs)
    ensures |AllBits(regs)| == Offset(regs, |regs|)
    decreases |regs|
  {
    if regs != [] {
      var n := |regs| - 1;
      AllBitsLength(regs[..n]);
      OffsetPrefix(regs, n, n);
    }
  }

  lemma {:induction false} OffsetPrefix(regs: seq<Register>, n: nat, j: nat)
    requires AllValid(regs) && j <= n <= |regs|
    ensures Offset(regs[..n], j) == Offset(regs, j)
    decreases j
  {
    if j > 0 { OffsetPrefix(regs, n, j - 1); }
  }

  lemma {:induction false} OnesCount(bits: seq<bool>)
    ensures Ones(bits) == multiset(bits)[true]
    decreases |bits|
  {
    if bits != [] {
      var front := bits[..|bits| - 1];
      OnesCount(front);
      assert bits == front + [bits[|bits| - 1]];
    }
  }

  /** The same bit by bit: the instruction is the four low bits of the command, the data is the registers one after the
      other, each from its low bit on, and each is followed by one bit that makes the number of ones even. */
  lemma DeliveredBits(p: Port, cmd: nat, regs: seq<Register>)
    requires !p.tck && p.state == RunTestIdle && AllValid(regs)
    ensures var q := Clocked(p, CommandSteps(cmd, regs, true));
            && q.state == RunTestIdle && |q.updates| == |p.updates| + 2 && q.updates[..|p.updates|] == p.updates
            && q.updates[|p.updates|].Instruction? && q.updates[|p.updates| + 1].Data?
            && var ir, dr := q.updates[|p.updates|].bits, q.updates[|p.updates| + 1].bits;
               && |ir| == 5 && (forall i: nat :: i < 4 ==> (ir[i] <==> Bit(cmd, i)))
               && |dr| == Offset(regs, |regs|) + 1
               && (forall j: nat, i: nat :: j < |regs| && i < regs[j].endBit + 1 - regs[j].startBit ==>
                     InString(dr, Offset(regs, j) + i, Bit(regs[j].value, i)))
               && multiset(ir)[true] % 2 == 0 && multiset(dr)[true] % 2 == 0
  {
    hide Clocked, CommandSteps, Bit, CmdBits, AllBits, Parity, Ones, Offset, InString;
    CommandDelivers(p, cmd, regs);
    InstructionBits(cmd);
    DataBits(regs);
  }

  lemma InstructionBits(cmd: nat)
    ensures var ir := CmdBits(cmd) + [Parity(CmdBits(cmd))];
            |ir| == 5 && (forall i: nat :: i < 4 ==> (ir[i] <==> Bit(cmd, i))) && multiset(ir)[true] % 2 == 0
  {
    hide Bit, Ones, Parity;
    ParityEvens(CmdBits(cmd));
    OnesCount(CmdBits(cmd) + [Parity(CmdBits(cmd))]);
  }

  lemma DataBits(regs: seq<Register>)
    requires AllValid(regs)
    ensures var dr := AllBits(regs) + [Parity(AllBits(regs))];
            && |dr| == Offset(regs, |regs|) + 1 && multiset(dr)[true] % 2 == 0
            && forall j: nat, i: nat :: j < |regs| && i < regs[j].endBit + 1 - regs[j].startBit ==>
                 InString(dr, Offset(regs, j) + i, Bit(regs[j].value, i))
  {
    hide Bit, Ones, Parity, AllBits, Offset;
    var d := AllBits(regs);
    ParityEvens(d);
    OnesCount(d + [Parity(d)]);
    AllBitsLength(regs);
    forall j: nat, i: nat | j < |regs| && i < regs[j].endBit + 1 - regs[j].startBit
      ensures InString(d + [Parity(d)], Offset(regs, j) + i, Bit(regs[j].value, i))
    {
      SetupString(regs, j, i);
    }
  }

  predicate InString(bits: seq<bool>, k: nat, b: bool) { k < |bits| && bits[k] == b }

  // ---------- when it works without parity ----------

  /** What a caller wants of a command: back in idle, with one instruction and one data update delivered
      that hold all the bits, and their parity if asked for. */
  ghost predicate Delivers(p: Port, cmd: nat, regs: seq<Register>, parity: bool)
    requires AllValid(regs)
  {
    var q, c, d := Clocked(p, CommandSteps(cmd, regs, parity)), CmdBits(cmd), AllBits(regs);
    && q.state == RunTestIdle
    && q.updates == p.updates + [Instruction(c + [Parity(c)])] + [Data(d + if parity then [Parity(d)] else [])]
  }

  /** Registers that have bits. */
  function Busy(regs: seq<Register>): nat
    requires AllValid(regs)
    decreases |regs|
  {
    if regs == [] then 0 else Busy(regs[..|regs| - 1]) + if regs[|regs| - 1].Bits() == [] then 0 else 1
  }

  /** No data update since the k-th, nor what is on the path, is longer than n. */
  ghost predicate AtMost(p: Port, k: nat, n: nat) {
    |p.dr| <= n && forall i: nat :: k <= i < |p.updates| && p.updates[i].Data? ==> |p.updates[i].bits| <= n
  }

  lemma PulseAtMost(p: Port, s: Step, k: nat, n: nat)
    requires AtMost(p, k, n)
    ensures AtMost(Pulse(p, s), k, if p.state == ShiftDR then n + 1 else n)
  {
  }

  lemma {:induction false} ClockedAtMost(p: Port, steps: seq<Step>, k: nat, n: nat)
    requires AtMost(p, k, n)
    ensures AtMost(Clocked(p, steps), k, n + |steps|)
    ensures p.state != ShiftDR && steps != [] ==> AtMost(Clocked(p, steps), k, n + |steps| - 1)
    decreases |steps|
  {
    hide AtMost, Pulse;
    if |steps| == 1 {
      assert steps[..0] == [];
      PulseAtMost(p, steps[0], k, n);
      Weaken(Clocked(p, steps), k, n + 1);
    } else if |steps| > 1 {
      var front, last := steps[..|steps| - 1], steps[|steps| - 1];
      ClockedAtMost(p, front, k, n);
      PulseAtMost(Clocked(p, front), last, k, n + |front|);
      Weaken(Clocked(p, steps), k, n + |steps|);
      if p.state != ShiftDR {
        PulseAtMost(Clocked(p, front), last, k, n + |front| - 1);
        Weaken(Clocked(p, steps), k, n + |front|);
      }
    }
  }

  lemma Weaken(p: Port, k: nat, n: nat)
    ensures n > 0 && AtMost(p, k, n - 1) ==> AtMost(p, k, n)
  {
  }

  /** A register's last bit leaves the shift state. */
  lemma LeavesShift(p: Port, bits: seq<bool>)
    requires bits != []
    ensures Clocked(p, Shifts(bits, true)).state != ShiftDR
  {
    hide Shifts;
    var steps := Shifts(bits, true);
    assert steps[|steps| - 1].tms by { assert Shifts(bits, true)[|bits| - 1] == Step(bits[|bits| - 1], true) by { LastShift(bits); } }
  }

  lemma LastShift(bits: seq<bool>)
    requires bits != []
    ensures Shifts(bits, true)[|bits| - 1] == Step(bits[|bits| - 1], true)
  {
  }

  /** Once a register has been shifted, the controller is no longer shifting when the next one starts, and
      a bit is lost. */
  lemma {:induction false} RegistersLoseBits(p: Port, regs: seq<Register>, k: nat)
    requires AllValid(regs) && p.state == ShiftDR && AtMost(p, k, 0)
    ensures var q := Clocked(p, RegisterSteps(regs, false));
            && AtMost(q, k, |AllBits(regs)|)
            && (Busy(regs) == 0 ==> q == p)
            && (Busy(regs) > 0 ==> q.state != ShiftDR && |AllBits(regs)| > 0)
            && (Busy(regs) > 1 ==> AtMost(q, k, |AllBits(regs)| - 1))
    decreases |regs|
  {
    hide AtMost, Pulse, Shifts;
    if regs != [] {
      var front, last := regs[..|regs| - 1], regs[|regs| - 1].Bits();
      RegistersLoseBits(p, front, k);
      var a, b := RegisterSteps(front, false), Shifts(last, true);
      ClockedConcat(p, a, b);
      var q := Clocked(p, a);
      ClockedAtMost(q, b, k, |AllBits(front)|);
      if last == [] {
        assert b == [];
      } else {
        LeavesShift(q, last);
        if Busy(front) > 1 { ClockedAtMost(q, b, k, |AllBits(front)| - 1); }
      }
    }
  }

  lemma {:induction false} OneRegister(regs: seq<Register>)
    requires AllValid(regs)
    ensures Busy(regs) == 0 ==> AllBits(regs) == [] && RegisterSteps(regs, false) == []
    ensures Busy(regs) == 1 ==> AllBits(regs) != [] && RegisterSteps(regs, false) == Shifts(AllBits(regs), true)
    decreases |regs|
  {
    if regs != [] { OneRegister(regs[..|regs| - 1]); }
  }

  lemma ShiftDrExit(p: Port, bits: seq<bool>)
    requires !p.tck && p.state == ShiftDR && p.dr == [] && Presents(p) && bits != []
    ensures var q := Clocked(p, Shifts(bits, true)); q == p.(state := Exit1DR, dr := bits, tdo := q.tdo)
  {
    hide Clocked;
    var front, last := bits[..|bits| - 1], bits[|bits| - 1];
    assert Shifts(bits, true) == Shifts(front, false) + [Step(last, true)];
    ClockedConcat(p, Shifts(front, false), [Step(last, true)]);
    ShiftDrBits(p, front);
    assert [] + front + [last] == bits;
    ClockedOne(Clocked(p, Shifts(front, false)), Step(last, true));
  }

  /** The end of a command without parity, from the state its data part started in. */
  lemma DataIff(p: Port, regs: seq<Register>)
    requires !p.tck && p.state == ShiftDR && p.dr == [] && Presents(p) && AllValid(regs)
    ensures var q := Clocked(p, RegisterSteps(regs, false) + FINISH);
            q.state == RunTestIdle && q.updates == p.updates + [Data(AllBits(regs))] <==> Busy(regs) == 1
  {
    hide Clocked, AtMost, Presents, RegisterSteps, AllBits, Shifts, Busy;
    var steps, d, k := RegisterSteps(regs, false), AllBits(regs), |p.updates|;
    ClockedConcat(p, steps, FINISH);
    OneRegister(regs);
    assert AtMost(p, k, 0) by { Starts(p); }
    RegistersLoseBits(p, regs, k);
    var q := Clocked(p, steps);
    ClockedTwo(q, FINISH[0], FINISH[1]);
    if Busy(regs) == 1 {
      ShiftDrExit(p, d);
      FinishPath(q);
    } else if Busy(regs) > 1 {
      PulseAtMost(q, FINISH[0], k, |d| - 1);
      PulseAtMost(Pulse(q, FINISH[0]), FINISH[1], k, |d| - 1);
      TooShort(Pulse(Pulse(q, FINISH[0]), FINISH[1]), p.updates, d);
    }
  }

  lemma Starts(p: Port)
    requires p.dr == []
    ensures AtMost(p, |p.updates|, 0)
  {
  }

  lemma TooShort(q: Port, updates: seq<Update>, d: seq<bool>)
    requires d != [] && AtMost(q, |updates|, |d| - 1)
    ensures q.updates != updates + [Data(d)]
  {
    assert (updates + [Data(d)])[|updates|] == Data(d);
  }

  /** A command delivers its registers if and only if it is sent with parity, or exactly one of the
      registers has bits: without parity TMS is raised at the end of every register. */
  lemma CommandDeliversIff(p: Port, cmd: nat, regs: seq<Register>, parity: bool)
    requires !p.tck && p.state == RunTestIdle && AllValid(regs)
    ensures Delivers(p, cmd, regs, parity) <==> parity || Busy(regs) == 1
  {
    hide Clocked, CmdBits, AllBits, Parity, RegisterSteps, Presents, Busy;
    var c, d := CmdBits(cmd), AllBits(regs);
    if parity {
      CommandDelivers(p, cmd, regs);
      assert p.updates + [Instruction(c + [Parity(c)])] + [Data(d + [Parity(d)])] ==
             p.updates + [Instruction(c + [Parity(c)]), Data(d + [Parity(d)])];
    } else {
      var first, second := SELECT_IR + CommandPart(cmd) + SELECT_DR, RegisterSteps(regs, false) + FINISH;
      InstructionDelivered(p, cmd);
      assert CommandSteps(cmd, regs, false) == first + second;
      ClockedConcat(p, first, second);
      DataIff(Clocked(p, first), regs);
      assert d + [] == d;
    }
  }

  // ---------- the reset ----------

  const RESET_WRITES: seq<Pins> :=
    [Pins(true, false, false, false), Pins(false, false, false, false), Pins(false, true, false, false),
     Pins(true, true, false, false), Pins(true, false, false, false)]

  /** Whatever the port was doing, the reset leaves it in Run-Test/Idle without delivering anything. */
  lemma ResetGoesIdle(p: Port)
    ensures var q := WriteAll(p, RESET_WRITES + Transfer(Step(false, false)));
            q.state == RunTestIdle && !q.tck && q.updates == p.updates
  {
    var r := RESET_WRITES;
    assert r[..4] == [r[0], r[1], r[2], r[3]] && r[..4][..3] == [r[0], r[1], r[2]] && r[..4][..3][..2] == [r[0], r[1]];
    assert r[..4][..3][..2][..1] == [r[0]] && [r[0]][..0] == [];
    assert WriteAll(p, [r[0]]) == Write(WriteAll(p, []), r[0]);
    assert WriteAll(p, [r[0], r[1]]) == Write(WriteAll(p, [r[0]]), r[1]);
    assert WriteAll(p, r[..4][..3]) == Write(WriteAll(p, r[..4][..3][..2]), r[2]);
    assert WriteAll(p, r[..4]) == Write(WriteAll(p, r[..4][..3]), r[3]);
    assert WriteAll(p, r) == Write(WriteAll(p, r[..4]), r[4]);
    WriteAllConcat(p, r, Transfer(Step(false, false)));
    TransferIsPulse(WriteAll(p, r), Step(false, false));
  }

  /** A command with reset and parity delivers from whatever state the port was in: these are the very
      register writes of HptdcCommand. */
  lemma CommandFromAnywhere(p: Port, cmd: nat, regs: seq<Register>)
    requires AllValid(regs)
    ensures var q := WriteAll(p, RESET_WRITES + Transfer(Step(false, false)) + Transfers(CommandSteps(cmd, regs, true)));
            var c, d := CmdBits(cmd), AllBits(regs);
            q.state == RunTestIdle && q.updates == p.updates + [Instruction(c + [Parity(c)]), Data(d + [Parity(d)])]
  {
    hide WriteAll, Transfers, Transfer, CommandSteps, CmdBits, AllBits, Parity, Ones, Clocked;
    var reset := RESET_WRITES + Transfer(Step(false, false));
    ResetGoesIdle(p);
    var p1 := WriteAll(p, reset);
    WriteAllConcat(p, reset, Transfers(CommandSteps(cmd, regs, true)));
    TransfersArePulses(p1, CommandSteps(cmd, regs, true));
    CommandDelivers(p1, cmd, regs);
  }

  // ---------- readback ----------

  /** The level on TDO as a function of everything written to the port. */
  type Device = seq<Pins> -> bool

  /** What is read in the course of a list of transfers: once each, with TCK high. */
  function Samples(dev: Device, w: seq<Pins>, steps: seq<Step>): (r: seq<bool>)
    ensures |r| == |steps|
    decreases |steps|
  {
    if steps == [] then [] else
      var front := steps[..|steps| - 1];
      Samples(dev, w, front) + [dev(w + Transfers(front) + Transfer(steps[|steps| - 1])[..2])]
  }

  /** The registers as read back: each value is made of the samples of its own bits, low bit first. */
  function ReadBack(dev: Device, w: seq<Pins>, regs: seq<Register>, parity: bool): (r: seq<Register>)
    requires AllValid(regs)
    ensures |r| == |regs|
    decreases |regs|
  {
    if regs == [] then [] else
      var front, last := regs[..|regs| - 1], regs[|regs| - 1];
      var sampled := Samples(dev, w + Transfers(RegisterSteps(front, parity)), Shifts(last.Bits(), !parity));
      ReadBack(dev, w, front, parity) + [last.(value := FromBits(sampled))]
  }

  /** The device is an IEEE 1149.1 port. */
  ghost predicate IsPort(dev: Device, p: Port) { forall w: seq<Pins> :: dev(w) == WriteAll(p, w).tdo }

  /** The sample after some bits have been shifted is the captured bit as far in. */
  lemma NextSample(p0: Port, dev: Device, w: seq<Pins>, bits: seq<bool>, next: Step)
    requires IsPort(dev, p0)
    requires var p := WriteAll(p0, w); !p.tck && p.state == ShiftDR && Presents(p) && |p.dr| + |bits| < |p.captured|
    ensures var p := WriteAll(p0, w);
            dev(w + Transfers(Shifts(bits, false)) + Transfer(next)[..2]) == p.captured[|p.dr| + |bits|]
  {
    hide WriteAll, Clocked, Transfers, Shifts;
    var p, f := WriteAll(p0, w), Shifts(bits, false);
    ShiftDrBits(p, bits);
    TransfersArePulses(p, f);
    WriteAllConcat(p0, w, Transfers(f));
    WriteAllConcat(p0, w + Transfers(f), Transfer(next)[..2]);
    TransferIsPulse(Clocked(p, f), next);
  }

  lemma {:induction false} SamplesAreCapture(p0: Port, dev: Device, w: seq<Pins>, bits: seq<bool>)
    requires IsPort(dev, p0)
    requires var p := WriteAll(p0, w); !p.tck && p.state == ShiftDR && Presents(p) && |p.dr| + |bits| <= |p.captured|
    ensures var p := WriteAll(p0, w);
            Samples(dev, w, Shifts(bits, false)) == p.captured[|p.dr|..|p.dr| + |bits|]
    decreases |bits|
  {
    hide Rise, Fall, Write, Transfers, Clocked;
    if bits != [] {
      var p := WriteAll(p0, w);
      var front, last := bits[..|bits| - 1], Step(bits[|bits| - 1], false);
      var f := Shifts(front, false);
      assert Shifts(bits, false) == f + [last] && (f + [last])[..|front|] == f;
      SamplesAreCapture(p0, dev, w, front);
      NextSample(p0, dev, w, front, last);
    }
  }

  lemma FromSamples(r: Register, sampled: seq<bool>)
    requires r.Valid() && |sampled| == |r.Bits()|
    ensures r.(value := FromBits(sampled)).Bits() == sampled
  {
    forall i: nat | i < |sampled| ensures r.(value := FromBits(sampled)).Bits()[i] == sampled[i] {
      FromBitsAt(sampled, i);
    }
  }

  lemma AllBitsStep(regs: seq<Register>)
    requires AllValid(regs)
    ensures if regs == [] then AllBits(regs) == []
            else AllBits(regs) == AllBits(regs[..|regs| - 1]) + regs[|regs| - 1].Bits()
  {
  }

  /** One register read back after others. */
  lemma RegisterReadsCapture(p0: Port, dev: Device, w: seq<Pins>, front: seq<Register>, last: Register)
    requires IsPort(dev, p0) && AllValid(front) && last.Valid()
    requires var p := WriteAll(p0, w);
             !p.tck && p.state == ShiftDR && p.dr == [] && Presents(p) && |AllBits(front)| + |last.Bits()| <= |p.captured|
    ensures var sampled := Samples(dev, w + Transfers(RegisterSteps(front, true)), Shifts(last.Bits(), false));
            var n := |AllBits(front)|;
            last.(value := FromBits(sampled)).Bits() == WriteAll(p0, w).captured[n..n + |last.Bits()|]
  {
    hide Transfers, WriteAll, Samples, FromBits, IsPort, ValueBits, Clocked, Presents, Shifts, AllBits, RegisterSteps;
    var p, steps := WriteAll(p0, w), RegisterSteps(front, true);
    var w' := w + Transfers(steps);
    RegistersAreBits(front);
    ShiftDrBits(p, AllBits(front));
    TransfersArePulses(p, steps);
    WriteAllConcat(p0, w, Transfers(steps));
    assert [] + AllBits(front) == AllBits(front);
    SamplesAreCapture(p0, dev, w', last.Bits());
    FromSamples(last, Samples(dev, w', Shifts(last.Bits(), false)));
  }

  /** With parity, the bits of the registers read back are the data register as it was captured, bit for
      bit, for as far as the registers reach. */
  lemma {:induction false} ReadBackIsCapture(p0: Port, dev: Device, w: seq<Pins>, regs: seq<Register>)
    requires IsPort(dev, p0) && AllValid(regs)
    requires var p := WriteAll(p0, w); !p.tck && p.state == ShiftDR && p.dr == [] && Presents(p) && |AllBits(regs)| <= |p.captured|
    ensures var r := ReadBack(dev, w, regs, true);
            AllValid(r) && AllBits(r) == WriteAll(p0, w).captured[..|AllBits(regs)|]
    decreases |regs|
  {
    hide Transfers, WriteAll, Samples, FromBits, IsPort, ValueBits, Presents, AllBits;
    AllBitsStep(regs);
    if regs != [] {
      var p := WriteAll(p0, w);
      var front, last := regs[..|regs| - 1], regs[|regs| - 1];
      ReadBackIsCapture(p0, dev, w, front);
      RegisterReadsCapture(p0, dev, w, front, last);
      var r, rest := ReadBack(dev, w, regs, true), ReadBack(dev, w, front, true);
      var n, m := |AllBits(front)|, |last.Bits()|;
      assert r[..|rest|] == rest;
      AllBitsStep(r);
      assert p.captured[..n] + p.captured[n..n + m] == p.captured[..n + m];
    }
  }

  lemma {:induction false} CapturedStays(p: Port, ws: seq<Pins>)
    ensures WriteAll(p, ws).captured == p.captured
    decreases |ws|
  {
    if ws != [] { CapturedStays(p, ws[..|ws| - 1]); }
  }

  const RESET_ALL: seq<Pins> := RESET_WRITES + Transfer(Step(false, false))

  /** From whatever the port was doing: the registers a command with reset and parity returns hold the
      captured data register. */
  lemma CommandReadsCapture(p0: Port, dev: Device, w: seq<Pins>, cmd: nat, regs: seq<Register>)
    requires IsPort(dev, p0) && AllValid(regs) && |AllBits(regs)| <= |p0.captured|
    ensures var r := ReadBack(dev, w + RESET_ALL + Transfers(SELECT_IR + CommandPart(cmd) + SELECT_DR), regs, true);
            AllValid(r) && AllBits(r) == p0.captured[..|AllBits(regs)|]
  {
    hide WriteAll, Transfers, Clocked, CommandPart, Presents, AllBits, ReadBack, IsPort;
    var first := SELECT_IR + CommandPart(cmd) + SELECT_DR;
    var p1 := WriteAll(p0, w);
    WriteAllConcat(p0, w, RESET_ALL);
    ResetGoesIdle(p1);
    var p2 := WriteAll(p0, w + RESET_ALL);
    InstructionDelivered(p2, cmd);
    TransfersArePulses(p2, first);
    WriteAllConcat(p0, w + RESET_ALL, Transfers(first));
    CapturedStays(p0, w + RESET_ALL + Transfers(first));
    ReadBackIsCapture(p0, dev, w + RESET_ALL + Transfers(first), regs);
  }

  lemma AnyPortReadsCapture(dev: Device, w: seq<Pins>, cmd: nat, regs: seq<Register>)
    requires AllValid(regs)
    ensures var r := ReadBack(dev, w + RESET_ALL + Transfers(SELECT_IR + CommandPart(cmd) + SELECT_DR), regs, true);
            forall p: Port :: IsPort(dev, p) && |AllBits(regs)| <= |p.captured| ==>
              AllValid(r) && AllBits(r) == p.captured[..|AllBits(regs)|]
  {
    hide IsPort, AllBits, ReadBack, Transfers, CommandPart;
    forall p: Port | IsPort(dev, p) && |AllBits(regs)| <= |p.captured|
      ensures var r := ReadBack(dev, w + RESET_ALL + Transfers(SELECT_IR + CommandPart(cmd) + SELECT_DR), regs, true);
              AllValid(r) && AllBits(r) == p.captured[..|AllBits(regs)|]
    {
      CommandReadsCapture(p, dev, w, cmd, regs);
    }
  }

  // ---------- the driver's code ----------

  class Jtag {
    const tdo: Device
    var writes: seq<Pins>

    /** HptdcBitTransfer */
    method BitTransfer(tdi: bool, tms: bool) returns (t: bool)
      modifies this`writes
      ensures writes == old(writes) + Transfer(Step(tdi, tms))
      ensures t == tdo(old(writes) + Transfer(Step(tdi, tms))[..2])
    {
      writes := writes + [Pins(true, false, tdi, tms)];
      writes := writes + [Pins(true, true, tdi, tms)];
      assert writes == old(writes) + Transfer(Step(tdi, tms))[..2];
      t := tdo(writes);
      writes := writes + [Pins(true, false, tdi, tms)];
    }

    /** HptdcStateReset */
    method StateReset()
      modifies this`writes
      ensures writes == old(writes) + RESET_ALL
    {
      writes := writes + [Pins(true, false, false, false)];
      writes := writes + [Pins(false, false, false, false)];
      writes := writes + [Pins(false, true, false, false)];
      writes := writes + [Pins(true, true, false, false)];
      writes := writes + [Pins(true, false, false, false)];
      assert writes == old(writes) + RESET_WRITES;
      var _ := BitTransfer(false, false);
    }

    /** Transfers with TDI low: the moves between the two shifts and around them. */
    method Moves(tms: seq<bool>)
      modifies this`writes
      ensures writes == old(writes) + Transfers(Idle(tms))
    {
      hide Transfer;
      for i := 0 to |tms|
        invariant writes == old(writes) + Transfers(Idle(tms[..i]))
      {
        var _ := BitTransfer(false, tms[i]);
        assert Idle(tms[..i + 1])[..i] == Idle(tms[..i]);
      }
      assert tms[..|tms|] == tms;
    }

    /** The loop over the bits of a value: TDI carries bit i, and TMS is raised on the last bit if asked. */
    method ShiftValue(value: nat, n: nat, exit: bool) returns (sampled: nat, ones: nat)
      modifies this`writes
      ensures var b := ValueBits(value, n);
              && writes == old(writes) + Transfers(Shifts(b, exit))
              && sampled == FromBits(Samples(tdo, old(writes), Shifts(b, exit)))
              && ones == Ones(b)
    {
      hide Transfer, Transfers, Samples, FromBits, And, Or, Pow2, Bit, Ones;
      ghost var b := ValueBits(value, n);
      ghost var steps := Shifts(b, exit);
      Nothing(tdo, writes);
      var i, msk := 0, 1;
      sampled, ones := 0, 0;
      assert b[..0] == [] && steps[..0] == [];
      while i < n
        invariant i <= n && msk == Pow2(i)
        invariant writes == old(writes) + Transfers(steps[..i])
        invariant sampled == FromBits(Samples(tdo, old(writes), steps[..i]))
        invariant ones == Ones(b[..i])
      {
        var tdi := And(value, msk) != 0;
        TestBit(value, i);
        OneMore(tdo, old(writes), steps, b, i);
        var t := BitTransfer(tdi, exit && i == n - 1);
        SetNextBit(Samples(tdo, old(writes), steps[..i]), t);
        sampled := Or(sampled, if t then msk else 0);
        ones := ones + if tdi then 1 else 0;
        msk := 2 * msk;
        i := i + 1;
      }
      assert b[..n] == b && steps[..n] == steps;
    }

    /** The instruction half of HptdcCommand. */
    method SendInstruction(cmd: nat)
      modifies this`writes
      ensures writes == old(writes) + Transfers(SELECT_IR + CommandPart(cmd) + SELECT_DR)
    {
      hide Transfers, Transfer, Shifts, Samples, Ones, FromBits;
      ghost var bits := CmdBits(cmd);
      Moves([true, true, false, false]);
      assert Idle([true, true, false, false]) == SELECT_IR == SELECT_DR;
      var _, ones := ShiftValue(cmd, CMD_BITS, false);
      var _ := BitTransfer(ones % 2 == 1, true);
      Moves([true, true, false, false]);
      OneTransfer(Step(Parity(bits), true));
      TransfersConcat(Shifts(bits, false), [Step(Parity(bits), true)]);
      TransfersConcat(SELECT_IR, CommandPart(cmd));
      TransfersConcat(SELECT_IR + CommandPart(cmd), SELECT_DR);
    }

    /** The loop of HptdcCommand over the registers. */
    method SendRegisters(wreg: seq<Register>, parity: bool) returns (rreg: seq<Register>, ones: nat)
      requires AllValid(wreg)
      modifies this`writes
      ensures writes == old(writes) + Transfers(RegisterSteps(wreg, parity))
      ensures rreg == ReadBack(tdo, old(writes), wreg, parity) && ones == Ones(AllBits(wreg))
    {
      hide Transfers, Transfer, Shifts, Samples, Ones, FromBits, ValueBits;
      Nothing(tdo, writes);
      rreg, ones := [], 0;
      for j := 0 to |wreg|
        invariant writes == old(writes) + Transfers(RegisterSteps(wreg[..j], parity))
        invariant rreg == ReadBack(tdo, old(writes), wreg[..j], parity) && ones == Ones(AllBits(wreg[..j]))
      {
        assert wreg[..j + 1][..j] == wreg[..j];
        var bits := wreg[j].endBit + 1 - wreg[j].startBit;
        TransfersConcat(RegisterSteps(wreg[..j], parity), Shifts(wreg[j].Bits(), !parity));
        OnesConcat(AllBits(wreg[..j]), wreg[j].Bits());
        var rval, n := ShiftValue(wreg[j].value, bits, !parity);
        ones := ones + n;
        rreg := rreg + [Register(rval, wreg[j].endBit, wreg[j].startBit)];
      }
      assert wreg[..|wreg|] == wreg;
    }

    /** HptdcCommand. Nothing is sent if the module does not answer. The registers read back are returned
        only if asked for. */
    method Command(answers: bool, cmd: nat, wreg: seq<Register>, readBack: bool, parity: bool, reset: bool)
      returns (ok: bool, rreg: seq<Register>)
      requires AllValid(wreg)
      modifies this`writes
      ensures ok == answers
      ensures !answers ==> writes == old(writes)
      ensures var start := old(writes) + if reset then RESET_ALL else [];
              answers ==> writes == start + Transfers(CommandSteps(cmd, wreg, parity))
      ensures var start := old(writes) + if reset then RESET_ALL else [];
              rreg == if answers && readBack
                      then ReadBack(tdo, start + Transfers(SELECT_IR + CommandPart(cmd) + SELECT_DR), wreg, parity)
                      else []
      ensures forall p: Port :: answers && readBack && parity && reset && IsPort(tdo, p) && |AllBits(wreg)| <= |p.captured| ==>
                AllValid(rreg) && AllBits(rreg) == p.captured[..|AllBits(wreg)|]
    {
      hide Transfers, Transfer, RegisterSteps, Samples, Ones, CommandPart, ReadBack, AllBits, IsPort, AllValid;
      if !answers {
        return false, [];
      }
      if reset {
        StateReset();
      } else {
        assert writes == old(writes) + [];
      }
      ghost var start := writes;
      SendInstruction(cmd);
      var ones;
      rreg, ones := SendRegisters(wreg, parity);
      Nothing(tdo, []);
      if parity {
        var _ := BitTransfer(ones % 2 == 1, true);
        OneTransfer(Step(ones % 2 == 1, true));
      }
      Moves([true, false]);
      assert Idle([true, false]) == FINISH;
      PartsConcat(cmd, wreg, parity);
      ok := true;
      AnyPortReadsCapture(tdo, old(writes), cmd, wreg);
      if !readBack {
        rreg := [];
      }
    }
  }

  lemma OneTransfer(s: Step)
    ensures Transfers([s]) == Transfer(s)
  {
    assert [s][..0] == [];
  }

  lemma PartsConcat(cmd: nat, regs: seq<Register>, parity: bool)
    requires AllValid(regs)
    ensures var tail := if parity then [Step(Parity(AllBits(regs)), true)] else [];
            Transfers(CommandSteps(cmd, regs, parity)) ==
              Transfers(SELECT_IR + CommandPart(cmd) + SELECT_DR) + Transfers(RegisterSteps(regs, parity)) + Transfers(tail) + Transfers(FINISH)
  {
    hide Transfers, RegisterSteps, CommandPart, AllBits;
    var first := SELECT_IR + CommandPart(cmd) + SELECT_DR;
    var tail := if parity then [Step(Parity(AllBits(regs)), true)] else [];
    TransfersConcat(RegisterSteps(regs, parity), tail);
    TransfersConcat(first, DataPart(regs, parity));
    TransfersConcat(first + DataPart(regs, parity), FINISH);
  }

  function Idle(tms: seq<bool>): seq<Step> { seq(|tms|, i requires 0 <= i < |tms| => Step(false, tms[i])) }

  lemma Nothing(dev: Device, w: seq<Pins>)
    ensures Transfers([]) == [] && Samples(dev, w, []) == [] && FromBits([]) == 0 && Ones([]) == 0 && Pow2(0) == 1
  {
  }

  lemma OneMore(dev: Device, w: seq<Pins>, steps: seq<Step>, b: seq<bool>, i: nat)
    requires i < |steps| && i < |b|
    ensures Transfers(steps[..i + 1]) == Transfers(steps[..i]) + Transfer(steps[i])
    ensures Samples(dev, w, steps[..i + 1]) == Samples(dev, w, steps[..i]) + [dev(w + Transfers(steps[..i]) + Transfer(steps[i])[..2])]
    ensures Ones(b[..i + 1]) == Ones(b[..i]) + if b[i] then 1 else 0
    ensures Pow2(i + 1) == 2 * Pow2(i)
  {
    assert steps[..i + 1][..i] == steps[..i] && b[..i + 1][..i] == b[..i];
  }
}
