/** What the XSVF player puts on the pins: moves between controller states and data shifts, as functions
    of the shadow state it keeps. */
module XsvfPins {
  import opened TapController

  /** The player's numbering of the controller states. */
  function Code(s: Tap): nat {
    match s
    case TestLogicReset => 0 case RunTestIdle => 1
    case SelectDR => 2 case CaptureDR => 3 case ShiftDR => 4 case Exit1DR => 5 case PauseDR => 6 case Exit2DR => 7
    case UpdateDR => 8
    case SelectIR => 9 case CaptureIR => 10 case ShiftIR => 11 case Exit1IR => 12 case PauseIR => 13 case Exit2IR => 14
    case UpdateIR => 15
  }

  const RESET: nat := 0
  const RUNTEST: nat := 1
  const SHIFTDR: nat := 4
  const PAUSEDR: nat := 6
  const EXIT2DR: nat := 7
  const IRSTATES: nat := 9
  const SHIFTIR: nat := 11
  const PAUSEIR: nat := 13
  const EXIT2IR: nat := 14

  /** One turn of the loop of xsvfGotoTapState: the TMS value applied and the next shadow state. */
  function Toward(s: nat, t: nat): (bool, nat)
    requires s < 16
  {
    match s
    case 0 => (false, 1)
    case 1 => (true, 2)
    case 2 => if t >= IRSTATES then (true, 9) else (false, 3)
    case 3 => if t == SHIFTDR then (false, 4) else (true, 5)
    case 4 => (true, 5)
    case 5 => if t == PAUSEDR then (false, 6) else (true, 8)
    case 6 => (true, 7)
    case 7 => if t == SHIFTDR then (false, 4) else (true, 8)
    case 8 => if t == RUNTEST then (false, 1) else (true, 2)
    case 9 => (false, 10)
    case 10 => if t == SHIFTIR then (false, 11) else (true, 12)
    case 11 => (true, 12)
    case 12 => if t == PAUSEIR then (false, 13) else (true, 15)
    case 13 => (true, 14)
    case 14 => if t == SHIFTIR then (false, 11) else (true, 15)
    case _ => if t == RUNTEST then (false, 1) else (true, 2)
  }

  // ---------- the loop terminates ----------

  /** Cycles from Select-DR to t. */
  function FromSelect(t: nat): nat {
    match t
    case 2 => 0 case 3 => 1 case 4 => 2 case 5 => 2 case 6 => 3 case 8 => 3
    case 9 => 1 case 10 => 2 case 11 => 3 case 12 => 3 case 13 => 4 case _ => 4
  }

  /** Cycles from s to Select-DR by the shortest exit. */
  function ToSelect(s: nat): nat {
    match s
    case 0 => 2 case 1 => 1 case 2 => 0 case 3 => 3 case 4 => 3 case 5 => 2 case 6 => 3 case 7 => 2 case 8 => 1
    case 9 => 4 case 10 => 3 case 11 => 3 case 12 => 2 case 13 => 3 case 14 => 2 case _ => 1
  }

  /** Cycles from s to t without leaving the column, or 9 if there is no such way. */
  function InColumn(s: nat, t: nat): nat {
    if s >= IRSTATES && t >= IRSTATES then
      if s == 9 then FromSelect(t) - 1 else if t >= 10 then InDR(s - 7, t - 7) else 9
    else if s < IRSTATES && t < IRSTATES then InDR(s, t)
    else 9
  }

  function InDR(s: nat, t: nat): nat {
    if s == t then 0
    else if s == 3 then (if t == 4 || t == 5 then 1 else if t == 6 || t == 8 then 2 else 9)
    else if s == 4 then (if t == 5 then 1 else if t == 6 || t == 8 then 2 else 9)
    else if s == 5 then (if t == 6 || t == 8 then 1 else 9)
    else if s == 6 then (if t == 7 then 1 else if t == 4 || t == 8 then 2 else 9)
    else if s == 7 then (if t == 4 || t == 8 then 1 else 9)
    else 9
  }

  /** Cycles the loop takes from s to t. */
  function Distance(s: nat, t: nat): nat {
    if s == t then 0
    else if t == RUNTEST then (if s == 0 then 1 else if s == 2 then 4 else ToSelect(s))
    else if InColumn(s, t) < 9 then InColumn(s, t)
    else ToSelect(s) + FromSelect(t)
  }

  /** Targets the loop can be asked for: the exit-2 states only from the matching pause state, or when
      already there. */
  predicate Legal(s: nat, t: nat) {
    t < 16 && t != RESET && (t == EXIT2DR ==> s == PAUSEDR || s == t) && (t == EXIT2IR ==> s == PAUSEIR || s == t)
  }

  lemma TowardIsCloser(s: nat, t: nat)
    requires s < 16 && Legal(s, t) && s != t
    ensures var s' := Toward(s, t).1; s' < 16 && Legal(s', t) && Distance(s', t) < Distance(s, t)
  {
  }

  // ---------- the moves ----------

  /** The TMS values of the loop. */
  function Path(s: nat, t: nat): seq<bool>
    requires s < 16 && Legal(s, t)
    decreases Distance(s, t)
  {
    if s == t then [] else
      TowardIsCloser(s, t);
      var (tms, s') := Toward(s, t);
      [tms] + Path(s', t)
  }

  function Cycles(path: seq<bool>): seq<Event> {
    if path == [] then [] else Cycle(path[0]) + Cycles(path[1..])
  }

  /** Five extra clock pulses with TMS left high. */
  const PULSES: seq<Event> :=
    [TCK(false), TCK(true), TCK(false), TCK(true), TCK(false), TCK(true), TCK(false), TCK(true), TCK(false), TCK(true)]

  predicate IllegalMove(s: nat, t: nat) {
    t != s && ((t == EXIT2DR && s != PAUSEDR) || (t == EXIT2IR && s != PAUSEIR))
  }

  /** xsvfGotoTapState: a pause state asked for from itself is left and entered again. */
  function GotoTrace(s: nat, t: nat): seq<Event>
    requires s < 16 && t < 16
  {
    if t == RESET then Cycle(true) + PULSES
    else if IllegalMove(s, t) then []
    else if s == t && (t == PAUSEDR || t == PAUSEIR) then Cycle(true) + Cycles(Path(s + 1, t))
    else Cycles(Path(s, t))
  }

  function GotoState(s: nat, t: nat): nat { if IllegalMove(s, t) then s else t }

  // ---------- shifts ----------

  /** The events of one bit. */
  function BitTrace(bit: bool, last: bool): seq<Event> {
    (if last then [TMS(true)] else []) + [TDI(bit), TCK(false), TCK(true)]
  }

  /** xsvfShiftOnly: bits in order; with exit, TMS rises for the last one. */
  function ShiftTrace(bits: seq<bool>, exit: bool): seq<Event> {
    if bits == [] then []
    else ShiftTrace(bits[..|bits| - 1], false) + BitTrace(bits[|bits| - 1], exit)
  }

  /** A device answers on TDO depending on everything done to its pins so far. */
  type Device = seq<Event> -> bool

  /** The TDO values sampled while shifting, each between the falling and the rising edge. */
  function TdoBits(dev: Device, trace: seq<Event>, bits: seq<bool>, exit: bool): (r: seq<bool>)
    ensures |r| == |bits|
  {
    if bits == [] then []
    else
      var front := bits[..|bits| - 1];
      var b := BitTrace(bits[|bits| - 1], exit);
      TdoBits(dev, trace, front, false) + [dev(trace + ShiftTrace(front, false) + b[..|b| - 1])]
  }

  /** waitTime: TCK low, then time passes. */
  function WaitTrace(usec: int): seq<Event> { [TCK(false), Wait(usec)] }

  // ---------- the shadow state is the controller's state ----------

  predicate Tracks(c: Chip, s: nat) {
    Code(c.state) == s && (Shifting(c.state) ==> !c.tms)
  }

  /** Whatever the port was doing before, the trace leaves its controller in the shadow state, and ready
      to keep shifting if that is a shift state. */
  ghost predicate Synced(s: nat, trace: seq<Event>) {
    forall c: Chip :: Tracks(Drive(c, trace), s)
  }

  lemma TowardIsTransition(s: Tap, t: nat)
    ensures Code(s) < 16
    ensures var (tms, s') := Toward(Code(s), t);
            Code(Next(s, tms)) == s' && (Shifting(Next(s, tms)) ==> !tms)
  {
  }

  lemma TowardFollowsStandard(c: Chip, t: nat)
    requires Code(c.state) < 16
    ensures var (tms, s') := Toward(Code(c.state), t); Tracks(Drive(c, Cycle(tms)), s')
  {
    TowardIsTransition(c.state, t);
    DriveCycle(c, Toward(Code(c.state), t).0);
  }

  lemma {:induction false} PathFollowsStandard(c: Chip, t: nat)
    requires Tracks(c, Code(c.state)) && Legal(Code(c.state), t)
    ensures Tracks(Drive(c, Cycles(Path(Code(c.state), t))), t)
    decreases Distance(Code(c.state), t)
  {
    var s := Code(c.state);
    if s != t {
      TowardIsCloser(s, t);
      TowardFollowsStandard(c, t);
      var (tms, s') := Toward(s, t);
      var d := Drive(c, Cycle(tms));
      PathFollowsStandard(d, t);
      assert Path(s, t)[1..] == Path(s', t);
      DriveConcat(c, Cycle(tms), Cycles(Path(s', t)));
    }
  }

  lemma {:induction false} ResetFollowsStandard(c: Chip)
    ensures Tracks(Drive(c, Cycle(true) + PULSES), RESET)
  {
    DriveCycle(c, true);
    var c1 := Drive(c, Cycle(true));
    DriveConcat(c, Cycle(true), PULSES);
    var p := [TCK(false), TCK(true)];
    PulseHigh(c1);
    var c2 := Drive(c1, p);
    PulseHigh(c2);
    var c3 := Drive(c2, p);
    PulseHigh(c3);
    var c4 := Drive(c3, p);
    PulseHigh(c4);
    var c5 := Drive(c4, p);
    PulseHigh(c5);
    var c6 := Drive(c5, p);
    DriveConcat(c1, p, p);
    DriveConcat(c1, p + p, p);
    DriveConcat(c1, p + p + p, p);
    DriveConcat(c1, p + p + p + p, p);
    assert PULSES == p + p + p + p + p;
    FiveOnesReset(c.state);
  }

  lemma PulseHigh(c: Chip)
    requires c.tms
    ensures var d := Drive(c, [TCK(false), TCK(true)]); d.state == Next(c.state, true) && d.tms
  {
    var t := [TCK(false), TCK(true)];
    assert t[1..] == [TCK(true)] && t[1..][1..] == [];
    assert Drive(c, t) == Drive(Apply(c, t[0]), t[1..]) == Drive(Apply(Apply(c, t[0]), t[1]), t[1..][1..]);
  }

  lemma GotoFollowsStandard(c: Chip, s: nat, t: nat)
    requires s < 16 && t < 16 && (t == RESET || Tracks(c, s))
    ensures Tracks(Drive(c, GotoTrace(s, t)), GotoState(s, t))
  {
    if t == RESET {
      ResetFollowsStandard(c);
    } else if !IllegalMove(s, t) {
      if s == t && (t == PAUSEDR || t == PAUSEIR) {
        DriveCycle(c, true);
        PathFollowsStandard(Drive(c, Cycle(true)), t);
        DriveConcat(c, Cycle(true), Cycles(Path(s + 1, t)));
      } else {
        PathFollowsStandard(c, t);
      }
    }
  }

  /** The chain after shifting: the register is a queue fed from TDI. */
  function Through(chain: seq<bool>, bits: seq<bool>): seq<bool> {
    if bits == [] then chain else Shifted(Through(chain, bits[..|bits| - 1]), bits[|bits| - 1])
  }

  lemma DriveBit(c: Chip, bit: bool, last: bool)
    requires Shifting(c.state) && !c.tms
    ensures var d := Drive(c, BitTrace(bit, last));
            && d.state == Next(c.state, last) && d.tms == last
            && d.chain == Shifted(c.chain, bit)
    ensures var b := BitTrace(bit, last); Drive(c, b[..|b| - 1]).chain == c.chain && Drive(c, b[..|b| - 1]).state == c.state
  {
    var c1 := if last then Apply(c, TMS(true)) else c;
    var p := [TDI(bit), TCK(false)];
    var t := p + [TCK(true)];
    assert p[1..] == [TCK(false)] && p[1..][1..] == [];
    var c2 := Apply(c1, TDI(bit));
    var c3 := Apply(c2, TCK(false));
    assert Drive(c1, p) == Drive(c2, p[1..]) == Drive(c3, p[1..][1..]) == c3;
    DriveConcat(c1, p, [TCK(true)]);
    assert [TCK(true)][1..] == [];
    assert Drive(c3, [TCK(true)]) == Drive(Apply(c3, TCK(true)), []) == Apply(c3, TCK(true));
    var b := BitTrace(bit, last);
    assert t == [TDI(bit), TCK(false), TCK(true)];
    if last {
      assert [TMS(true)][1..] == [];
      assert Drive(c, [TMS(true)]) == Drive(c1, []) == c1;
      DriveConcat(c, [TMS(true)], t);
      DriveConcat(c, [TMS(true)], p);
      assert b == [TMS(true)] + t && b[..|b| - 1] == [TMS(true)] + p;
    } else {
      assert b == t && b[..|b| - 1] == p;
    }
  }

  lemma {:induction false} DriveShift(c: Chip, bits: seq<bool>, exit: bool)
    requires Shifting(c.state) && !c.tms
    ensures var d := Drive(c, ShiftTrace(bits, exit));
            && d.chain == Through(c.chain, bits)
            && (if exit && bits != [] then d.state == Next(c.state, true) && d.tms else d.state == c.state && !d.tms)
    decreases |bits|
  {
    if bits != [] {
      var n := |bits| - 1;
      DriveShift(c, bits[..n], false);
      var m := Drive(c, ShiftTrace(bits[..n], false));
      DriveBit(m, bits[n], exit);
      DriveConcat(c, ShiftTrace(bits[..n], false), BitTrace(bits[n], exit));
    }
  }

  lemma DriveWait(c: Chip, usec: int)
    ensures var d := Drive(c, WaitTrace(usec)); d.state == c.state && d.tms == c.tms
  {
    var t := WaitTrace(usec);
    assert t[1..] == [Wait(usec)] && t[1..][1..] == [];
    assert Drive(c, t) == Drive(Apply(c, t[0]), t[1..]) == Drive(Apply(Apply(c, t[0]), t[1]), t[1..][1..]);
  }

  // The three ways the player extends its trace keep it synchronised.

  lemma GotoSynced(s: nat, t: nat, trace: seq<Event>)
    requires s < 16 && t < 16 && (t == RESET || Synced(s, trace))
    ensures GotoState(s, t) < 16 && Synced(GotoState(s, t), trace + GotoTrace(s, t))
  {
    forall c: Chip ensures Tracks(Drive(c, trace + GotoTrace(s, t)), GotoState(s, t)) {
      DriveConcat(c, trace, GotoTrace(s, t));
      GotoFollowsStandard(Drive(c, trace), s, t);
    }
  }

  lemma ShiftSynced(s: nat, bits: seq<bool>, exit: bool, trace: seq<Event>)
    requires (s == SHIFTDR || s == SHIFTIR) && Synced(s, trace) && bits != []
    ensures Synced(if exit then s + 1 else s, trace + ShiftTrace(bits, exit))
  {
    forall c: Chip ensures Tracks(Drive(c, trace + ShiftTrace(bits, exit)), if exit then s + 1 else s) {
      DriveConcat(c, trace, ShiftTrace(bits, exit));
      DriveShift(Drive(c, trace), bits, exit);
    }
  }

  lemma WaitSynced(s: nat, usec: int, trace: seq<Event>)
    requires Synced(s, trace)
    ensures Synced(s, trace + WaitTrace(usec))
  {
    forall c: Chip ensures Tracks(Drive(c, trace + WaitTrace(usec)), s) {
      DriveConcat(c, trace, WaitTrace(usec));
      DriveWait(Drive(c, trace), usec);
    }
  }
}
