/** The port seen from its other end: the bits a controller clocks through its scan paths, what the device
    answers to each, and the time that passes in each controller state. */
module XsvfSeen {
  import opened TapController
  import opened XsvfPins

  datatype Mark = Clocked(state: Tap, tdi: bool, tdo: bool) | Waited(state: Tap, tck: bool, usec: int)

  /** A bit is clocked on a rising edge in a shift state. `done` is all that happened on the port before. */
  function MarkOf(dev: Device, c: Chip, done: seq<Event>, e: Event): seq<Mark> {
    match e
    case TCK(b) => if b && !c.tck && Shifting(c.state) then [Clocked(c.state, c.tdi, dev(done))] else []
    case Wait(usec) => [Waited(c.state, c.tck, usec)]
    case _ => []
  }

  function SeenFrom(dev: Device, c: Chip, done: seq<Event>, rest: seq<Event>): seq<Mark>
    decreases |rest|
  {
    if rest == [] then [] else MarkOf(dev, c, done, rest[0]) + SeenFrom(dev, Apply(c, rest[0]), done + [rest[0]], rest[1..])
  }

  function Seen(dev: Device, c: Chip, trace: seq<Event>): seq<Mark> { SeenFrom(dev, c, [], trace) }

  lemma {:induction false} SeenConcat(dev: Device, c: Chip, done: seq<Event>, a: seq<Event>, b: seq<Event>)
    ensures SeenFrom(dev, c, done, a + b) == SeenFrom(dev, c, done, a) + SeenFrom(dev, Drive(c, a), done + a, b)
    decreases |a|
  {
    if a == [] {
      assert a + b == b && done + a == done;
    } else {
      assert (a + b)[1..] == a[1..] + b && (a + b)[0] == a[0];
      SeenConcat(dev, Apply(c, a[0]), done + [a[0]], a[1..], b);
      assert done + [a[0]] + a[1..] == done + a;
    }
  }

  /** One more event. */
  lemma SeenMore(dev: Device, c: Chip, done: seq<Event>, a: seq<Event>, e: Event)
    ensures SeenFrom(dev, c, done, a + [e]) == SeenFrom(dev, c, done, a) + MarkOf(dev, Drive(c, a), done + a, e)
    ensures Drive(c, a + [e]) == Apply(Drive(c, a), e)
  {
    SeenConcat(dev, c, done, a, [e]);
    DriveConcat(c, a, [e]);
    assert [e][1..] == [];
    var d := Drive(c, a);
    assert Drive(d, [e]) == Drive(Apply(d, e), []);
    assert SeenFrom(dev, d, done + a, [e]) == MarkOf(dev, d, done + a, e) + SeenFrom(dev, Apply(d, e), done + a + [e], []);
  }

  // ---------- moves ----------

  /** The bit clocked by the edge that leaves a shift state. */
  function Edge(dev: Device, c: Chip, done: seq<Event>): seq<Mark> {
    if Shifting(c.state) then [Clocked(c.state, c.tdi, dev(done + [TMS(true), TCK(false)]))] else []
  }

  lemma SeenCycle(dev: Device, c: Chip, done: seq<Event>, tms: bool)
    requires Shifting(c.state) ==> tms
    ensures SeenFrom(dev, c, done, Cycle(tms)) == Edge(dev, c, done)
    ensures Drive(c, Cycle(tms)).tdi == c.tdi
  {
    SeenMore(dev, c, done, [], TMS(tms));
    SeenMore(dev, c, done, [TMS(tms)], TCK(false));
    SeenMore(dev, c, done, [TMS(tms), TCK(false)], TCK(true));
    assert [] + [TMS(tms)] == [TMS(tms)] && [TMS(tms)] + [TCK(false)] == [TMS(tms), TCK(false)];
    assert [TMS(tms), TCK(false)] + [TCK(true)] == Cycle(tms);
  }

  /** The loop passes through no shift state but its target. */
  lemma ShiftOnlyAsTarget(s: nat, t: nat)
    requires s < 16 && Legal(s, t) && s != t
    ensures var (tms, s') := Toward(s, t);
            && (s == SHIFTDR || s == SHIFTIR ==> tms)
            && (s' == SHIFTDR || s' == SHIFTIR ==> s' == t)
  {
  }

  lemma {:induction false} SeenPath(dev: Device, c: Chip, done: seq<Event>, t: nat)
    requires Tracks(c, Code(c.state)) && Legal(Code(c.state), t)
    ensures var p := Cycles(Path(Code(c.state), t));
            && SeenFrom(dev, c, done, p) == (if Code(c.state) == t then [] else Edge(dev, c, done))
            && Drive(c, p).tdi == c.tdi
    decreases Distance(Code(c.state), t)
  {
    hide Edge, SeenFrom, Drive, Cycle, Toward, Distance;
    var s := Code(c.state);
    SeenNothing(dev, c, done);
    if s != t {
      TowardIsCloser(s, t);
      TowardFollowsStandard(c, t);
      ShiftOnlyAsTarget(s, t);
      var (tms, s') := Toward(s, t);
      SeenCycle(dev, c, done, tms);
      var d := Drive(c, Cycle(tms));
      SeenPath(dev, d, done + Cycle(tms), t);
      NotShifting(dev, d, done + Cycle(tms), s', t);
      assert Path(s, t)[1..] == Path(s', t);
      DriveConcat(c, Cycle(tms), Cycles(Path(s', t)));
      SeenConcat(dev, c, done, Cycle(tms), Cycles(Path(s', t)));
    }
  }

  lemma NotShifting(dev: Device, d: Chip, done: seq<Event>, s: nat, t: nat)
    requires Code(d.state) == s && (s == SHIFTDR || s == SHIFTIR ==> s == t)
    ensures s != t ==> Edge(dev, d, done) == []
  {
  }

  lemma SeenPulse(dev: Device, c: Chip, done: seq<Event>)
    requires c.tms && !Shifting(c.state)
    ensures var p := [TCK(false), TCK(true)];
            && SeenFrom(dev, c, done, p) == []
            && Drive(c, p).tdi == c.tdi && Drive(c, p).tms && !Shifting(Drive(c, p).state)
  {
    hide SeenFrom, Drive;
    SeenNothing(dev, c, done);
    SeenMore(dev, c, done, [], TCK(false));
    SeenMore(dev, c, done, [TCK(false)], TCK(true));
    assert [] + [TCK(false)] == [TCK(false)] && [TCK(false)] + [TCK(true)] == [TCK(false), TCK(true)];
  }

  /** n pulses. */
  function Pulses(n: nat): seq<Event> { if n == 0 then [] else [TCK(false), TCK(true)] + Pulses(n - 1) }

  lemma {:induction false} SeenPulses(dev: Device, c: Chip, done: seq<Event>, n: nat)
    requires c.tms && !Shifting(c.state)
    ensures SeenFrom(dev, c, done, Pulses(n)) == [] && Drive(c, Pulses(n)).tdi == c.tdi
    decreases n
  {
    if n > 0 {
      var p := [TCK(false), TCK(true)];
      SeenPulse(dev, c, done);
      SeenPulses(dev, Drive(c, p), done + p, n - 1);
      SeenConcat(dev, c, done, p, Pulses(n - 1));
      DriveConcat(c, p, Pulses(n - 1));
    }
  }

  lemma SeenReset(dev: Device, c: Chip, done: seq<Event>)
    ensures SeenFrom(dev, c, done, Cycle(true) + PULSES) == Edge(dev, c, done)
    ensures Drive(c, Cycle(true) + PULSES).tdi == c.tdi
  {
    SeenCycle(dev, c, done, true);
    DriveCycle(c, true);
    var d := Drive(c, Cycle(true));
    assert PULSES == Pulses(5);
    SeenPulses(dev, d, done + Cycle(true), 5);
    SeenConcat(dev, c, done, Cycle(true), PULSES);
    DriveConcat(c, Cycle(true), PULSES);
  }

  /** A move clocks one bit if it leaves a shift state, and none otherwise. */
  lemma SeenGoto(dev: Device, c: Chip, done: seq<Event>, s: nat, t: nat)
    requires s < 16 && t < 16 && Tracks(c, s)
    ensures SeenFrom(dev, c, done, GotoTrace(s, t)) == if GotoState(s, t) == s then [] else Edge(dev, c, done)
    ensures Drive(c, GotoTrace(s, t)).tdi == c.tdi
  {
    hide Path, Cycles, SeenFrom, Drive, Cycle;
    SeenNothing(dev, c, done);
    if t == RESET {
      SeenReset(dev, c, done);
    } else if !IllegalMove(s, t) {
      if s == t && (t == PAUSEDR || t == PAUSEIR) {
        SeenPauseAgain(dev, c, done, t);
      } else {
        SeenPath(dev, c, done, t);
      }
    }
  }

  lemma SeenPauseAgain(dev: Device, c: Chip, done: seq<Event>, t: nat)
    requires (t == PAUSEDR || t == PAUSEIR) && Tracks(c, t)
    ensures SeenFrom(dev, c, done, GotoTrace(t, t)) == [] && Drive(c, GotoTrace(t, t)).tdi == c.tdi
  {
    hide Path, Cycles, SeenFrom, Drive, Cycle;
    SeenCycle(dev, c, done, true);
    DriveCycle(c, true);
    var d := Drive(c, Cycle(true));
    SeenPath(dev, d, done + Cycle(true), t);
    SeenConcat(dev, c, done, Cycle(true), Cycles(Path(t + 1, t)));
    DriveConcat(c, Cycle(true), Cycles(Path(t + 1, t)));
  }

  // ---------- shifts and waits ----------

  /** Bits clocked in one state. */
  function Marks(state: Tap, bits: seq<bool>, tdo: seq<bool>): (r: seq<Mark>)
    requires |tdo| == |bits|
    ensures |r| == |bits|
  {
    seq(|bits|, i requires 0 <= i < |bits| => Clocked(state, bits[i], tdo[i]))
  }

  lemma SeenBit(dev: Device, c: Chip, done: seq<Event>, bit: bool, last: bool)
    requires Shifting(c.state) && !c.tms
    ensures var b := BitTrace(bit, last);
            && SeenFrom(dev, c, done, b) == [Clocked(c.state, bit, dev(done + b[..|b| - 1]))]
            && Drive(c, b).tdi == bit
  {
    var a := if last then [TMS(true)] else [];
    assert SeenFrom(dev, c, done, a) == [] && Drive(c, a) == c.(tms := last) by {
      if last {
        SeenMore(dev, c, done, [], TMS(true));
        assert [] + [TMS(true)] == a;
      }
    }
    SeenMore(dev, c, done, a, TDI(bit));
    SeenMore(dev, c, done, a + [TDI(bit)], TCK(false));
    var p := a + [TDI(bit)] + [TCK(false)];
    SeenMore(dev, c, done, p, TCK(true));
    var b := BitTrace(bit, last);
    assert p + [TCK(true)] == b && b[..|b| - 1] == p;
  }

  lemma SeenNothing(dev: Device, c: Chip, done: seq<Event>)
    ensures SeenFrom(dev, c, done, []) == [] && Drive(c, []) == c
  {
  }

  lemma {:induction false} SeenShift(dev: Device, c: Chip, done: seq<Event>, bits: seq<bool>, exit: bool)
    requires Shifting(c.state) && !c.tms
    ensures SeenFrom(dev, c, done, ShiftTrace(bits, exit)) == Marks(c.state, bits, TdoBits(dev, done, bits, exit))
    ensures bits != [] ==> Drive(c, ShiftTrace(bits, exit)).tdi == bits[|bits| - 1]
    decreases |bits|
  {
    hide BitTrace, SeenFrom, Drive, Next;
    if bits == [] {
      SeenNothing(dev, c, done);
    } else {
      var front, last := bits[..|bits| - 1], bits[|bits| - 1];
      SeenShift(dev, c, done, front, false);
      DriveShift(c, front, false);
      var t := ShiftTrace(front, false);
      SeenBit(dev, Drive(c, t), done + t, last, exit);
      SeenConcat(dev, c, done, t, BitTrace(last, exit));
      DriveConcat(c, t, BitTrace(last, exit));
    }
  }

  lemma SeenWait(dev: Device, c: Chip, done: seq<Event>, usec: int)
    ensures SeenFrom(dev, c, done, WaitTrace(usec)) == [Waited(c.state, false, usec)]
    ensures Drive(c, WaitTrace(usec)).tdi == c.tdi
  {
    SeenMore(dev, c, done, [], TCK(false));
    SeenMore(dev, c, done, [TCK(false)], Wait(usec));
    assert [] + [TCK(false)] == [TCK(false)] && [TCK(false)] + [Wait(usec)] == WaitTrace(usec);
  }

  // ---------- what the player adds to its trace ----------

  lemma MoveOn(dev: Device, chip: Chip, trace: seq<Event>, s: nat, t: nat)
    requires s < 16 && t < 16 && Tracks(Drive(chip, trace), s)
    ensures var c, d := Drive(chip, trace), Drive(chip, trace + GotoTrace(s, t));
            && GotoState(s, t) < 16 && Tracks(d, GotoState(s, t)) && d.tdi == c.tdi
            && Seen(dev, chip, trace + GotoTrace(s, t)) ==
               Seen(dev, chip, trace) + if GotoState(s, t) == s then [] else Edge(dev, c, trace)
  {
    hide GotoTrace, Edge;
    var c := Drive(chip, trace);
    GotoFollowsStandard(c, s, t);
    DriveConcat(chip, trace, GotoTrace(s, t));
    SeenConcat(dev, chip, [], trace, GotoTrace(s, t));
    assert [] + trace == trace;
    SeenGoto(dev, c, trace, s, t);
  }

  function ShiftState(s: nat): Tap { if s == SHIFTDR then ShiftDR else ShiftIR }

  lemma ShiftOn(dev: Device, chip: Chip, trace: seq<Event>, s: nat, bits: seq<bool>, exit: bool)
    requires (s == SHIFTDR || s == SHIFTIR) && bits != [] && Tracks(Drive(chip, trace), s)
    ensures var d := Drive(chip, trace + ShiftTrace(bits, exit));
            && Tracks(d, if exit then s + 1 else s) && d.tdi == bits[|bits| - 1]
            && Seen(dev, chip, trace + ShiftTrace(bits, exit)) ==
               Seen(dev, chip, trace) + Marks(ShiftState(s), bits, TdoBits(dev, trace, bits, exit))
  {
    hide ShiftTrace, TdoBits, SeenFrom, Drive;
    var c := Drive(chip, trace);
    DriveShift(c, bits, exit);
    DriveConcat(chip, trace, ShiftTrace(bits, exit));
    SeenConcat(dev, chip, [], trace, ShiftTrace(bits, exit));
    assert [] + trace == trace;
    SeenShift(dev, c, trace, bits, exit);
  }

  lemma WaitOn(dev: Device, chip: Chip, trace: seq<Event>, s: nat, usec: int)
    requires Tracks(Drive(chip, trace), s)
    ensures var c, d := Drive(chip, trace), Drive(chip, trace + WaitTrace(usec));
            && Tracks(d, s) && d.state == c.state && d.tdi == c.tdi
            && Seen(dev, chip, trace + WaitTrace(usec)) == Seen(dev, chip, trace) + [Waited(c.state, false, usec)]
  {
    hide WaitTrace;
    var c := Drive(chip, trace);
    DriveWait(c, usec);
    DriveConcat(chip, trace, WaitTrace(usec));
    SeenConcat(dev, chip, [], trace, WaitTrace(usec));
    assert [] + trace == trace;
    SeenWait(dev, c, trace, usec);
  }
}
