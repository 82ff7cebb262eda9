/** The test access port controller of clause 6 of IEEE Std 1149.1-2001, seen from its pins, with a scan
    chain of shift-register cells between TDI and TDO. */
module TapController {

  datatype Tap =
    | TestLogicReset | RunTestIdle
    | SelectDR | CaptureDR | ShiftDR | Exit1DR | PauseDR | Exit2DR | UpdateDR
    | SelectIR | CaptureIR | ShiftIR | Exit1IR | PauseIR | Exit2IR | UpdateIR

  /** The state diagram: TMS is sampled on each rising edge of TCK. */
  function Next(s: Tap, tms: bool): Tap {
    match s
    case TestLogicReset => if tms then TestLogicReset else RunTestIdle
    case RunTestIdle => if tms then SelectDR else RunTestIdle
    case SelectDR => if tms then SelectIR else CaptureDR
    case CaptureDR => if tms then Exit1DR else ShiftDR
    case ShiftDR => if tms then Exit1DR else ShiftDR
    case Exit1DR => if tms then UpdateDR else PauseDR
    case PauseDR => if tms then Exit2DR else PauseDR
    case Exit2DR => if tms then UpdateDR else ShiftDR
    case UpdateDR => if tms then SelectDR else RunTestIdle
    case SelectIR => if tms then TestLogicReset else CaptureIR
    case CaptureIR => if tms then Exit1IR else ShiftIR
    case ShiftIR => if tms then Exit1IR else ShiftIR
    case Exit1IR => if tms then UpdateIR else PauseIR
    case PauseIR => if tms then Exit2IR else PauseIR
    case Exit2IR => if tms then UpdateIR else ShiftIR
    case UpdateIR => if tms then SelectDR else RunTestIdle
  }

  /** What a host does to the port. A wait leaves the pins alone. */
  datatype Event = TMS(bit: bool) | TDI(bit: bool) | TCK(bit: bool) | Wait(usec: int)

  /** The controller, the levels on its input pins, and the selected scan chain: cell 0 is next to TDO.
      The chain moves by one cell on a rising edge in a shift state. */
  datatype Chip = Chip(state: Tap, tms: bool, tdi: bool, tck: bool, chain: seq<bool>)

  function Shifted(chain: seq<bool>, tdi: bool): seq<bool> {
    if chain == [] then [] else chain[1..] + [tdi]
  }

  predicate Shifting(s: Tap) { s == ShiftDR || s == ShiftIR }

  function Apply(c: Chip, e: Event): Chip {
    match e
    case TMS(b) => c.(tms := b)
    case TDI(b) => c.(tdi := b)
    case TCK(b) =>
      if b && !c.tck then
        c.(tck := true, state := Next(c.state, c.tms),
           chain := if Shifting(c.state) then Shifted(c.chain, c.tdi) else c.chain)
      else c.(tck := b)
    case Wait(_) => c
  }

  function Drive(c: Chip, trace: seq<Event>): Chip
    decreases |trace|
  {
    if trace == [] then c else Drive(Apply(c, trace[0]), trace[1..])
  }

  lemma {:induction false} DriveConcat(c: Chip, a: seq<Event>, b: seq<Event>)
    ensures Drive(c, a + b) == Drive(Drive(c, a), b)
    decreases |a|
  {
    if a == [] {
      assert a + b == b;
    } else {
      assert (a + b)[1..] == a[1..] + b;
      DriveConcat(Apply(c, a[0]), a[1..], b);
    }
  }

  /** One TCK cycle with a chosen TMS. */
  function Cycle(tms: bool): seq<Event> { [TMS(tms), TCK(false), TCK(true)] }

  lemma DriveCycle(c: Chip, tms: bool)
    ensures var d := Drive(c, Cycle(tms)); d.state == Next(c.state, tms) && d.tms == tms
  {
    var t := Cycle(tms);
    assert t[1..] == [TCK(false), TCK(true)] && t[1..][1..] == [TCK(true)] && t[1..][1..][1..] == [];
    var a := Apply(c, t[0]);
    var b := Apply(a, t[1]);
    assert Drive(c, t) == Drive(a, t[1..]) == Drive(b, t[1..][1..]) == Drive(Apply(b, t[2]), t[1..][1..][1..]);
  }

  /** The standard's synchronising sequence: five cycles with TMS high reach Test-Logic-Reset from
      anywhere. */
  lemma FiveOnesReset(s: Tap)
    ensures Next(Next(Next(Next(Next(s, true), true), true), true), true) == TestLogicReset
  {
  }
}
