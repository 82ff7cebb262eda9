/** What the data shifts of the XSVF player amount to. */
module XsvfShifts {
  import opened Bits
  import opened LenVal
  import opened Longs
  import opened TapController
  import opened XsvfPins
  import opened Xsvf

  // ---------- bounded retry ----------

  ghost predicate NeverShorter(waits: seq<int>, least: int) {
    && (forall i :: 0 <= i < |waits| ==> least <= waits[i])
    && (forall i, j :: 0 <= i < j < |waits| ==> waits[i] <= waits[j])
  }

  /** The turn makes another try after a longer wait. */
  ghost predicate Retries(env: Env, job: Job, trace: seq<Event>, tap: nat, runTest: int, repeat: nat)
    requires job.Valid() && job.bits != [] && tap < 16
  {
    job.Exits() && OneTurn(env, job, trace, tap, runTest, repeat).mismatch && runTest != 0 && repeat < job.maxRepeat
  }

  /** Where a turn of the loop ends, and how long it waits. */
  lemma TurnEnds(env: Env, job: Job, trace: seq<Event>, tap: nat, runTest: int, repeat: nat)
    requires job.Valid() && job.bits != [] && tap < 16 && IsLong(env.long, runTest)
    ensures var u := OneTurn(env, job, trace, tap, runTest, repeat);
            && u.runTest == (if Retries(env, job, trace, tap, runTest, repeat) then Longer(env.long, runTest) else runTest)
            && IsLong(env.long, u.runTest) && (u.runTest == 0 <==> runTest == 0)
            && u.waits == (if job.Exits() && runTest != 0 then [u.runTest] else [])
            && u.tap == if !job.Exits() then job.start else if runTest != 0 then RUNTEST
                        else GotoState(job.start + 1, job.endState)
  {
    hide Matches, PackBits, TdoBits, GotoTrace, ShiftTrace, Longer, IsLong;
    LongerIs(env.long, runTest);
  }

  /** What the retries from a given turn on satisfy. */
  ghost predicate Retried(o: Outcome, job: Job, w: Width, runTest: int, left: int) {
    && 1 <= |o.matched| <= left + 1
    && (forall i :: 0 <= i < |o.matched| - 1 ==> !o.matched[i])
    && (o.Failed() ==> |o.matched| == left + 1)
    && (!job.Exits() || runTest == 0 ==> o.waits == [])
    && (job.Exits() && runTest >= 0 ==> (NeverShorter(o.waits, runTest) <==> Grown(runTest, |o.matched| - 1) < Half(w)))
    && o.tap == if !job.Exits() then job.start else if runTest != 0 then RUNTEST
                else GotoState(job.start + 1, job.endState)
  }

  /** A wait in front of others keeps them from shortening exactly if it is no shorter than the least, and
      they are no shorter than it. */
  lemma WaitBefore(least: int, first: int, waits: seq<int>)
    ensures NeverShorter([first] + waits, least) <==> least <= first && NeverShorter(waits, first)
  {
    var all := [first] + waits;
    if NeverShorter(all, least) {
      assert least <= all[0];
      forall i | 0 <= i < |waits| ensures first <= waits[i] { assert all[0] <= all[i + 1]; }
      forall i, j | 0 <= i < j < |waits| ensures waits[i] <= waits[j] { assert all[i + 1] <= all[j + 1]; }
    }
  }

  lemma OneMore(rest: Outcome, job: Job, w: Width, runTest: int, runTest': int, left: int, waits: seq<int>)
    requires IsLong(w, runTest) && runTest' == (if job.Exits() then Longer(w, runTest) else runTest)
    requires Retried(rest, job, w, runTest', left - 1)
    requires waits == if job.Exits() && runTest != 0 then [runTest'] else []
    ensures Retried(rest.(matched := [false] + rest.matched, waits := waits + rest.waits), job, w, runTest, left)
  {
    hide NeverShorter, Longer, IsLong, Half;
    LongerIs(w, runTest);
    var m := |rest.matched|;
    assert [] + rest.waits == rest.waits;
    if job.Exits() && runTest == 0 {
      GrownGrows(0, m);
      GrownGrows(0, m - 1);
    } else if job.Exits() && runTest > 0 {
      WaitBefore(runTest, runTest', rest.waits);
      assert Grown(runTest, m) == Grown(runTest + runTest / 4, m - 1);
      GrownGrows(runTest + runTest / 4, m - 1);
    }
  }

  lemma {:induction false} RetriesFrom(env: Env, job: Job, trace: seq<Event>, tap: nat, runTest: int, repeat: nat)
    requires job.Valid() && job.bits != [] && tap < 16 && repeat <= job.maxRepeat && IsLong(env.long, runTest)
    ensures Retried(Attempts(env, job, trace, tap, runTest, repeat), job, env.long, runTest, job.maxRepeat - repeat)
    decreases job.maxRepeat - repeat
  {
    hide OneTurn, Retried, Longer, IsLong;
    TurnEnds(env, job, trace, tap, runTest, repeat);
    LongerZero(env.long);
    var u := OneTurn(env, job, trace, tap, runTest, repeat);
    if u.mismatch && repeat < job.maxRepeat {
      RetriesFrom(env, job, u.trace, u.tap, u.runTest, repeat + 1);
      var rest := Attempts(env, job, u.trace, u.tap, u.runTest, repeat + 1);
      OneMore(rest, job, env.long, runTest, u.runTest, job.maxRepeat - repeat, u.waits);
    } else {
      LastTurn(job, u, env.long, runTest, job.maxRepeat - repeat);
    }
  }

  lemma LongerZero(w: Width)
    ensures Longer(w, 0) == 0
  {
    SmallIsLong(w, 0);
  }

  lemma LastTurn(job: Job, u: Turn, w: Width, runTest: int, left: nat)
    requires u.mismatch ==> left == 0
    requires u.runTest == runTest && IsLong(w, runTest) && u.waits == (if job.Exits() && runTest != 0 then [u.runTest] else [])
    requires u.tap == if !job.Exits() then job.start else if runTest != 0 then RUNTEST
                      else GotoState(job.start + 1, job.endState)
    ensures Retried(Outcome(u.trace, u.tap, u.captured, [!u.mismatch], u.waits), job, w, runTest, left)
  {
  }

  /** xsvfShift makes at most ucMaxRepeat + 1 shifts and stops at the first that matches under the mask;
      it succeeds iff some shift matched, and reports MAXRETRIES iff all failed and 0 < ucMaxRepeat < 255;
      a shift that leaves the shift state ends in Run-Test/Idle if there is a run time, else in the requested
      end state; and its waits never get shorter if and only if the run time still fits a long after as many
      increments as there were retries. */
  lemma BoundedRetry(env: Env, s: State, job: Job, runTest: int)
    requires s.tap < 16 && s.error == NONE && job.Valid() && job.bits != [] && IsLong(env.long, runTest)
    ensures var o := Attempts(env, job, s.trace, s.tap, runTest, 0);
            var r := Shift(env, s, job, runTest);
            && 1 <= |o.matched| <= job.maxRepeat + 1
            && (forall i :: 0 <= i < |o.matched| - 1 ==> !o.matched[i])
            && (r.error == NONE <==> true in o.matched)
            && (r.error == MAXRETRIES <==> true !in o.matched && 0 < job.maxRepeat < 255)
            && (r.error == TDOMISMATCH <==> true !in o.matched && (job.maxRepeat == 0 || job.maxRepeat == 255))
            && (true !in o.matched ==> |o.matched| == job.maxRepeat + 1)
            && (!job.Exits() ==> o.waits == [])
            && (job.Exits() && runTest >= 0 ==> (NeverShorter(o.waits, runTest) <==> Grown(runTest, |o.matched| - 1) < Half(env.long)))
            && (job.Exits() ==> r.tap == if runTest != 0 then RUNTEST else GotoState(job.start + 1, job.endState))
  {
    hide Attempts, NeverShorter, Grown, Half, IsLong;
    RetriesFrom(env, job, s.trace, s.tap, runTest, 0);
    var m := Attempts(env, job, s.trace, s.tap, runTest, 0).matched;
    if !m[|m| - 1] {
      assert forall i :: 0 <= i < |m| ==> !m[i];
    } else {
      assert m[|m| - 1] in m;
    }
  }

  /** What a file can rely on beforehand: a run time that still fits after ucMaxRepeat increments never gets
      shorter, whatever the device answers; one that does not will, if the device never matches. */
  lemma WaitsBeforehand(env: Env, s: State, job: Job, runTest: nat)
    requires s.tap < 16 && s.error == NONE && job.Valid() && job.bits != [] && IsLong(env.long, runTest) && job.Exits()
    ensures var o := Attempts(env, job, s.trace, s.tap, runTest, 0);
            && (Grown(runTest, job.maxRepeat) < Half(env.long) ==> NeverShorter(o.waits, runTest))
            && (true !in o.matched ==> (NeverShorter(o.waits, runTest) <==> Grown(runTest, job.maxRepeat) < Half(env.long)))
  {
    hide Attempts, NeverShorter, Grown, Half, IsLong;
    BoundedRetry(env, s, job, runTest);
    var o := Attempts(env, job, s.trace, s.tap, runTest, 0);
    GrownMonotone(runTest, |o.matched| - 1, job.maxRepeat);
  }

  /** An instance: with a 32-bit long, XRUNTEST 1000000000 and XREPEAT 4 shorten the wait if nothing matches. */
  lemma WaitsShorten(env: Env, s: State, job: Job)
    requires s.tap < 16 && s.error == NONE && job.Valid() && job.bits != [] && job.Exits()
    requires env.long == 32 && job.maxRepeat == 4
    ensures var o := Attempts(env, job, s.trace, s.tap, 1_000_000_000, 0);
            true !in o.matched ==> !NeverShorter(o.waits, 1_000_000_000)
  {
    hide Attempts, NeverShorter, Grown, Half, IsLong;
    TooLong();
    SmallIsLong(env.long, 1_000_000_000);
    WaitsBeforehand(env, s, job, 1_000_000_000);
  }

  lemma TooLong()
    ensures Half(32) == 0x8000_0000 && Grown(1_000_000_000, 4) >= Half(32)
  {
    Pow2Values();
    assert Grown(1_000_000_000, 4) == Grown(1_250_000_000, 3) == Grown(1_562_500_000, 2) == Grown(1_953_125_000, 1);
  }

  // ---------- a scan chain on the port ----------

  /** The device that is just a controller with a chain: it answers with the cell next to TDO. */
  function ChainDevice(chip: Chip): Device {
    (trace: seq<Event>) => var chain := Drive(chip, trace).chain; chain != [] && chain[0]
  }

  /** Shifting bits through a register is sliding a window over their concatenation. */
  lemma {:induction false} ThroughIsWindow(chain: seq<bool>, bits: seq<bool>)
    ensures Through(chain, bits) == (chain + bits)[|bits|..]
    decreases |bits|
  {
    if bits == [] {
      assert chain + bits == chain;
    } else {
      var n := |bits| - 1;
      ThroughIsWindow(chain, bits[..n]);
      assert chain + bits == (chain + bits[..n]) + [bits[n]];
      if chain != [] {
        assert (chain + bits)[n + 1..] == (chain + bits[..n])[n..][1..] + [bits[n]];
      }
    }
  }

  /** The TDO value sampled for the bit that follows `front`. */
  lemma SampledNext(chip: Chip, trace: seq<Event>, front: seq<bool>, bit: bool, exit: bool)
    requires var c := Drive(chip, trace); Shifting(c.state) && !c.tms && c.chain != []
    ensures var b := BitTrace(bit, exit);
            var chain := Drive(chip, trace).chain;
            ChainDevice(chip)(trace + ShiftTrace(front, false) + b[..|b| - 1]) == (chain + front)[|front|]
  {
    var c := Drive(chip, trace);
    var b := BitTrace(bit, exit);
    var t := ShiftTrace(front, false);
    DriveShift(c, front, false);
    DriveBit(Drive(c, t), bit, exit);
    DriveConcat(chip, trace, t);
    DriveConcat(chip, trace + t, b[..|b| - 1]);
    ThroughIsWindow(c.chain, front);
    hide BitTrace, ShiftTrace, Through;
    assert Drive(chip, trace + t + b[..|b| - 1]).chain == (c.chain + front)[|front|..];
  }

  lemma {:induction false} CapturedStream(chip: Chip, trace: seq<Event>, bits: seq<bool>, exit: bool)
    requires var c := Drive(chip, trace); Shifting(c.state) && !c.tms && c.chain != []
    ensures TdoBits(ChainDevice(chip), trace, bits, exit) == (Drive(chip, trace).chain + bits)[..|bits|]
    decreases |bits|
  {
    hide BitTrace, ShiftTrace, ChainDevice;
    if bits != [] {
      var chain := Drive(chip, trace).chain;
      var n := |bits| - 1;
      CapturedStream(chip, trace, bits[..n], false);
      SampledNext(chip, trace, bits[..n], bits[n], exit);
      assert (chain + bits)[..n] == (chain + bits[..n])[..n];
      assert (chain + bits)[n] == (chain + bits[..n])[n];
    }
  }

  /** Against a chain of N cells, shifting any data of n bits leaves in the register the last N bits of
      the register contents followed by the data, and captures the first n, as a big-endian number padded
      with zeros. For n == N: the register holds the data and its old contents have been captured. */
  lemma ShiftAgainstChain(chip: Chip, trace: seq<Event>, tdi: seq<Byte>, n: nat, exit: bool)
    requires NumBytes(n) == |tdi|
    requires var c := Drive(chip, trace); Shifting(c.state) && !c.tms && c.chain != []
    ensures var chain := Drive(chip, trace).chain;
            var bits := FirstBits(tdi, n);
            var captured := PackBits(TdoBits(ChainDevice(chip), trace, bits, exit), |tdi|);
            && Drive(chip, trace + ShiftTrace(bits, exit)).chain == (chain + bits)[n..]
            && BigEndian(captured) == FromBits((chain + bits)[..n])
            && (n == |chain| ==> Drive(chip, trace + ShiftTrace(bits, exit)).chain == bits
                                 && BigEndian(captured) == FromBits(chain))
  {
    var c := Drive(chip, trace);
    var bits := FirstBits(tdi, n);
    DriveConcat(chip, trace, ShiftTrace(bits, exit));
    DriveShift(c, bits, exit);
    ThroughIsWindow(c.chain, bits);
    CapturedStream(chip, trace, bits, exit);
    var tdo := TdoBits(ChainDevice(chip), trace, bits, exit);
    BigEndianIsBits(PackBits(tdo, |tdi|), tdo);
    if n == |c.chain| {
      assert (c.chain + bits)[n..] == bits && (c.chain + bits)[..n] == c.chain;
    }
  }
}
