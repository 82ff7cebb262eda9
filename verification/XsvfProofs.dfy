/** Properties of every run of the XSVF player. */
module XsvfProofs {
  import opened LenVal
  import opened Longs
  import opened TapController
  import opened XsvfPins
  import opened Xsvf

  // ---------- the shadow state is the controller's ----------

  ghost predicate Agrees(s: State) { Synced(s.tap, s.trace) }

  lemma LeaveAgrees(w: Width, job: Job, trace: seq<Event>, retry: bool, runTest: int)
    requires job.Valid() && Synced(job.start + 1, trace)
    ensures var (t, tap, _) := Leave(w, job, trace, retry, runTest); Synced(tap, t)
  {
    var exit1 := job.start + 1;
    if retry {
      GotoSynced(exit1, PAUSEDR, trace);
      GotoSynced(PAUSEDR, SHIFTDR, trace + GotoTrace(exit1, PAUSEDR));
    } else {
      GotoSynced(exit1, job.endState, trace);
    }
    var t := if retry then trace + GotoTrace(exit1, PAUSEDR) + GotoTrace(PAUSEDR, SHIFTDR)
             else trace + GotoTrace(exit1, job.endState);
    var tap := if retry then SHIFTDR else GotoState(exit1, job.endState);
    var time := if retry then Longer(w, runTest) else runTest;
    if time != 0 {
      GotoSynced(tap, RUNTEST, t);
      WaitSynced(RUNTEST, time, t + GotoTrace(tap, RUNTEST));
    }
  }

  lemma TurnAgrees(env: Env, job: Job, trace: seq<Event>, tap: nat, runTest: int, repeat: nat)
    requires job.Valid() && job.bits != [] && tap < 16 && Synced(tap, trace)
    ensures var u := OneTurn(env, job, trace, tap, runTest, repeat); Synced(u.tap, u.trace)
  {
    hide Synced, GotoTrace, ShiftTrace, Matches, TdoBits, PackBits, Leave;
    var t1 := trace + GotoTrace(tap, job.start);
    GotoSynced(tap, job.start, trace);
    ShiftSynced(job.start, job.bits, job.Exits(), t1);
    var t2 := t1 + ShiftTrace(job.bits, job.Exits());
    if job.Exits() {
      LeaveAgrees(env.long, job, t2, true, runTest);
      LeaveAgrees(env.long, job, t2, false, runTest);
    }
  }

  lemma {:induction false} AttemptsAgree(env: Env, job: Job, trace: seq<Event>, tap: nat, runTest: int, repeat: nat)
    requires job.Valid() && job.bits != [] && tap < 16 && repeat <= job.maxRepeat && Synced(tap, trace)
    ensures var o := Attempts(env, job, trace, tap, runTest, repeat); Synced(o.tap, o.trace)
    decreases job.maxRepeat - repeat
  {
    hide Synced, OneTurn;
    TurnAgrees(env, job, trace, tap, runTest, repeat);
    var u := OneTurn(env, job, trace, tap, runTest, repeat);
    if u.mismatch && repeat < job.maxRepeat {
      AttemptsAgree(env, job, u.trace, u.tap, u.runTest, repeat + 1);
    }
  }

  lemma ShiftAgrees(env: Env, s: State, job: Job, runTest: int)
    requires s.tap < 16 && job.Valid() && Agrees(s)
    ensures Agrees(Shift(env, s, job, runTest))
  {
    if job.bits == [] {
      if runTest != 0 {
        GotoSynced(s.tap, RUNTEST, s.trace);
        WaitSynced(RUNTEST, runTest, s.trace + GotoTrace(s.tap, RUNTEST));
      }
    } else {
      AttemptsAgree(env, job, s.trace, s.tap, runTest, 0);
    }
  }

  lemma ShiftTdiAgrees(env: Env, s: State)
    requires StateOk(s) && |s.tdi| == s.bytes && CanCompare(s) && Agrees(s)
    ensures Agrees(ShiftTdi(env, s))
  {
    ShiftAgrees(env, s, DrJob(s), s.runTest);
  }

  lemma {:induction false} IncLoopAgrees(env: Env, s: State, k: nat)
    requires IncReady(s) && Agrees(s)
    ensures Agrees(IncLoop(env, s, k))
    decreases k
  {
    hide ShiftTdi, NextPiece, Synced;
    if k > 0 && s.error == NONE {
      ShiftTdiAgrees(env, NextPiece(env, s));
      IncLoopAgrees(env, ShiftTdi(env, NextPiece(env, s)), k - 1);
    }
  }

  lemma IncRestAgrees(env: Env, s: State)
    requires IncReady(s) && Agrees(s)
    ensures StateOk(IncRest(env, s)) && Agrees(IncRest(env, s))
  {
    hide IncLoop, Synced;
    if s.error == NONE {
      var k := InputAt(env, s.pos);
      IncLoopAgrees(env, s.(pos := s.pos + 1), k);
    }
  }

  lemma XsdrIncAgrees(env: Env, s: State)
    requires StateOk(s) && CanCompare(s) && |s.addressMask| == |s.dataMask| == s.bytes && Agrees(s)
    ensures StateOk(DoXsdrInc(env, s)) && Agrees(DoXsdrInc(env, s))
  {
    var s0 := Take(env, s, s.bytes);
    ShiftTdiAgrees(env, s0);
    IncRestAgrees(env, ShiftTdi(env, s0));
  }

  lemma XsirAgrees(env: Env, s: State, n: nat)
    requires StateOk(s) && Agrees(s)
    ensures StateOk(DoXsir(env, s, n)) && Agrees(DoXsir(env, s, n))
  {
    if NumBytes(n) <= MAX_LEN {
      var s' := Take(env, s, NumBytes(n));
      ShiftAgrees(env, s', IrJob(s', s'.tdi, n), s'.runTest);
    }
  }

  lemma PartAgrees(env: Env, s: State, compare: bool, last: bool)
    requires StateOk(s) && Agrees(s)
    ensures StateOk(Part(env, s, compare, last)) && Agrees(Part(env, s, compare, last))
  {
    var s1 := Take(env, s, s.bytes);
    var s2 := if compare then s1.(expected := Read(env, s1.pos, s.bytes), pos := s1.pos + s.bytes) else s1;
    ShiftAgrees(env, s2, PartJob(s2, compare, last), 0);
  }

  lemma XwaitAgrees(s: State, waitState: nat, endState: nat, usec: int)
    requires StateOk(s) && Agrees(s) && waitState < 16 && endState < 16
    ensures StateOk(DoXwait(s, waitState, endState, usec)) && Agrees(DoXwait(s, waitState, endState, usec))
  {
    var s1 := if s.tap != waitState then MoveTo(s, waitState) else s;
    GotoSynced(s.tap, waitState, s.trace);
    var s2 := s1.(trace := s1.trace + WaitTrace(usec));
    WaitSynced(s1.tap, usec, s1.trace);
    GotoSynced(s2.tap, endState, s2.trace);
  }

  lemma XsdrAgrees(env: Env, s: State)
    requires StateOk(s) && Agrees(s) && WellFormed(env, s) && (s.command == 3 || s.command == 9)
    ensures StateOk(Execute(env, s)) && Agrees(Execute(env, s))
  {
    hide ShiftTdi, Read, Agrees;
    var s1 := Take(env, s, s.bytes);
    var s2 := if s.command == 3 then s1 else s1.(expected := Read(env, s1.pos, s.bytes), pos := s1.pos + s.bytes);
    assert Agrees(s2) by { SamePins(s, s2); }
    ShiftTdiAgrees(env, s2);
  }

  lemma SamePins(s: State, s': State)
    requires Agrees(s) && s'.tap == s.tap && s'.trace == s.trace
    ensures Agrees(s')
  {
  }

  lemma DataShiftAgrees(env: Env, s: State)
    requires StateOk(s) && WellFormed(env, s) && Agrees(s) && 11 <= s.command <= 17
    ensures StateOk(Execute(env, s)) && Agrees(Execute(env, s))
  {
    hide Synced, DoXsdrInc, Part;
    if s.command == 11 {
      XsdrIncAgrees(env, s);
    } else {
      PartAgrees(env, s, s.command >= 15, s.command == 14 || s.command == 17);
    }
  }

  lemma MoveAgrees(env: Env, s: State)
    requires StateOk(s) && WellFormed(env, s) && Agrees(s) && (s.command == 18 || s.command == 23)
    ensures StateOk(Execute(env, s)) && Agrees(Execute(env, s))
  {
    hide Synced, GotoTrace, DoXwait, AsLong, BigEndian;
    if s.command == 18 {
      GotoSynced(s.tap, InputAt(env, s.pos), s.trace);
    } else {
      XwaitAgrees(Take(env, s.(pos := s.pos + 2), 4), InputAt(env, s.pos), InputAt(env, s.pos + 1),
                  AsLong(env.long, BigEndian(Read(env, s.pos + 2, 4))));
    }
  }

  lemma InstructionAgrees(env: Env, s: State)
    requires StateOk(s) && WellFormed(env, s) && Agrees(s) && (s.command == 2 || s.command == 21)
    ensures StateOk(Execute(env, s)) && Agrees(Execute(env, s))
  {
    hide Synced, DoXsir;
    if s.command == 2 {
      XsirAgrees(env, s.(pos := s.pos + 1), InputAt(env, s.pos));
    } else {
      XsirAgrees(env, Take(env, s, 2), BigEndian(Read(env, s.pos, 2)));
    }
  }

  /** The remaining commands leave the pins and the shadow state alone. */
  predicate MovesPins(command: Byte) {
    command == 2 || command == 3 || command == 9 || 11 <= command <= 18 || command == 21 || command == 23
  }

  lemma SettingLeavesPins(env: Env, s: State)
    requires StateOk(s) && WellFormed(env, s) && !MovesPins(s.command)
    ensures StateOk(Execute(env, s)) && Execute(env, s).tap == s.tap && Execute(env, s).trace == s.trace
  {
  }

  /** Every command keeps the shadow state equal to the state of the standard's controller. */
  lemma ExecuteAgrees(env: Env, s: State)
    requires StateOk(s) && WellFormed(env, s) && Agrees(s)
    ensures StateOk(Execute(env, s)) && Agrees(Execute(env, s))
  {
    if s.command == 3 || s.command == 9 { XsdrAgrees(env, s); }
    else if 11 <= s.command <= 17 { DataShiftAgrees(env, s); }
    else if s.command == 18 || s.command == 23 { MoveAgrees(env, s); }
    else if s.command == 2 || s.command == 21 { InstructionAgrees(env, s); }
    else { SettingLeavesPins(env, s); }
  }
}
