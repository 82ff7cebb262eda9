/** Whole runs of the XSVF player: agreement with the standard, termination, and equivalent ways of
    writing the same pin activity. */
module XsvfRuns {
  import opened LenVal
  import opened SdrMasking
  import opened TapController
  import opened XsvfPins
  import opened Xsvf
  import opened XsvfProofs

  // ---------- every command consumes input ----------

  lemma {:induction false} SkipMovesOn(env: Env, p: nat)
    requires exists q :: p <= q < |env.input| && env.input[q] == 0
    ensures p < SkipComment(env, p) <= |env.input|
    decreases |env.input| - p
  {
    if env.input[p] != 0 { SkipMovesOn(env, p + 1); }
  }

  lemma {:induction false} IncLoopReads(env: Env, s: State, k: nat)
    requires IncReady(s)
    ensures IncLoop(env, s, k).pos >= s.pos && IncLoop(env, s, k).complete == s.complete
    decreases k
  {
    hide ShiftTdi, NextTdi;
    if k > 0 && s.error == NONE { IncLoopReads(env, ShiftTdi(env, NextPiece(env, s)), k - 1); }
  }

  lemma XsdrIncReads(env: Env, s: State)
    requires StateOk(s) && CanCompare(s) && |s.addressMask| == |s.dataMask| == s.bytes
    ensures DoXsdrInc(env, s).pos >= s.pos
  {
    hide ShiftTdi, IncLoop, Read;
    var s1 := ShiftTdi(env, Take(env, s, s.bytes));
    if s1.error == NONE { IncLoopReads(env, s1.(pos := s1.pos + 1), InputAt(env, s1.pos)); }
  }

  lemma ShiftReads(env: Env, s: State)
    requires StateOk(s) && WellFormed(env, s)
    requires s.command == 2 || s.command == 3 || s.command == 9 || 11 <= s.command <= 17 || s.command == 21
    ensures Execute(env, s).pos >= s.pos
  {
    hide ShiftTdi, Shift, DoXsdrInc, Read;
    if s.command == 11 { XsdrIncReads(env, s); }
  }

  lemma OtherReads(env: Env, s: State)
    requires StateOk(s) && WellFormed(env, s)
    requires s.command != 2 && s.command != 3 && s.command != 9 && !(11 <= s.command <= 17) && s.command != 21
    ensures Execute(env, s).pos >= s.pos
    ensures s.command == 255 ==> !Running(Execute(env, s))
  {
    hide GotoTrace, GotoState, IllegalMove, Read, WaitTrace, NumBytes, BigEndian, SkipComment;
    if s.command == 22 { SkipMovesOn(env, s.pos); }
  }

  lemma ExecuteReads(env: Env, s: State)
    requires StateOk(s) && WellFormed(env, s)
    ensures Execute(env, s).pos >= s.pos
    ensures s.command == 255 ==> !Running(Execute(env, s))
  {
    hide Execute;
    if s.command == 2 || s.command == 3 || s.command == 9 || 11 <= s.command <= 17 || s.command == 21 {
      ShiftReads(env, s);
    } else {
      OtherReads(env, s);
    }
  }

  /** Commands the player can still execute: one per byte left, and one that finds the end of the file. */
  function Budget(env: Env, s: State): nat {
    if !Running(s) then 0 else 1 + if s.pos < |env.input| then |env.input| - s.pos else 0
  }

  lemma StepUsesBudget(env: Env, s: State)
    requires StateOk(s) && Running(s) && WellFormed(env, Fetch(env, s))
    ensures Budget(env, Step(env, s)) < Budget(env, s)
  {
    hide Execute;
    ExecuteReads(env, Fetch(env, s));
  }

  lemma StepKeeps(env: Env, s: State)
    requires StateOk(s) && Running(s) && WellFormed(env, Fetch(env, s)) && Agrees(s)
    ensures StateOk(Step(env, s)) && Agrees(Step(env, s))
  {
    hide Execute;
    ExecuteAgrees(env, Fetch(env, s));
  }

  /** The file never asks for what the player leaves to its author. */
  ghost predicate Playable(env: Env, s: State)
    requires StateOk(s) && Agrees(s)
    decreases Budget(env, s)
  {
    Running(s) ==>
      && WellFormed(env, Fetch(env, s))
      && (StepUsesBudget(env, s); StepKeeps(env, s); Playable(env, Step(env, s)))
  }

  /** The state after n commands; a player that has halted stays as it is. */
  ghost function After(env: Env, s: State, n: nat): (r: State)
    requires StateOk(s) && Agrees(s) && Playable(env, s)
    ensures StateOk(r) && Agrees(r) && Playable(env, r)
    decreases n
  {
    if n == 0 || !Running(s) then s else
      StepKeeps(env, s);
      After(env, Step(env, s), n - 1)
  }

  lemma InitializeSynchronises(s: State)
    ensures StateOk(Initialize(s)) && Agrees(Initialize(s))
  {
    assert NumBytes(0) == 0;
    GotoSynced(RESET, RESET, s.trace);
  }

  /** For every file that is playable, every device and every earlier pin activity: after initialisation
      and after every command, the shadow state is the state of an IEEE 1149.1 controller driven by the
      pins, whatever state that controller and its pins were in at first. */
  lemma ShadowIsControllerState(env: Env, s: State, n: nat, chip: Chip)
    ensures StateOk(Initialize(s)) && Agrees(Initialize(s))
    ensures Playable(env, Initialize(s)) ==>
              var r := After(env, Initialize(s), n);
              Code(Drive(chip, r.trace).state) == r.tap
  {
    InitializeSynchronises(s);
    if Playable(env, Initialize(s)) {
      var r := After(env, Initialize(s), n);
      assert Tracks(Drive(chip, r.trace), r.tap);
    }
  }

  lemma {:induction false} BudgetRunsOut(env: Env, s: State, n: nat)
    requires StateOk(s) && Agrees(s) && Playable(env, s) && n >= Budget(env, s)
    ensures !Running(After(env, s, n))
    decreases n
  {
    hide Synced, Step, WellFormed;
    if Running(s) {
      StepUsesBudget(env, s);
      StepKeeps(env, s);
      BudgetRunsOut(env, Step(env, s), n - 1);
    }
  }

  /** xsvfExecute halts on every playable file, after at most one command per byte and one more. */
  lemma ExecuteHalts(env: Env, s: State)
    requires s.pos == 0
    ensures StateOk(Initialize(s)) && Agrees(Initialize(s))
    ensures Playable(env, Initialize(s)) ==> !Running(After(env, Initialize(s), |env.input| + 1))
  {
    InitializeSynchronises(s);
    if Playable(env, Initialize(s)) { BudgetRunsOut(env, Initialize(s), |env.input| + 1); }
  }
}
