/** Different files, same pins: XSDRINC is compressed XSDR, and a long shift may be split. */
module XsvfRewrites {
  import opened LenVal
  import opened SdrMasking
  import opened TapController
  import opened XsvfPins
  import opened Xsvf

  /** n calls of xsvfRun lead from s to r. */
  ghost predicate Plays(env: Env, s: State, n: nat, r: State)
    decreases n
  {
    if n == 0 || !Running(s) then r == s
    else StateOk(s) && WellFormed(env, Fetch(env, s)) && Plays(env, Step(env, s), n - 1, r)
  }

  /** The file holds the bytes at position p. */
  ghost predicate Holds(env: Env, p: nat, bytes: seq<Byte>) {
    p + |bytes| <= |env.input| && env.input[p..p + |bytes|] == bytes
  }

  lemma HoldsSplit(env: Env, p: nat, a: seq<Byte>, b: seq<Byte>)
    requires Holds(env, p, a + b)
    ensures Holds(env, p, a) && Holds(env, p + |a|, b)
  {
    var i := env.input[p..p + |a + b|];
    assert i[..|a|] == a && i[|a|..] == b;
    assert env.input[p..p + |a|] == i[..|a|];
    assert env.input[p + |a|..p + |a| + |b|] == i[|a|..];
  }

  lemma HoldsRead(env: Env, p: nat, a: seq<Byte>)
    requires Holds(env, p, a)
    ensures Read(env, p, |a|) == a
  {
    forall i | 0 <= i < |a| ensures InputAt(env, p + i) == a[i] {
      assert env.input[p..p + |a|][i] == env.input[p + i];
    }
  }

  // ---------- XSDRINC is compressed XSDR ----------

  /** The shift data of k pieces. */
  ghost function Pieces(env: Env, pos: nat, tdi: seq<Byte>, address: seq<Byte>, mask: seq<Byte>, k: nat): (r: seq<seq<Byte>>)
    requires |address| == |mask| == |tdi|
    ensures |r| == k && forall i :: 0 <= i < k ==> |r[i]| == |tdi|
    decreases k
  {
    if k == 0 then []
    else
      var data := Read(env, pos, DataBytes(mask));
      var t := NextTdi(tdi, address, mask, data);
      [t] + Pieces(env, pos + |data|, t, address, mask, k - 1)
  }

  /** Shift each value in turn, until one fails. */
  ghost function ShiftEach(env: Env, s: State, ts: seq<seq<Byte>>): State
    requires StateOk(s) && CanCompare(s) && forall i :: 0 <= i < |ts| ==> |ts[i]| == s.bytes
    decreases |ts|
  {
    if ts == [] || s.error != NONE then s
    else ShiftEach(env, ShiftTdi(env, s.(tdi := ts[0])), ts[1..])
  }

  /** Equal but for the position and the command being executed. */
  predicate SameEffect(a: State, b: State) {
    a == b.(pos := a.pos, command := a.command, count := a.count)
  }

  lemma TurnFrame(env: Env, env': Env, job: Job, trace: seq<Event>, tap: nat, runTest: int, repeat: nat)
    requires job.Valid() && job.bits != [] && tap < 16 && env.tdo == env'.tdo && env.long == env'.long
    ensures OneTurn(env, job, trace, tap, runTest, repeat) == OneTurn(env', job, trace, tap, runTest, repeat)
  {
    hide GotoTrace, ShiftTrace, TdoBits, PackBits, Matches, Leave;
  }

  /** The retries do not look at the input. */
  lemma {:induction false} AttemptsFrame(env: Env, env': Env, job: Job, trace: seq<Event>, tap: nat, runTest: int, repeat: nat)
    requires job.Valid() && job.bits != [] && tap < 16 && repeat <= job.maxRepeat && env.tdo == env'.tdo && env.long == env'.long
    ensures Attempts(env, job, trace, tap, runTest, repeat) == Attempts(env', job, trace, tap, runTest, repeat)
    decreases job.maxRepeat - repeat
  {
    hide OneTurn;
    TurnFrame(env, env', job, trace, tap, runTest, repeat);
    var u := OneTurn(env, job, trace, tap, runTest, repeat);
    if u.mismatch && repeat < job.maxRepeat { AttemptsFrame(env, env', job, u.trace, u.tap, u.runTest, repeat + 1); }
  }

  /** A shift does not look at the position, the command, or the input. */
  lemma ShiftTdiFrame(env: Env, env': Env, a: State, b: State)
    requires StateOk(a) && |a.tdi| == a.bytes && CanCompare(a) && SameEffect(a, b) && env.tdo == env'.tdo && env.long == env'.long
    ensures SameEffect(ShiftTdi(env, a), ShiftTdi(env', b))
    ensures ShiftTdi(env, a).pos == a.pos
  {
    hide Attempts, GotoTrace;
    assert DrJob(a) == DrJob(b);
    if a.bits != 0 { AttemptsFrame(env, env', DrJob(a), a.trace, a.tap, a.runTest, 0); }
  }

  lemma {:induction false} EachFrame(env: Env, env': Env, a: State, b: State, ts: seq<seq<Byte>>)
    requires StateOk(a) && CanCompare(a) && (forall i :: 0 <= i < |ts| ==> |ts[i]| == a.bytes)
    requires SameEffect(a, b) && env.tdo == env'.tdo && env.long == env'.long
    ensures SameEffect(ShiftEach(env, a, ts), ShiftEach(env', b, ts))
    decreases |ts|
  {
    hide ShiftTdi;
    if ts != [] && a.error == NONE {
      ShiftTdiFrame(env, env', a.(tdi := ts[0]), b.(tdi := ts[0]));
      EachFrame(env, env', ShiftTdi(env, a.(tdi := ts[0])), ShiftTdi(env', b.(tdi := ts[0])), ts[1..]);
    }
  }

  lemma {:induction false} IncIsEach(env: Env, s: State, k: nat)
    requires IncReady(s)
    ensures SameEffect(IncLoop(env, s, k), ShiftEach(env, s, Pieces(env, s.pos, s.tdi, s.addressMask, s.dataMask, k)))
    decreases k
  {
    hide ShiftTdi, NextTdi, DataBytes;
    var ts := Pieces(env, s.pos, s.tdi, s.addressMask, s.dataMask, k);
    if k > 0 && s.error == NONE {
      var next := NextPiece(env, s);
      var shifted := ShiftTdi(env, next);
      IncIsEach(env, shifted, k - 1);
      assert ts[0] == next.tdi;
      assert ts[1..] == Pieces(env, shifted.pos, shifted.tdi, shifted.addressMask, shifted.dataMask, k - 1);
      ShiftTdiFrame(env, env, next, s.(tdi := ts[0]));
      EachFrame(env, env, shifted, ShiftTdi(env, s.(tdi := ts[0])), ts[1..]);
    }
  }

  /** The uncompressed form of the pieces. */
  function XsdrStream(ts: seq<seq<Byte>>): seq<Byte> {
    if ts == [] then [] else [3] + ts[0] + XsdrStream(ts[1..])
  }

  /** One XSDR command. */
  lemma XsdrStep(env: Env, s: State, t: seq<Byte>)
    requires StateOk(s) && Running(s) && CanCompare(s) && |t| == s.bytes && Holds(env, s.pos, [3] + t)
    ensures WellFormed(env, Fetch(env, s))
    ensures SameEffect(Step(env, s), ShiftTdi(env, s.(tdi := t)))
    ensures Step(env, s).pos == s.pos + 1 + |t|
  {
    HoldsSplit(env, s.pos, [3], t);
    HoldsRead(env, s.pos, [3]);
    HoldsRead(env, s.pos + 1, t);
    assert InputAt(env, s.pos) == Read(env, s.pos, 1)[0] == 3;
    var f := Fetch(env, s);
    hide ShiftTdi, Read, Holds;
    ShiftTdiFrame(env, env, Take(env, f, f.bytes), s.(tdi := t));
  }

  lemma {:induction false} EachIsXsdrs(env: Env, s: State, ts: seq<seq<Byte>>) returns (r: State)
    requires StateOk(s) && s.complete == false && CanCompare(s) && (forall i :: 0 <= i < |ts| ==> |ts[i]| == s.bytes)
    requires Holds(env, s.pos, XsdrStream(ts))
    ensures Plays(env, s, |ts|, r) && SameEffect(ShiftEach(env, s, ts), r)
    decreases |ts|
  {
    hide ShiftTdi, Step, WellFormed, Holds;
    r := s;
    if ts != [] && s.error == NONE {
      var t := ts[0];
      HoldsSplit(env, s.pos, [3] + t, XsdrStream(ts[1..]));
      XsdrStep(env, s, t);
      var s' := Step(env, s);
      var e := ShiftTdi(env, s.(tdi := t));
      var rest: seq<seq<Byte>> := ts[1..];
      assert forall i :: 0 <= i < |rest| ==> |rest[i]| == s.bytes;
      r := EachIsXsdrs(env, s', ts[1..]);
      EachFrame(env, env, e, s', ts[1..]);
    }
  }

  /** All the shift data of an XSDRINC command about to be executed. */
  ghost function Decompressed(env: Env, s: State): seq<seq<Byte>>
    requires |s.addressMask| == |s.dataMask| == s.bytes
  {
    var t0 := Read(env, s.pos, s.bytes);
    var p := s.pos + s.bytes;
    [t0] + Pieces(env, p + 1, t0, s.addressMask, s.dataMask, InputAt(env, p))
  }

  lemma IncCommandIsEach(env: Env, s: State)
    requires StateOk(s) && Running(s) && CanCompare(s) && |s.addressMask| == |s.dataMask| == s.bytes
    ensures SameEffect(DoXsdrInc(env, s), ShiftEach(env, s, Decompressed(env, s)))
  {
    hide ShiftTdi, Read, IncLoop, Pieces;
    var ts := Decompressed(env, s);
    var s0 := Take(env, s, s.bytes);
    var s1 := ShiftTdi(env, s0);
    var e1 := ShiftTdi(env, s.(tdi := ts[0]));
    ShiftTdiFrame(env, env, s0, s.(tdi := ts[0]));
    var rest: seq<seq<Byte>> := ts[1..];
    assert forall i :: 0 <= i < |rest| ==> |rest[i]| == s.bytes;
    assert ShiftEach(env, s, ts) == ShiftEach(env, e1, ts[1..]);
    if s1.error == NONE {
      var s2 := s1.(pos := s1.pos + 1);
      IncIsEach(env, s2, InputAt(env, s1.pos));
      assert ts[1..] == Pieces(env, s2.pos, s2.tdi, s2.addressMask, s2.dataMask, InputAt(env, s1.pos));
      EachFrame(env, env, s2, e1, ts[1..]);
    }
  }

  /** XSDRINC is exact decompression. Whatever the device answers, executing it leaves the pins, the
      shadow state, the error and the buffers as playing a file with one plain XSDR per piece would. */
  lemma XsdrIncIsXsdrs(env: Env, s: State, plain: Env, q: nat) returns (r: State)
    requires StateOk(s) && Running(s) && s.command == 11 && WellFormed(env, s)
    requires plain.tdo == env.tdo && plain.long == env.long && Holds(plain, q, XsdrStream(Decompressed(env, s)))
    ensures Plays(plain, s.(pos := q), |Decompressed(env, s)|, r)
    ensures SameEffect(Execute(env, s), r)
  {
    hide Decompressed, DoXsdrInc, ShiftEach, Plays, Holds;
    var ts := Decompressed(env, s);
    IncCommandIsEach(env, s);
    DecompressedLengths(env, s);
    r := EachIsXsdrs(plain, s.(pos := q), ts);
    EachFrame(env, plain, s, s.(pos := q), ts);
  }

  lemma DecompressedLengths(env: Env, s: State)
    requires |s.addressMask| == |s.dataMask| == s.bytes
    ensures forall i :: 0 <= i < |Decompressed(env, s)| ==> |Decompressed(env, s)[i]| == s.bytes
    ensures |Decompressed(env, s)| == 1 + InputAt(env, s.pos + s.bytes)
  {
  }
}
