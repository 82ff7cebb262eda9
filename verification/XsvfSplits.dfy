/** Splitting a long data shift into XSDRB, XSDRC, ..., XSDRE. */
module XsvfSplits {
  import opened LenVal
  import opened TapController
  import opened XsvfPins
  import opened Xsvf
  import opened XsvfRewrites

  const EXIT1DR: nat := 5

  /** The pins and the shadow state. */
  datatype Port = Port(trace: seq<Event>, tap: nat)

  /** One no-wait shift: without bits it does nothing at all. */
  function PartEffect(p: Port, bits: seq<bool>, last: bool, endDR: nat): (r: Port)
    requires p.tap < 16 && endDR < 16
    ensures r.tap < 16
  {
    if bits == [] then p
    else
      var shifted := p.trace + GotoTrace(p.tap, SHIFTDR) + ShiftTrace(bits, last);
      if last then Port(shifted + GotoTrace(EXIT1DR, endDR), GotoState(EXIT1DR, endDR)) else Port(shifted, SHIFTDR)
  }

  function SplitEffect(p: Port, parts: seq<seq<bool>>, endDR: nat): Port
    requires p.tap < 16 && endDR < 16 && parts != []
    decreases |parts|
  {
    if |parts| == 1 then PartEffect(p, parts[0], true, endDR)
    else SplitEffect(PartEffect(p, parts[0], false, endDR), parts[1..], endDR)
  }

  function Concat(parts: seq<seq<bool>>): seq<bool> {
    if parts == [] then [] else parts[0] + Concat(parts[1..])
  }

  lemma {:induction false} ShiftTraceConcat(a: seq<bool>, b: seq<bool>, exit: bool)
    requires b != []
    ensures ShiftTrace(a + b, exit) == ShiftTrace(a, false) + ShiftTrace(b, exit)
    decreases |b|
  {
    hide BitTrace;
    var n := |b| - 1;
    assert (a + b)[..|a| + n] == a + b[..n];
    if n == 0 {
      assert a + b[..n] == a && b[..n] == [];
    } else {
      ShiftTraceConcat(a, b[..n], false);
    }
  }

  /** Two consecutive parts are one part, as long as the second has bits. */
  lemma MergeParts(p: Port, a: seq<bool>, b: seq<bool>, last: bool, endDR: nat)
    requires p.tap < 16 && endDR < 16 && (b != [] || !last || a == [])
    ensures PartEffect(PartEffect(p, a, false, endDR), b, last, endDR) == PartEffect(p, a + b, last, endDR)
  {
    if a == [] {
      assert a + b == b;
    } else if b == [] {
      assert a + b == a;
    } else {
      ShiftTraceConcat(a, b, last);
      assert GotoTrace(SHIFTDR, SHIFTDR) == [];
      var g := GotoTrace(p.tap, SHIFTDR);
      assert p.trace + g + ShiftTrace(a, false) + [] + ShiftTrace(b, last) == p.trace + g + ShiftTrace(a + b, last);
    }
  }

  lemma {:induction false} SplitSame(p: Port, parts: seq<seq<bool>>, endDR: nat)
    requires p.tap < 16 && endDR < 16 && parts != []
    requires parts[|parts| - 1] != [] || Concat(parts) == []
    ensures SplitEffect(p, parts, endDR) == PartEffect(p, Concat(parts), true, endDR)
    decreases |parts|
  {
    hide PartEffect;
    if |parts| == 1 {
      assert parts[1..] == [];
      assert Concat(parts) == parts[0] + [] == parts[0];
    } else {
      var rest := parts[1..];
      assert rest[|rest| - 1] == parts[|parts| - 1];
      LastInConcat(rest);
      SplitSame(PartEffect(p, parts[0], false, endDR), rest, endDR);
      MergeParts(p, parts[0], Concat(rest), true, endDR);
    }
  }

  lemma {:induction false} LastInConcat(parts: seq<seq<bool>>)
    requires parts != []
    ensures parts[|parts| - 1] != [] ==> Concat(parts) != []
    decreases |parts|
  {
    if |parts| > 1 {
      LastInConcat(parts[1..]);
    }
  }

  /** With an empty last part the split shift is still in Shift-DR at the end. */
  lemma {:induction false} SplitStays(p: Port, parts: seq<seq<bool>>, endDR: nat)
    requires p.tap < 16 && endDR < 16 && parts != [] && parts[|parts| - 1] == []
    ensures SplitEffect(p, parts, endDR).tap == if Concat(parts) == [] then p.tap else SHIFTDR
    decreases |parts|
  {
    if |parts| == 1 {
      assert Concat(parts) == parts[0] + Concat([]);
    } else {
      SplitStays(PartEffect(p, parts[0], false, endDR), parts[1..], endDR);
    }
  }

  /** A split shift puts on the pins exactly what the unsplit one does, and ends in the same state, if and
      only if the last part has bits or no part has: an empty XSDRE does not leave Shift-DR. */
  lemma SplitIsWhole(p: Port, parts: seq<seq<bool>>, endDR: nat)
    requires p.tap < 16 && (endDR == RUNTEST || endDR == PAUSEDR) && parts != []
    ensures SplitEffect(p, parts, endDR) == PartEffect(p, Concat(parts), true, endDR) <==>
            parts[|parts| - 1] != [] || Concat(parts) == []
  {
    if parts[|parts| - 1] != [] || Concat(parts) == [] {
      SplitSame(p, parts, endDR);
    } else {
      SplitStays(p, parts, endDR);
    }
  }

  // ---------- in terms of files ----------

  datatype Piece = Piece(n: nat, data: seq<Byte>)

  predicate PieceOk(p: Piece) { |p.data| == NumBytes(p.n) <= MAX_LEN }

  /** XSDRSIZE n, then the shift command with its data. */
  function PieceBytes(p: Piece, command: Byte): seq<Byte> { [8] + ToBytes(p.n, 4) + [command] + p.data }

  function PortOf(s: State): Port { Port(s.trace, s.tap) }

  lemma SizeStep(env: Env, s: State, n: nat)
    requires StateOk(s) && Running(s) && NumBytes(n) <= MAX_LEN && Holds(env, s.pos, [8] + ToBytes(n, 4))
    ensures WellFormed(env, Fetch(env, s))
    ensures Step(env, s) == s.(command := 8, count := s.count + 1, bits := n, bytes := (n + 7) / 8, tdi := ToBytes(n, 4),
                               pos := s.pos + 5)
    ensures StateOk(Step(env, s))
  {
    hide Read, Holds, ToBytes;
    ReadCommand(env, s.pos, 8, ToBytes(n, 4));
    FourBytes(n);
  }

  lemma FourBytes(n: nat)
    requires n < 0x1_0000_0000
    ensures BigEndian(ToBytes(n, 4)) == n
  {
    assert Pow256(1) == 256 && Pow256(2) == 65536 && Pow256(4) == 65536 * 65536;
    ToBytesValue(n, 4);
    var q: nat :| n == BigEndian(ToBytes(n, 4)) + q * Pow256(4);
  }

  lemma PartStep(env: Env, s: State, p: Piece, command: Byte)
    requires StateOk(s) && Running(s) && PieceOk(p) && s.bits == p.n && 12 <= command <= 14
    requires Holds(env, s.pos, [command] + p.data)
    ensures WellFormed(env, Fetch(env, s))
    ensures var r := Step(env, s);
            && StateOk(r) && Running(r) && r.endDR == s.endDR
            && PortOf(r) == PartEffect(PortOf(s), FirstBits(p.data, p.n), command == 14, s.endDR)
            && r.pos == s.pos + 1 + |p.data|
  {
    hide Shift, PartEffect, Read, Holds, FirstBits;
    ReadCommand(env, s.pos, command, p.data);
    var s1 := Take(env, Fetch(env, s), s.bytes);
    OnePart(env, s1, command == 14);
    assert Step(env, s) == Shift(env, s1, PartJob(s1, false, command == 14), 0);
  }

  lemma ReadCommand(env: Env, p: nat, command: Byte, data: seq<Byte>)
    requires Holds(env, p, [command] + data)
    ensures InputAt(env, p) == command && Read(env, p + 1, |data|) == data
  {
    HoldsSplit(env, p, [command], data);
    HoldsRead(env, p, [command]);
    HoldsRead(env, p + 1, data);
    assert InputAt(env, p) == Read(env, p, 1)[0];
  }

  lemma OnePart(env: Env, s: State, last: bool)
    requires StateOk(s) && |s.tdi| == s.bytes && s.error == NONE
    ensures var r := Shift(env, s, PartJob(s, false, last), 0);
            && PortOf(r) == PartEffect(PortOf(s), FirstBits(s.tdi, s.bits), last, s.endDR)
            && r.error == NONE
  {
    hide GotoTrace, ShiftTrace, PackBits, TdoBits;
    var job := PartJob(s, false, last);
    if job.bits != [] {
      assert Attempts(env, job, s.trace, s.tap, 0, 0).matched == [true];
    }
  }

  /** The file for a split shift: any mix of XSDRB and XSDRC, then XSDRE. */
  ghost predicate SplitFile(env: Env, pos: nat, pieces: seq<Piece>)
    decreases |pieces|
  {
    pieces != [] && PieceOk(pieces[0]) &&
    if |pieces| == 1 then Holds(env, pos, PieceBytes(pieces[0], 14))
    else
      && (Holds(env, pos, PieceBytes(pieces[0], 12)) || Holds(env, pos, PieceBytes(pieces[0], 13)))
      && SplitFile(env, pos + 6 + |pieces[0].data|, pieces[1..])
  }

  function BitParts(pieces: seq<Piece>): (r: seq<seq<bool>>)
    requires forall i :: 0 <= i < |pieces| ==> PieceOk(pieces[i])
    ensures |r| == |pieces|
  {
    if pieces == [] then [] else
      assert PieceOk(pieces[0]);
      [FirstBits(pieces[0].data, pieces[0].n)] + BitParts(pieces[1..])
  }

  lemma PieceStep(env: Env, s: State, p: Piece, command: Byte)
    requires StateOk(s) && Running(s) && PieceOk(p) && 12 <= command <= 14 && Holds(env, s.pos, PieceBytes(p, command))
    ensures WellFormed(env, Fetch(env, s)) && StateOk(Step(env, s)) && Running(Step(env, s))
    ensures WellFormed(env, Fetch(env, Step(env, s)))
    ensures var r := Step(env, Step(env, s));
            && StateOk(r) && Running(r) && r.endDR == s.endDR && r.pos == s.pos + 6 + |p.data|
            && PortOf(r) == PartEffect(PortOf(s), FirstBits(p.data, p.n), command == 14, s.endDR)
  {
    hide Step, WellFormed, Holds, PartEffect;
    var a, b := [8] + ToBytes(p.n, 4), [command] + p.data;
    assert PieceBytes(p, command) == a + b;
    HoldsSplit(env, s.pos, a, b);
    SizeStep(env, s, p.n);
    PartStep(env, Step(env, s), p, command);
  }

  /** Playing the file of a split shift has the effect of the split shift. */
  lemma {:induction false} SplitFileEffect(env: Env, s: State, pieces: seq<Piece>) returns (r: State)
    requires StateOk(s) && Running(s) && SplitFile(env, s.pos, pieces)
    ensures forall i :: 0 <= i < |pieces| ==> PieceOk(pieces[i])
    ensures Plays(env, s, 2 * |pieces|, r) && Running(r)
    ensures PortOf(r) == SplitEffect(PortOf(s), BitParts(pieces), s.endDR)
    decreases |pieces|
  {
    hide Step, WellFormed, Holds, PartEffect, FirstBits, PieceBytes, PieceOk, StateOk;
    var command: Byte := if |pieces| == 1 then 14 else if Holds(env, s.pos, PieceBytes(pieces[0], 12)) then 12 else 13;
    PieceStep(env, s, pieces[0], command);
    var s2 := Step(env, Step(env, s));
    if |pieces| == 1 {
      r := s2;
    } else {
      r := SplitFileEffect(env, s2, pieces[1..]);
      assert BitParts(pieces)[1..] == BitParts(pieces[1..]);
    }
    PlaysTwo(env, s, 2 * |pieces| - 2, r);
  }

  lemma PlaysTwo(env: Env, s: State, n: nat, r: State)
    requires StateOk(s) && Running(s) && WellFormed(env, Fetch(env, s))
    requires StateOk(Step(env, s)) && Running(Step(env, s)) && WellFormed(env, Fetch(env, Step(env, s)))
    requires Plays(env, Step(env, Step(env, s)), n, r)
    ensures Plays(env, s, n + 2, r)
  {
    hide Step, WellFormed;
    assert Plays(env, Step(env, s), n + 1, r);
  }

  /** Two files, one with the shift split over several commands and one with a single XSDRE of the
      concatenated bits, give the same pin trace and end state iff the last part has bits or none has. */
  lemma SplitFileIsWholeFile(env: Env, s: State, pieces: seq<Piece>, whole: Env, q: nat, one: Piece) returns (r: State, w: State)
    requires StateOk(s) && Running(s) && SplitFile(env, s.pos, pieces) && SplitFile(whole, q, [one])
    requires forall i :: 0 <= i < |pieces| ==> PieceOk(pieces[i])
    requires FirstBits(one.data, one.n) == Concat(BitParts(pieces))
    ensures Plays(env, s, 2 * |pieces|, r) && Plays(whole, s.(pos := q), 2, w)
    ensures PortOf(r) == PortOf(w) <==> pieces[|pieces| - 1].n != 0 || one.n == 0
  {
    hide Plays, PartEffect, Concat;
    r := SplitFileEffect(env, s, pieces);
    w := SplitFileEffect(whole, s.(pos := q), [one]);
    assert BitParts([one]) == [FirstBits(one.data, one.n)] + BitParts([]) == [FirstBits(one.data, one.n)];
    LastPart(pieces);
    SplitIsWhole(PortOf(s), BitParts(pieces), s.endDR);
  }

  lemma {:induction false} LastPart(pieces: seq<Piece>)
    requires pieces != [] && forall i :: 0 <= i < |pieces| ==> PieceOk(pieces[i])
    ensures BitParts(pieces)[|pieces| - 1] == FirstBits(pieces[|pieces| - 1].data, pieces[|pieces| - 1].n)
    decreases |pieces|
  {
    hide FirstBits;
    if |pieces| > 1 { LastPart(pieces[1..]); }
  }
}
