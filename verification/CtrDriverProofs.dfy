/** Properties of every run of the CTR driver. */
module CtrDriverProofs {
  import opened CtrPacking
  import opened CtrTables
  import opened CtrModuleProofs
  import opened CtrDriver

  // ---------- ownership of the trigger table ----------

  predicate Owns(p: PtimBinding, k: nat, i: nat) {
    p.moduleIndex == k && p.start <= i < p.start + p.size
  }

  ghost predicate BindingOk(p: PtimBinding, modules: seq<Module>) {
    && p.eqpNum != 0
    && p.moduleIndex < |modules|
    && p.start + p.size <= |modules[p.moduleIndex].slots|
    && forall i :: p.start <= i < p.start + p.size ==>
         IsObject(modules[p.moduleIndex].slots[i], p.eqpNum, PTIM) &&
         modules[p.moduleIndex].slots[i].trig.counter == p.counter
  }

  ghost predicate Claimed(ptims: seq<PtimBinding>, k: nat, i: nat, eqpNum: nat) {
    exists p :: 0 <= p < |ptims| && ptims[p].eqpNum == eqpNum && Owns(ptims[p], k, i)
  }

  ghost predicate Distinct(ptims: seq<PtimBinding>) {
    forall p, q :: 0 <= p < q < |ptims| ==> ptims[p].eqpNum != ptims[q].eqpNum
  }

  /** PTIM objects have distinct numbers; an object owns exactly its contiguous slots. */
  ghost predicate Partitioned(modules: seq<Module>, ptims: seq<PtimBinding>) {
    && Distinct(ptims)
    && (forall p :: 0 <= p < |ptims| ==> BindingOk(ptims[p], modules))
    && (forall k, i :: 0 <= k < |modules| && 0 <= i < |modules[k].slots| && modules[k].slots[i].eqpClass == PTIM ==>
          Claimed(ptims, k, i, modules[k].slots[i].eqpNum))
  }

  ghost predicate DriverOk(d: Driver) {
    && (forall k :: 0 <= k < |d.modules| ==> ModuleOk(d.modules[k]))
    && Partitioned(d.modules, d.ptims)
  }

  /** Two module states in which the PTIM objects own the same slots with the same counters. */
  ghost predicate SamePtims(m: Module, m': Module) {
    && |m'.slots| == |m.slots|
    && forall i :: 0 <= i < |m.slots| ==>
         SameOwner(m.slots[i], m'.slots[i])
  }

  predicate SameOwner(s: Slot, s': Slot) {
    (s.eqpClass == PTIM || s'.eqpClass == PTIM) ==>
      s.eqpClass == s'.eqpClass && s.eqpNum == s'.eqpNum && s.trig.counter == s'.trig.counter
  }

  lemma PartitionedAfterPut(d: Driver, k: nat, m: Module)
    requires DriverOk(d) && k < |d.modules| && SamePtims(d.modules[k], m)
    ensures Partitioned(d.modules[k := m], d.ptims)
  {
    var ms := d.modules[k := m];
    forall p | 0 <= p < |d.ptims| ensures BindingOk(d.ptims[p], ms) {
      var b := d.ptims[p];
      assert BindingOk(b, d.modules);
      if b.moduleIndex == k {
        forall i | b.start <= i < b.start + b.size
          ensures IsObject(m.slots[i], b.eqpNum, PTIM) && m.slots[i].trig.counter == b.counter
        {
          assert IsObject(d.modules[k].slots[i], b.eqpNum, PTIM);
          assert SameOwner(d.modules[k].slots[i], m.slots[i]);
        }
      }
    }
    forall j, i | 0 <= j < |ms| && 0 <= i < |ms[j].slots| && ms[j].slots[i].eqpClass == PTIM
      ensures Claimed(d.ptims, j, i, ms[j].slots[i].eqpNum)
    {
      if j == k { assert SameOwner(d.modules[k].slots[i], m.slots[i]); }
      assert d.modules[j].slots[i].eqpClass == PTIM;
    }
  }

  lemma DetachSlotPtims(m: Module, tndx: nat, cls: Class, c: Client, stray: bool)
    requires ModuleOk(m) && tndx < |m.slots| && cls != HARD && m.slots[tndx].eqpClass != HARD
    ensures Counted(m) && SamePtims(m, DetachSlot(m, tndx, cls, c, stray))
  {
    DetachSlotFrame(m, tndx, cls, c, stray);
    assert SameOwner(m.slots[tndx], DetachSlot(m, tndx, cls, c, stray).slots[tndx]);
  }

  lemma SamePtimsSelf(m: Module)
    ensures SamePtims(m, m)
  {
  }

  lemma SamePtimsTrans(a: Module, b: Module, c: Module)
    requires SamePtims(a, b) && SamePtims(b, c)
    ensures SamePtims(a, c)
  {
    forall i | 0 <= i < |a.slots| ensures SameOwner(a.slots[i], c.slots[i]) {
      assert SameOwner(a.slots[i], b.slots[i]) && SameOwner(b.slots[i], c.slots[i]);
    }
  }

  lemma {:induction false} DetachObjectPtims(m: Module, eqpNum: nat, cls: Class, c: Client, stray: nat -> bool, n: nat)
    requires ModuleOk(m) && n <= TABLE_SIZE && cls != HARD
    ensures SamePtims(m, DetachObject(m, eqpNum, cls, c, stray, n))
    decreases n
  {
    SamePtimsSelf(m);
    hide DetachSlot, SamePtims;
    if n > 0 {
      DetachObjectPtims(m, eqpNum, cls, c, stray, n - 1);
      DetachObjectKeeps(m, eqpNum, cls, c, stray, n - 1, c);
      var p := DetachObject(m, eqpNum, cls, c, stray, n - 1);
      if IsObject(p.slots[n - 1], eqpNum, cls) {
        DetachSlotPtims(p, n - 1, cls, c, stray(n - 1));
        SamePtimsTrans(m, p, DetachSlot(p, n - 1, cls, c, stray(n - 1)));
      }
    }
  }

  lemma {:induction false} DetachSlotsPtims(m: Module, c: Client, stray: nat -> bool, n: nat)
    requires ModuleOk(m) && n <= TABLE_SIZE
    ensures SamePtims(m, DetachSlots(m, c, stray, n))
    decreases n
  {
    SamePtimsSelf(m);
    hide DetachSlot, SamePtims;
    if n > 0 {
      DetachSlotsPtims(m, c, stray, n - 1);
      DetachSlotsKeeps(m, c, stray, n - 1, c);
      var p := DetachSlots(m, c, stray, n - 1);
      var s := p.slots[n - 1];
      if !Free(s) && s.eqpClass != HARD {
        DetachSlotPtims(p, n - 1, s.eqpClass, c, stray(n - 1));
        SamePtimsTrans(m, p, DetachSlot(p, n - 1, s.eqpClass, c, stray(n - 1)));
      }
    }
  }

  lemma DisconnectPtims(m: Module, eqpNum: nat, cls: Class, c: Client, stray: nat -> bool)
    requires ModuleOk(m)
    ensures SamePtims(m, CtrTables.Disconnect(m, eqpNum, cls, c, stray))
    ensures SamePtims(m, DisconnectAll(m, c, stray))
  {
    if cls == HARD { DetachSourcesKeeps(m, c, SOURCES, c); }
    else { DetachObjectPtims(m, eqpNum, cls, c, stray, TABLE_SIZE); }
    DetachSlotsPtims(m, c, stray, TABLE_SIZE);
    DetachSlotsKeeps(m, c, stray, TABLE_SIZE, c);
    DetachSourcesKeeps(DetachSlots(m, c, stray, TABLE_SIZE), c, SOURCES, c);
  }

  lemma ConnectPtims(m: Module, eqpNum: nat, frame: Option<nat>, bits: set<nat>, c: Client)
    requires ModuleOk(m)
    ensures SamePtims(m, ConnectPtim(m, eqpNum, c))
    ensures SamePtims(m, ConnectCtim(m, eqpNum, frame, c).0)
    ensures SamePtims(m, ConnectHard(m, bits, c).0)
  {
    var j := FirstFree(m.slots);
    if j < |m.slots| { assert SlotOk(m.slots[j]); }
  }

  lemma SetActionPtims(m: Module, number: nat, act: Action)
    requires ModuleOk(m)
    ensures SamePtims(m, CtrTables.SetAction(m, number, act).0)
  {
    if 1 <= number <= |m.slots| { assert SlotOk(m.slots[number - 1]); }
  }

  // ---------- one step ----------

  /** Step keeps every invariant, and whoever is not disconnecting keeps its interrupts. */
  ghost predicate Served(d: Driver, b: Client) {
    forall k :: 0 <= k < |d.modules| ==> Serves(d.modules[k], b)
  }

  predicate Leaves(op: Op, b: Client) {
    (op.Disconnect? || op.Close?) && op.client == b
  }

  lemma PutOk(d: Driver, k: nat, m: Module, b: Client)
    requires DriverOk(d) && k < |d.modules| && ModuleOk(m) && SamePtims(d.modules[k], m)
    ensures DriverOk(Put(d, k, m))
    ensures Served(d, b) && Serves(m, b) ==> Served(Put(d, k, m), b)
  {
    PartitionedAfterPut(d, k, m);
  }

  lemma ConnectStep(d: Driver, c: Client, cls: Class, k: nat, eqpNum: nat, bits: set<nat>, b: Client)
    requires DriverOk(d) && k < |d.modules| && (cls != HARD ==> eqpNum != 0)
    ensures DriverOk(DoConnect(d, c, cls, k, eqpNum, bits).0)
    ensures Served(d, b) ==> Served(DoConnect(d, c, cls, k, eqpNum, bits).0, b)
  {
    match cls
    case PTIM =>
      var p := PtimIndex(d.ptims, eqpNum);
      if p < |d.ptims| && d.ptims[p].moduleIndex < |d.modules| {
        var j := d.ptims[p].moduleIndex;
        var m := d.modules[j];
        ConnectPtimOk(m, eqpNum, c);
        ConnectPtims(m, eqpNum, None, bits, c);
        if Serves(m, b) { ConnectPtimServes(m, eqpNum, c, b); }
        PutOk(d, j, ConnectPtim(m, eqpNum, c), b);
      }
    case CTIM =>
      var m := d.modules[k];
      var frame := CtimFrame(d.ctims, eqpNum);
      ConnectCtimOk(m, eqpNum, frame, c);
      ConnectPtims(m, eqpNum, frame, bits, c);
      if Serves(m, b) { ConnectCtimServes(m, eqpNum, frame, c, b); }
      PutOk(d, k, ConnectCtim(m, eqpNum, frame, c).0, b);
    case HARD =>
      var m := d.modules[k];
      ConnectHardOk(m, bits, c, b);
      ConnectPtims(m, eqpNum, None, bits, c);
      PutOk(d, k, ConnectHard(m, bits, c).0, b);
  }

  lemma CloseStep(d: Driver, c: Client, strays: nat -> nat -> bool, b: Client)
    requires DriverOk(d)
    ensures var d' := Step(d, Close(c, strays)).0;
            && DriverOk(d')
            && (forall k :: 0 <= k < |d'.modules| ==> Absent(d'.modules[k], c))
            && (b != c && Served(d, b) ==> Served(d', b))
  {
    var d' := Step(d, Close(c, strays)).0;
    forall k | 0 <= k < |d.modules|
      ensures ModuleOk(d'.modules[k]) && Absent(d'.modules[k], c)
      ensures b != c && Serves(d.modules[k], b) ==> Serves(d'.modules[k], b)
      ensures SamePtims(d.modules[k], d'.modules[k])
    {
      DisconnectAllKeeps(d.modules[k], c, strays(k), b);
      DisconnectPtims(d.modules[k], 0, HARD, c, strays(k));
    }
    PartitionedEverywhere(d.modules, d'.modules, d.ptims);
  }

  lemma PartitionedEverywhere(ms: seq<Module>, ms': seq<Module>, ptims: seq<PtimBinding>)
    requires Partitioned(ms, ptims) && |ms'| == |ms|
    requires forall k :: 0 <= k < |ms| ==> SamePtims(ms[k], ms'[k])
    ensures Partitioned(ms', ptims)
  {
    forall p | 0 <= p < |ptims| ensures BindingOk(ptims[p], ms') {
      var b := ptims[p];
      assert BindingOk(b, ms);
      forall i | b.start <= i < b.start + b.size
        ensures IsObject(ms'[b.moduleIndex].slots[i], b.eqpNum, PTIM)
        ensures ms'[b.moduleIndex].slots[i].trig.counter == b.counter
      {
        assert IsObject(ms[b.moduleIndex].slots[i], b.eqpNum, PTIM);
        assert SameOwner(ms[b.moduleIndex].slots[i], ms'[b.moduleIndex].slots[i]);
      }
    }
    forall k, i | 0 <= k < |ms'| && 0 <= i < |ms'[k].slots| && ms'[k].slots[i].eqpClass == PTIM
      ensures Claimed(ptims, k, i, ms'[k].slots[i].eqpNum)
    {
      assert SameOwner(ms[k].slots[i], ms'[k].slots[i]);
      assert ms[k].slots[i].eqpClass == PTIM;
    }
  }

  lemma CreatePtimStep(d: Driver, eqpNum: nat, k: nat, counter: nat, size: nat, b: Client)
    requires DriverOk(d) && eqpNum != 0 && counter < COUNTERS
    ensures DriverOk(DoCreatePtim(d, eqpNum, k, counter, size).0)
    ensures Served(d, b) ==> Served(DoCreatePtim(d, eqpNum, k, counter, size).0, b)
  {
    hide Partitioned, ModuleOk, Serves, FirstFit, Occupy;
    var (d', e) := DoCreatePtim(d, eqpNum, k, counter, size);
    if e == OK {
      var m := d.modules[k];
      var start := FirstFit(m.slots, if size == 0 then 1 else size, 0).value;
      assert RunFree(m.slots, start, size);
      OccupyKeeps(m, start, size, eqpNum, counter, b);
      CreatedPartition(d, k, PtimBinding(eqpNum, k, counter, size, start));
    }
  }

  lemma CreatedPartition(d: Driver, k: nat, n: PtimBinding)
    requires DriverOk(d) && k < |d.modules| && n.moduleIndex == k && RunFree(d.modules[k].slots, n.start, n.size)
    requires PtimIndex(d.ptims, n.eqpNum) == |d.ptims| && n.eqpNum != 0
    ensures Partitioned(d.modules[k := Occupy(d.modules[k], n.start, n.size, n.eqpNum, n.counter)], d.ptims + [n])
  {
    hide ModuleOk, Claimed, BindingOk, Occupy;
    var modules := d.modules[k := Occupy(d.modules[k], n.start, n.size, n.eqpNum, n.counter)];
    NewBinding(d, k, n);
    forall p | 0 <= p < |d.ptims| ensures BindingOk(d.ptims[p], modules) {
      OldBindingKept(d, d.ptims[p], k, n.start, n.size, n.eqpNum, n.counter);
    }
    CreatedClaims(d, k, n);
  }

  lemma NewBinding(d: Driver, k: nat, n: PtimBinding)
    requires k < |d.modules| && n.moduleIndex == k && n.eqpNum != 0 && RunFree(d.modules[k].slots, n.start, n.size)
    ensures BindingOk(n, d.modules[k := Occupy(d.modules[k], n.start, n.size, n.eqpNum, n.counter)])
  {
  }

  /** Every PTIM slot is claimed by the new binding or by an old one. */
  lemma CreatedClaims(d: Driver, k: nat, n: PtimBinding)
    requires DriverOk(d) && k < |d.modules| && n.moduleIndex == k && RunFree(d.modules[k].slots, n.start, n.size)
    ensures var modules := d.modules[k := Occupy(d.modules[k], n.start, n.size, n.eqpNum, n.counter)];
            forall j, i :: 0 <= j < |modules| && 0 <= i < |modules[j].slots| && modules[j].slots[i].eqpClass == PTIM ==>
              Claimed(d.ptims + [n], j, i, modules[j].slots[i].eqpNum)
  {
    var modules := d.modules[k := Occupy(d.modules[k], n.start, n.size, n.eqpNum, n.counter)];
    var ptims := d.ptims + [n];
    forall j, i | 0 <= j < |modules| && 0 <= i < |modules[j].slots| && modules[j].slots[i].eqpClass == PTIM
      ensures Claimed(ptims, j, i, modules[j].slots[i].eqpNum)
    {
      if j == k && n.start <= i < n.start + n.size {
        assert ptims[|d.ptims|] == n && Owns(n, j, i);
      } else {
        assert d.modules[j].slots[i] == modules[j].slots[i];
        var p :| 0 <= p < |d.ptims| && d.ptims[p].eqpNum == d.modules[j].slots[i].eqpNum && Owns(d.ptims[p], j, i);
        assert ptims[p] == d.ptims[p];
      }
    }
  }

  lemma OldBindingKept(d: Driver, p: PtimBinding, k: nat, start: nat, size: nat, eqpNum: nat, counter: nat)
    requires DriverOk(d) && k < |d.modules| && BindingOk(p, d.modules) && RunFree(d.modules[k].slots, start, size)
    ensures BindingOk(p, d.modules[k := Occupy(d.modules[k], start, size, eqpNum, counter)])
  {
    if p.moduleIndex == k {
      var m' := Occupy(d.modules[k], start, size, eqpNum, counter);
      forall i | p.start <= i < p.start + p.size ensures m'.slots[i] == d.modules[k].slots[i] {
        assert IsObject(d.modules[k].slots[i], p.eqpNum, PTIM);
      }
    }
  }

  lemma DestroyPtimStep(d: Driver, eqpNum: nat, k: nat, b: Client)
    requires DriverOk(d) && eqpNum != 0
    ensures DriverOk(DoDestroyPtim(d, eqpNum, k).0)
    ensures Served(d, b) ==> Served(DoDestroyPtim(d, eqpNum, k).0, b)
  {
    hide Serves, Release, BindingOk;
    var (d', e) := DoDestroyPtim(d, eqpNum, k);
    if e == OK {
      var m := d.modules[k];
      ReleaseKeeps(m, eqpNum, b);
      var f := FirstObject(m.slots, eqpNum, PTIM);
      assert Claimed(d.ptims, k, f, eqpNum);
      var p := PtimIndex(d.ptims, eqpNum);
      assert d.ptims[p].moduleIndex == k by {
        var q :| 0 <= q < |d.ptims| && d.ptims[q].eqpNum == eqpNum && Owns(d.ptims[q], k, f);
        assert q == p;
      }
      assert |d'.ptims| == |d.ptims| - 1;
      assert forall q :: 0 <= q < |d'.ptims| ==> d'.ptims[q] == if q == p then d.ptims[|d.ptims| - 1] else d.ptims[q];
      ReleasePartition(d, eqpNum, k, p, d'.ptims);
    }
  }

  lemma ReleasePartition(d: Driver, eqpNum: nat, k: nat, p: nat, ptims': seq<PtimBinding>)
    requires DriverOk(d) && k < |d.modules| && eqpNum != 0
    requires p < |d.ptims| && d.ptims[p].eqpNum == eqpNum && d.ptims[p].moduleIndex == k
    requires |ptims'| == |d.ptims| - 1
    requires forall q :: 0 <= q < |ptims'| ==> ptims'[q] == if q == p then d.ptims[|d.ptims| - 1] else d.ptims[q]
    ensures Partitioned(d.modules[k := Release(d.modules[k], eqpNum)], ptims')
  {
    var m := d.modules[k];
    var m' := Release(m, eqpNum);
    var ms := d.modules[k := m'];
    forall q | 0 <= q < |ptims'| ensures BindingOk(ptims'[q], ms) {
      var t := ptims'[q];
      var o := if q == p then |d.ptims| - 1 else q;
      assert d.ptims[o] == t && o != p && t.eqpNum != eqpNum && BindingOk(t, d.modules);
      if t.moduleIndex == k {
        forall i | t.start <= i < t.start + t.size ensures m'.slots[i] == m.slots[i] {
          assert IsObject(m.slots[i], t.eqpNum, PTIM);
        }
      }
    }
    forall j, i | 0 <= j < |ms| && 0 <= i < |ms[j].slots| && ms[j].slots[i].eqpClass == PTIM
      ensures Claimed(ptims', j, i, ms[j].slots[i].eqpNum)
    {
      var s := d.modules[j].slots[i];
      assert ms[j].slots[i] == s;
      var q :| 0 <= q < |d.ptims| && d.ptims[q].eqpNum == s.eqpNum && Owns(d.ptims[q], j, i);
      assert s.eqpNum == eqpNum ==> q == p && j == k;
      var r := if q == |d.ptims| - 1 then p else q;
      assert ptims'[r] == d.ptims[q];
    }
  }

  lemma StepKeeps(d: Driver, op: Op, b: Client)
    requires DriverOk(d) && WellFormed(op, |d.modules|)
    ensures DriverOk(Step(d, op).0) && |Step(d, op).0.modules| == |d.modules|
    ensures Served(d, b) && !Leaves(op, b) ==> Served(Step(d, op).0, b)
  {
    hide Serves, Partitioned, SamePtims;
    match op
    case Connect(c, cls, k, e, bits) => ConnectStep(d, c, cls, k, e, bits, b);
    case Disconnect(c, cls, k, e, stray) =>
      DisconnectKeeps(d.modules[k], e, cls, c, stray, b);
      DisconnectPtims(d.modules[k], e, cls, c, stray);
      PutOk(d, k, CtrTables.Disconnect(d.modules[k], e, cls, c, stray), b);
    case Close(c, strays) => CloseStep(d, c, strays, b);
    case CreatePtim(e, k, counter, size) => CreatePtimStep(d, e, k, counter, size, b);
    case DestroyPtim(e, k) => DestroyPtimStep(d, e, k, b);
    case SetAction(k, number, act) =>
      SetActionKeeps(d.modules[k], number, act, b);
      SetActionPtims(d.modules[k], number, act);
      PutOk(d, k, CtrTables.SetAction(d.modules[k], number, act).0, b);
    case CreateCtim(_, _) =>
    case DestroyCtim(_, _) =>
    case ChangeCtim(_, _, _) =>
  }

  // ---------- runs ----------

  ghost function Run(d: Driver, ops: seq<Op>): Driver
    requires DriverOk(d)
    requires forall i :: 0 <= i < |ops| ==> WellFormed(ops[i], |d.modules|)
    decreases |ops|
  {
    if ops == [] then d else
      StepKeeps(d, ops[0], 0);
      Run(Step(d, ops[0]).0, ops[1..])
  }

  lemma {:induction false} RunKeeps(d: Driver, ops: seq<Op>)
    requires DriverOk(d)
    requires forall i :: 0 <= i < |ops| ==> WellFormed(ops[i], |d.modules|)
    ensures DriverOk(Run(d, ops)) && |Run(d, ops).modules| == |d.modules|
    decreases |ops|
  {
    if ops != [] {
      StepKeeps(d, ops[0], 0);
      RunKeeps(Step(d, ops[0]).0, ops[1..]);
    }
  }

  lemma InstalledOk(n: nat)
    ensures DriverOk(Installed(n))
  {
    var d := Installed(n);
    forall k | 0 <= k < |d.modules| ensures ModuleOk(d.modules[k]) {
    }
  }

  /** From the moment a client has no connection until it disconnects or closes, whatever anybody else
      does (and whatever it connects to), every interrupt source it is connected to stays enabled, in the
      driver's mask and in the register. */
  lemma {:induction false} ConnectedStaysEnabled(d: Driver, ops: seq<Op>, b: Client)
    requires DriverOk(d) && Served(d, b)
    requires forall i :: 0 <= i < |ops| ==> WellFormed(ops[i], |d.modules|) && !Leaves(ops[i], b)
    ensures Served(Run(d, ops), b)
    ensures forall k :: 0 <= k < |Run(d, ops).modules| ==> Run(d, ops).modules[k].hwEnabled == Run(d, ops).modules[k].enabled
    decreases |ops|
  {
    if ops != [] {
      StepKeeps(d, ops[0], b);
      StepKeeps(d, ops[0], 0);
      ConnectedStaysEnabled(Step(d, ops[0]).0, ops[1..], b);
    }
  }

  /** After a client closes, its bit is in no client mask of any module, in every reachable state. */
  lemma ClosedClientIsGone(n: nat, ops: seq<Op>, c: Client, strays: nat -> nat -> bool)
    requires forall i :: 0 <= i < |ops| ==> WellFormed(ops[i], n)
    ensures DriverOk(Installed(n)) && DriverOk(Run(Installed(n), ops))
    ensures var d := Step(Run(Installed(n), ops), Close(c, strays)).0;
            forall k :: 0 <= k < |d.modules| ==> Absent(d.modules[k], c) && Serves(d.modules[k], c)
  {
    InstalledOk(n);
    RunKeeps(Installed(n), ops);
    CloseStep(Run(Installed(n), ops), c, strays, c);
  }

  // ---------- the trigger table is partitioned ----------

  function Where(slots: seq<Slot>, cls: Class): set<nat> {
    set i: nat | i < |slots| && slots[i].eqpClass == cls
  }

  function Range(start: nat, size: nat): (r: set<nat>)
    ensures forall i :: i in r <==> start <= i < start + size
    decreases size
  {
    if size == 0 then {} else Range(start, size - 1) + {start + size - 1}
  }

  lemma {:induction false} RangeSize(start: nat, size: nat)
    ensures |Range(start, size)| == size
    decreases size
  {
    if size > 0 { RangeSize(start, size - 1); }
  }

  /** Slots of module k taken by the PTIM objects. */
  function PtimSlots(ptims: seq<PtimBinding>, k: nat): nat {
    if ptims == [] then 0
    else PtimSlots(ptims[..|ptims| - 1], k) + (if ptims[|ptims| - 1].moduleIndex == k then ptims[|ptims| - 1].size else 0)
  }

  ghost function OwnedSlots(ptims: seq<PtimBinding>, k: nat): set<nat>
    ensures forall i :: i in OwnedSlots(ptims, k) <==> exists p :: 0 <= p < |ptims| && Owns(ptims[p], k, i)
  {
    if ptims == [] then {}
    else
      var last := ptims[|ptims| - 1];
      var rest := OwnedSlots(ptims[..|ptims| - 1], k);
      var r := rest + (if last.moduleIndex == k then Range(last.start, last.size) else {});
      assert forall i :: i in r <==> exists p :: 0 <= p < |ptims| && Owns(ptims[p], k, i) by {
        forall i ensures i in r <==> exists p :: 0 <= p < |ptims| && Owns(ptims[p], k, i) {
          if i in rest {
            var p :| 0 <= p < |ptims| - 1 && Owns(ptims[..|ptims| - 1][p], k, i);
            assert Owns(ptims[p], k, i);
          }
          if p :| 0 <= p < |ptims| && Owns(ptims[p], k, i) {
            if p < |ptims| - 1 { assert Owns(ptims[..|ptims| - 1][p], k, i); }
          }
          if i in r && i !in rest { assert Owns(last, k, i); }
        }
      }
      r
  }

  lemma {:induction false} OwnedCount(ptims: seq<PtimBinding>, modules: seq<Module>, k: nat)
    requires Distinct(ptims) && k < |modules|
    requires forall p :: 0 <= p < |ptims| ==> BindingOk(ptims[p], modules)
    ensures |OwnedSlots(ptims, k)| == PtimSlots(ptims, k)
    decreases |ptims|
  {
    if ptims != [] {
      var last := ptims[|ptims| - 1];
      var rest := ptims[..|ptims| - 1];
      OwnedCount(rest, modules, k);
      if last.moduleIndex == k {
        RangeSize(last.start, last.size);
        assert BindingOk(last, modules);
        forall i | i in OwnedSlots(rest, k) ensures i !in Range(last.start, last.size) {
          var p :| 0 <= p < |rest| && Owns(rest[p], k, i);
          assert BindingOk(ptims[p], modules);
          assert IsObject(modules[k].slots[i], ptims[p].eqpNum, PTIM);
          assert last.start <= i < last.start + last.size ==> IsObject(modules[k].slots[i], last.eqpNum, PTIM);
        }
        assert OwnedSlots(rest, k) !! Range(last.start, last.size);
      }
    }
  }

  function Count(slots: seq<Slot>, cls: Class): nat {
    if slots == [] then 0
    else Count(slots[..|slots| - 1], cls) + (if slots[|slots| - 1].eqpClass == cls then 1 else 0)
  }

  lemma {:induction false} WhereCount(slots: seq<Slot>, cls: Class)
    ensures |Where(slots, cls)| == Count(slots, cls)
  {
    if slots == [] {
      assert Where(slots, cls) == {};
    } else {
      var n := |slots| - 1;
      WhereCount(slots[..n], cls);
      assert Where(slots, cls) == Where(slots[..n], cls) + (if slots[n].eqpClass == cls then {n} else {});
    }
  }

  lemma {:induction false} ClassesCover(slots: seq<Slot>)
    ensures Count(slots, HARD) + Count(slots, CTIM) + Count(slots, PTIM) == |slots|
  {
    if slots != [] { ClassesCover(slots[..|slots| - 1]); }
  }

  /** The free slots, object sizes and CTIM slots of one module add up to the table. */
  ghost predicate Accounted(m: Module, ptims: seq<PtimBinding>, k: nat) {
    |set i: nat | i < |m.slots| && Free(m.slots[i])| + PtimSlots(ptims, k) + |Where(m.slots, CTIM)| == |m.slots|
  }

  lemma PtimSlotsAreOwned(d: Driver, k: nat)
    requires DriverOk(d) && k < |d.modules|
    ensures Where(d.modules[k].slots, PTIM) == OwnedSlots(d.ptims, k)
  {
    var slots := d.modules[k].slots;
    forall i: nat ensures i in Where(slots, PTIM) <==> i in OwnedSlots(d.ptims, k) {
      if i in Where(slots, PTIM) {
        var p :| 0 <= p < |d.ptims| && d.ptims[p].eqpNum == slots[i].eqpNum && Owns(d.ptims[p], k, i);
      }
      if i in OwnedSlots(d.ptims, k) {
        var p :| 0 <= p < |d.ptims| && Owns(d.ptims[p], k, i);
        assert BindingOk(d.ptims[p], d.modules);
        assert IsObject(slots[i], d.ptims[p].eqpNum, PTIM);
      }
    }
  }

  lemma FreeIsHard(m: Module)
    requires ModuleOk(m)
    ensures Where(m.slots, HARD) == set i: nat | i < |m.slots| && Free(m.slots[i])
  {
    forall i: nat | i < |m.slots| ensures Free(m.slots[i]) <==> m.slots[i].eqpClass == HARD { assert SlotOk(m.slots[i]); }
  }

  lemma TableAccounted(d: Driver, k: nat)
    requires DriverOk(d) && k < |d.modules|
    ensures Accounted(d.modules[k], d.ptims, k)
  {
    var slots := d.modules[k].slots;
    FreeIsHard(d.modules[k]);
    PtimSlotsAreOwned(d, k);
    OwnedCount(d.ptims, d.modules, k);
    WhereCount(slots, HARD);
    WhereCount(slots, CTIM);
    WhereCount(slots, PTIM);
    ClassesCover(slots);
  }

  /** Each PTIM object owns exactly its run of slots, and each CTIM number has at most one slot and only
      while a client is connected. */
  ghost predicate TablePartition(d: Driver, k: nat)
    requires k < |d.modules|
  {
    var slots := d.modules[k].slots;
    && |slots| == TABLE_SIZE
    && ObjectsOwnRuns(d, k)
    && CtimUnique(slots)
    && (forall i: nat :: i < |slots| && slots[i].eqpClass == CTIM ==> slots[i].clients != {})
  }

  ghost predicate ObjectsOwnRuns(d: Driver, k: nat)
    requires k < |d.modules|
  {
    var slots := d.modules[k].slots;
    && (forall i: nat :: i < |slots| && slots[i].eqpClass == PTIM ==> Claimed(d.ptims, k, i, slots[i].eqpNum))
    && (forall p: nat :: p < |d.ptims| && d.ptims[p].moduleIndex == k ==> HoldsRun(slots, d.ptims[p]))
  }

  /** All slots of the binding's run are there and carry its number. */
  ghost predicate HoldsRun(slots: seq<Slot>, p: PtimBinding) {
    p.start + p.size <= |slots| && forall i: nat :: p.start <= i < p.start + p.size ==> IsObject(slots[i], p.eqpNum, PTIM)
  }

  lemma ObjectsOwn(d: Driver, k: nat)
    requires DriverOk(d) && k < |d.modules|
    ensures ObjectsOwnRuns(d, k)
  {
    var slots := d.modules[k].slots;
    forall p: nat | p < |d.ptims| && d.ptims[p].moduleIndex == k ensures HoldsRun(slots, d.ptims[p]) {
      assert BindingOk(d.ptims[p], d.modules);
    }
    forall i: nat | i < |slots| && slots[i].eqpClass == PTIM ensures Claimed(d.ptims, k, i, slots[i].eqpNum) {
      assert d.modules[k].slots[i].eqpClass == PTIM;
    }
  }

  lemma PartitionOf(d: Driver, k: nat)
    requires DriverOk(d) && k < |d.modules|
    ensures TablePartition(d, k)
  {
    ObjectsOwn(d, k);
    hide ObjectsOwnRuns;
    var slots := d.modules[k].slots;
    forall i: nat | i < |slots| && slots[i].eqpClass == CTIM ensures slots[i].clients != {} {
      assert SlotOk(slots[i]);
    }
  }

  /** Every reachable trigger table is partitioned among free slots, PTIM objects and CTIM slots. */
  lemma TablePartitioned(n: nat, ops: seq<Op>, k: nat)
    requires k < n && forall i :: 0 <= i < |ops| ==> WellFormed(ops[i], n)
    ensures DriverOk(Installed(n))
    ensures var d := Run(Installed(n), ops);
            |d.modules| == n && TablePartition(d, k) && Accounted(d.modules[k], d.ptims, k)
  {
    InstalledOk(n);
    RunKeeps(Installed(n), ops);
    PartitionOf(Run(Installed(n), ops), k);
    TableAccounted(Run(Installed(n), ops), k);
  }

  /** In every reachable state a slot with a connected client has the BUS bit set in its hardware word. */
  lemma ConnectedSlotsInterrupt(n: nat, ops: seq<Op>)
    requires forall i :: 0 <= i < |ops| ==> WellFormed(ops[i], n)
    ensures DriverOk(Installed(n))
    ensures var d := Run(Installed(n), ops);
            forall k, i :: 0 <= k < |d.modules| && 0 <= i < |d.modules[k].slots| && d.modules[k].slots[i].clients != {} ==>
              BusEnabled(d.modules[k].slots[i].hwConf) && d.modules[k].slots[i].eqpNum != 0
  {
    InstalledOk(n);
    RunKeeps(Installed(n), ops);
    var d := Run(Installed(n), ops);
    forall k, i | 0 <= k < |d.modules| && 0 <= i < |d.modules[k].slots| && d.modules[k].slots[i].clients != {}
      ensures BusEnabled(d.modules[k].slots[i].hwConf) && d.modules[k].slots[i].eqpNum != 0
    {
      assert SlotOk(d.modules[k].slots[i]);
    }
  }

  /** CREATE_PTIM takes the lowest run of free slots that fits, and for want of space it fails only if
      there is no such run. */
  lemma CreateTakesLowestRun(d: Driver, eqpNum: nat, k: nat, counter: nat, size: nat)
    requires DriverOk(d) && eqpNum != 0 && size > 0
    requires PtimIndex(d.ptims, eqpNum) == |d.ptims| < PTIM_OBJECTS && k < |d.modules|
    ensures var (d', e) := DoCreatePtim(d, eqpNum, k, counter, size);
            && (e == OK <==> exists a :: RunFree(d.modules[k].slots, a, size))
            && (e == OK ==> |d'.ptims| == |d.ptims| + 1 &&
                            var start := d'.ptims[|d.ptims|].start;
                            && RunFree(d.modules[k].slots, start, size)
                            && (forall a :: RunFree(d.modules[k].slots, a, size) ==> start <= a)
                            && forall i: nat :: i < TABLE_SIZE ==>
                                 (IsObject(d'.modules[k].slots[i], eqpNum, PTIM) <==> start <= i < start + size))
  {
    hide DriverOk, FirstFit, PtimIndex;
    NoneYet(d, eqpNum, k);
  }

  lemma NoneYet(d: Driver, eqpNum: nat, k: nat)
    requires DriverOk(d) && k < |d.modules| && PtimIndex(d.ptims, eqpNum) == |d.ptims|
    ensures |d.modules[k].slots| == TABLE_SIZE
    ensures forall i :: 0 <= i < TABLE_SIZE ==> !IsObject(d.modules[k].slots[i], eqpNum, PTIM)
  {
    hide SlotOk, BindingOk;
    assert forall i: nat :: i < TABLE_SIZE && d.modules[k].slots[i].eqpClass == PTIM ==>
        Claimed(d.ptims, k, i, d.modules[k].slots[i].eqpNum);
  }

  // ---------- a client that turns off its own interrupt ----------

  /** Source 0 is off, and the client is still connected to a slot that drives it. */
  ghost predicate OwnSourceOff(m: Module, c: Client) {
    0 !in m.enabled && exists i :: 0 <= i < |m.slots| && c in m.slots[i].clients && m.slots[i].trig.counter == 0
  }

  lemma SourceJoined(m: Module, bits: set<nat>, c: Client)
    requires ModuleOk(m) && 0 in bits
    ensures var (m1, err) := ConnectHard(m, bits, c);
            && err == OK && ModuleOk(m1) && m1.slots == m.slots
            && forall s :: 0 <= s < SOURCES ==> m1.hard[s] == if s in bits then m.hard[s] + {c} else m.hard[s]
  {
    ConnectHardOk(m, bits, c, c);
    var sources := set i | 0 <= i < SOURCES && i in bits;
    assert 0 in sources;
  }

  lemma SlotJoined(m: Module, e: nat, frame: nat, c: Client)
    requires ModuleOk(m) && e != 0
    requires forall i :: 0 <= i < |m.slots| ==> Free(m.slots[i]) && m.slots[i].clients == {}
    ensures var (m1, err) := ConnectCtim(m, e, Some(frame), c);
            && err == OK && ModuleOk(m1) && m1.hard == m.hard
            && (exists i :: 0 <= i < |m1.slots| && c in m1.slots[i].clients && m1.slots[i].trig.counter == 0)
            && !OthersOnCounter(m1.slots, 0, c)
  {
    hide ConfigToHard, TriggerToHard;
    ConnectCtimOk(m, e, Some(frame), c);
    var m1 := ConnectCtim(m, e, Some(frame), c).0;
    var j := FirstFree(m.slots);
    assert Free(m.slots[0]);
    assert FirstObject(m.slots, e, CTIM) == |m.slots|;
    assert m1.slots == m.slots[j := CtimSlot(m.slots[j], e, frame, c)];
    assert c in m1.slots[j].clients;
  }

  /** On a module nobody is connected to: connect to source 0, connect to a CTIM object, leave the source. The
      source goes off and the slot still has the client. */
  lemma LosesOwnSource(m: Module, e: nat, frame: nat, c: Client, stray: nat -> bool)
    requires ModuleOk(m) && e != 0 && m.hard[0] == {}
    requires forall i :: 0 <= i < |m.slots| ==> Free(m.slots[i]) && m.slots[i].clients == {}
    ensures var m1 := ConnectHard(m, {0}, c).0;
            var m2 := ConnectCtim(m1, e, Some(frame), c).0;
            Counted(m2) && OwnSourceOff(CtrTables.Disconnect(m2, 0, HARD, c, stray), c)
  {
    hide ConnectHard, ConnectCtim, DetachSources, OthersOnCounter;
    SourceJoined(m, {0}, c);
    var m1 := ConnectHard(m, {0}, c).0;
    SlotJoined(m1, e, frame, c);
    var m2 := ConnectCtim(m1, e, Some(frame), c).0;
    DetachSourcesEffect(m2, c, SOURCES);
  }

  lemma RunFirst(d: Driver, ops: seq<Op>, next: Driver)
    requires DriverOk(d) && Sized(d) && ops != [] && forall i :: 0 <= i < |ops| ==> WellFormed(ops[i], |d.modules|)
    requires next == Step(d, ops[0]).0
    ensures DriverOk(next) && |next.modules| == |d.modules| && Run(d, ops) == Run(next, ops[1..])
  {
    hide Step, WellFormed, DriverOk;
    StepKeeps(d, ops[0], 0);
  }

  /** Define a CTIM, connect to source 0, connect to the CTIM, leave the source. */
  function OwnHistory(e: nat, frame: nat, c: Client, stray: nat -> bool): (r: seq<Op>)
    ensures forall i, n :: 0 <= i < |r| && n > 0 && e != 0 ==> WellFormed(r[i], n)
  {
    [CreateCtim(e, frame), Op.Connect(c, HARD, 0, 0, {0}), Op.Connect(c, CTIM, 0, e, {}),
     Op.Disconnect(c, HARD, 0, 0, stray)]
  }

  lemma CtimDefined(d: Driver, e: nat, frame: nat)
    requires Sized(d) && d.ctims == [] && e != 0 && frame / 0x100_0000 != 0
    ensures var d1 := d.(ctims := [CtimBinding(e, frame)]);
            Step(d, CreateCtim(e, frame)).0 == d1 && CtimFrame(d1.ctims, e) == Some(frame)
  {
    hide Counted;
    assert CtimIndex([], e) == 0;
    assert d.ctims + [CtimBinding(e, frame)] == [CtimBinding(e, frame)];
  }

  lemma OwnRun(d: Driver, e: nat, frame: nat, c: Client, stray: nat -> bool)
    requires DriverOk(d) && |d.modules| > 0 && d.ctims == [] && e != 0 && frame / 0x100_0000 != 0
    requires d.modules[0].hard[0] == {}
    requires forall i :: 0 <= i < TABLE_SIZE ==> Free(d.modules[0].slots[i]) && d.modules[0].slots[i].clients == {}
    ensures var r := Run(d, OwnHistory(e, frame, c, stray));
            |r.modules| == |d.modules| && OwnSourceOff(r.modules[0], c)
  {
    hide ConnectHard, ConnectCtim, CtrTables.Disconnect, OwnSourceOff, CtimFrame, Run;
    var m := d.modules[0];
    LosesOwnSource(m, e, frame, c, stray);
    var ops := OwnHistory(e, frame, c, stray);
    CtimDefined(d, e, frame);
    var d1 := d.(ctims := [CtimBinding(e, frame)]);
    RunFirst(d, ops, d1);
    var d2 := Put(d1, 0, ConnectHard(m, {0}, c).0);
    RunFirst(d1, ops[1..], d2);
    var d3 := Put(d2, 0, ConnectCtim(d2.modules[0], e, Some(frame), c).0);
    RunFirst(d2, ops[2..], d3);
    assert ops[1..][1..] == ops[2..] && ops[2..][1..] == ops[3..] && ops[3..][1..] == [];
    var d4 := Put(d3, 0, CtrTables.Disconnect(d3.modules[0], 0, HARD, c, stray));
    RunFirst(d3, ops[3..], d4);
    assert Run(d4, []) == d4 by { RunNone(d4); }
  }

  lemma RunNone(d: Driver)
    requires DriverOk(d)
    ensures Run(d, []) == d
  {
  }

  /** From installation: a driver history after which a client is connected to a CTIM slot whose counter is off. */
  lemma OwnInterruptLost(n: nat, e: nat, frame: nat, c: Client, stray: nat -> bool)
    requires n > 0 && e != 0 && frame / 0x100_0000 != 0
    ensures DriverOk(Installed(n))
    ensures var d := Run(Installed(n), OwnHistory(e, frame, c, stray));
            |d.modules| == n && OwnSourceOff(d.modules[0], c)
  {
    hide DriverOk, OwnSourceOff, OwnHistory;
    InstalledOk(n);
    OwnRun(Installed(n), e, frame, c, stray);
  }

  // ---------- CTIM numbers in use ----------

  /** No disconnect makes a CTIM number destroyable: DESTROY_CTIM answers as it did before, because it looks at
      the trigger of every slot, which the last client to leave does not clear. */
  lemma LeavingKeepsBusy(d: Driver, c: Client, cls: Class, j: nat, eqpNum: nat, stray: nat -> bool, e: nat, k: nat)
    requires DriverOk(d) && Sized(d) && j < |d.modules| && k < |d.modules| && (cls != HARD ==> eqpNum != 0)
    ensures var d1 := Step(d, Op.Disconnect(c, cls, j, eqpNum, stray)).0;
            && Sized(d1) && |d1.modules| == |d.modules|
            && Step(d1, DestroyCtim(e, k)).1 == Step(d, DestroyCtim(e, k)).1
  {
    hide CtrTables.Disconnect, DriverOk;
    var d1 := Step(d, Op.Disconnect(c, cls, j, eqpNum, stray)).0;
    StepKeeps(d, Op.Disconnect(c, cls, j, eqpNum, stray), c);
    SizedOf(d1);
    SameNames(d, j, eqpNum, cls, c, stray);
    var r := d1.modules[j];
    if CtimNamed(d.modules[j], e) {
      var i :| 0 <= i < |d.modules[j].slots| && d.modules[j].slots[i].trig.ctim == e;
      assert r.slots[i].trig.ctim == e;
    }
  }

  lemma SizedOf(d: Driver)
    requires DriverOk(d)
    ensures Sized(d)
  {
  }

  lemma SameNames(d: Driver, j: nat, eqpNum: nat, cls: Class, c: Client, stray: nat -> bool)
    requires DriverOk(d) && j < |d.modules|
    ensures var m := d.modules[j];
            && Counted(m)
            && var r := CtrTables.Disconnect(m, eqpNum, cls, c, stray);
               |r.slots| == |m.slots| && forall i :: 0 <= i < |m.slots| ==> r.slots[i].trig == m.slots[i].trig
  {
    hide DetachObject, DetachSources;
    var m := d.modules[j];
    if cls == HARD {
      DetachSourcesEffect(m, c, SOURCES);
    } else {
      DetachObjectEffect(m, eqpNum, cls, c, stray, TABLE_SIZE);
    }
  }
}
