/** The CTR driver as a state machine: modules, object bindings and client operations. */
module CtrDriver {
  import CtrPacking
  import opened CtrTables

  const PTIM_OBJECTS: nat := 2048
  const CTIM_OBJECTS: nat := 2048

  datatype PtimBinding = PtimBinding(eqpNum: nat, moduleIndex: nat, counter: nat, size: nat, start: nat)

  datatype CtimBinding = CtimBinding(eqpNum: nat, frame: nat)

  datatype Driver = Driver(modules: seq<Module>, ptims: seq<PtimBinding>, ctims: seq<CtimBinding>)

  /** What a client asks for. `stray` stands for the words read past the end of a module's table of
      hardware clients, which no operation controls. */
  datatype Op =
    | Connect(client: Client, cls: Class, moduleIndex: nat, eqpNum: nat, bits: set<nat>)
    | Disconnect(client: Client, cls: Class, moduleIndex: nat, eqpNum: nat, stray: nat -> bool)
    | Close(client: Client, strays: nat -> nat -> bool)
    | CreatePtim(eqpNum: nat, moduleIndex: nat, counter: nat, size: nat)
    | DestroyPtim(eqpNum: nat, moduleIndex: nat)
    | SetAction(moduleIndex: nat, number: nat, act: Action)
    | CreateCtim(eqpNum: nat, frame: nat)
    | DestroyCtim(eqpNum: nat, moduleIndex: nat)
    | ChangeCtim(eqpNum: nat, frame: nat, moduleIndex: nat)

  /** Requests name an installed module, objects have non-zero numbers, and counters exist. Module and
      equipment numbers of a PTIM binding come from the request and are checked by the driver itself. */
  predicate WellFormed(op: Op, modules: nat) {
    match op
    case Connect(_, cls, k, e, _) => k < modules && (cls != HARD ==> e != 0)
    case Disconnect(_, cls, k, e, _) => k < modules && (cls != HARD ==> e != 0)
    case CreatePtim(e, _, counter, _) => e != 0 && counter < COUNTERS
    case DestroyPtim(e, _) => e != 0
    case SetAction(k, _, _) => k < modules
    case CreateCtim(e, _) => e != 0
    case DestroyCtim(_, k) => k < modules
    case ChangeCtim(_, _, k) => k < modules
    case Close(_, _) => true
  }

  function PtimIndex(ptims: seq<PtimBinding>, eqpNum: nat): (r: nat)
    ensures r <= |ptims|
    ensures forall i :: 0 <= i < r ==> ptims[i].eqpNum != eqpNum
    ensures r < |ptims| ==> ptims[r].eqpNum == eqpNum
  {
    if ptims == [] || ptims[0].eqpNum == eqpNum then 0 else 1 + PtimIndex(ptims[1..], eqpNum)
  }

  function CtimIndex(ctims: seq<CtimBinding>, eqpNum: nat): (r: nat)
    ensures r <= |ctims|
    ensures forall i :: 0 <= i < r ==> ctims[i].eqpNum != eqpNum
    ensures r < |ctims| ==> ctims[r].eqpNum == eqpNum
  {
    if ctims == [] || ctims[0].eqpNum == eqpNum then 0 else 1 + CtimIndex(ctims[1..], eqpNum)
  }

  /** Delete by moving the last element into the hole. */
  function SwapRemove<T>(s: seq<T>, i: nat): seq<T>
    requires i < |s|
  {
    s[i := s[|s| - 1]][..|s| - 1]
  }

  /** The frame a new CTIM instance gets: none if the number is undefined or its header byte is zero. */
  function CtimFrame(ctims: seq<CtimBinding>, eqpNum: nat): Option<nat> {
    var i := CtimIndex(ctims, eqpNum);
    if i < |ctims| && ctims[i].frame / 0x100_0000 != 0 then Some(ctims[i].frame) else None
  }

  predicate Sized(d: Driver) {
    forall k :: 0 <= k < |d.modules| ==> Counted(d.modules[k])
  }

  function Put(d: Driver, k: nat, m: Module): Driver
    requires k < |d.modules|
  {
    d.(modules := d.modules[k := m])
  }

  function DoConnect(d: Driver, c: Client, cls: Class, k: nat, eqpNum: nat, bits: set<nat>): (Driver, Errno)
    requires Sized(d) && k < |d.modules|
  {
    match cls
    case PTIM =>
      var p := PtimIndex(d.ptims, eqpNum);
      if p == |d.ptims| || d.ptims[p].moduleIndex >= |d.modules| then (d, ENXIO)
      else
        var j := d.ptims[p].moduleIndex;
        if FirstObject(d.modules[j].slots, eqpNum, PTIM) == |d.modules[j].slots| then (d, ENXIO)
        else (Put(d, j, ConnectPtim(d.modules[j], eqpNum, c)), OK)
    case CTIM =>
      var (m, e) := ConnectCtim(d.modules[k], eqpNum, CtimFrame(d.ctims, eqpNum), c);
      (Put(d, k, m), e)
    case HARD =>
      var (m, e) := ConnectHard(d.modules[k], bits, c);
      (Put(d, k, m), e)
  }

  /** The binding is refused if the number is taken, the list is full, the module does not exist or no
      run of free slots is long enough. A size of zero still needs one free slot. */
  ghost function DoCreatePtim(d: Driver, eqpNum: nat, k: nat, counter: nat, size: nat): (Driver, Errno) {
    if PtimIndex(d.ptims, eqpNum) < |d.ptims| then (d, EBUSY)
    else if |d.ptims| >= PTIM_OBJECTS then (d, ENOMEM)
    else if k >= |d.modules| then (d, EINVAL)
    else
      match FirstFit(d.modules[k].slots, if size == 0 then 1 else size, 0)
      case None => (d, EINVAL)
      case Some(start) =>
        (Put(d, k, Occupy(d.modules[k], start, size, eqpNum, counter)).(
           ptims := d.ptims + [PtimBinding(eqpNum, k, counter, size, start)]), OK)
  }

  function DoDestroyPtim(d: Driver, eqpNum: nat, k: nat): (Driver, Errno) {
    if k >= |d.modules| then (d, EINVAL)
    else if ObjectBusy(d.modules[k], eqpNum) then (d, EBUSY)
    else if FirstObject(d.modules[k].slots, eqpNum, PTIM) == |d.modules[k].slots| then (d, EINVAL)
    else
      var p := PtimIndex(d.ptims, eqpNum);
      (Put(d, k, Release(d.modules[k], eqpNum)).(
         ptims := if p < |d.ptims| then SwapRemove(d.ptims, p) else d.ptims), OK)
  }

  predicate CtimNamed(m: Module, eqpNum: nat) {
    exists i :: 0 <= i < |m.slots| && m.slots[i].trig.ctim == eqpNum
  }

  ghost function Step(d: Driver, op: Op): (Driver, Errno)
    requires Sized(d) && WellFormed(op, |d.modules|)
  {
    match op
    case Connect(c, cls, k, e, bits) => DoConnect(d, c, cls, k, e, bits)
    case Disconnect(c, cls, k, e, stray) =>
      (Put(d, k, CtrTables.Disconnect(d.modules[k], e, cls, c, stray)), OK)
    case Close(c, strays) =>
      (d.(modules := seq(|d.modules|, k requires 0 <= k < |d.modules| =>
                       DisconnectAll(d.modules[k], c, strays(k)))), OK)
    case CreatePtim(e, k, counter, size) => DoCreatePtim(d, e, k, counter, size)
    case DestroyPtim(e, k) => DoDestroyPtim(d, e, k)
    case SetAction(k, number, act) =>
      var (m, e) := CtrTables.SetAction(d.modules[k], number, act);
      (Put(d, k, m), e)
    case CreateCtim(e, frame) =>
      if CtimIndex(d.ctims, e) < |d.ctims| then (d, EBUSY)
      else if |d.ctims| >= CTIM_OBJECTS then (d, ENOMEM)
      else (d.(ctims := d.ctims + [CtimBinding(e, frame)]), OK)
    case DestroyCtim(e, k) =>
      var i := CtimIndex(d.ctims, e);
      if i == |d.ctims| then (d, EINVAL)
      else if CtimNamed(d.modules[k], e) then (d, EBUSY)
      else (d.(ctims := SwapRemove(d.ctims, i)), OK)
    case ChangeCtim(e, frame, k) =>
      var i := CtimIndex(d.ctims, e);
      if i == |d.ctims| then (d, EINVAL)
      else if CtimNamed(d.modules[k], e) then (d, EBUSY)
      else (d.(ctims := d.ctims[i := CtimBinding(e, frame)]), OK)
  }

  /** A module as the driver finds it at installation: nothing owned, connected or enabled. */
  function BlankModule(): Module {
    Module(seq(TABLE_SIZE, _ => ReleaseSlot(BlankSlot())), seq(SOURCES, _ => {}), {}, {})
  }

  function BlankSlot(): Slot {
    Slot(0, HARD, CtrPacking.ZERO_TRIGGER, CtrPacking.ZERO_CONFIG, {}, CtrPacking.HwTrigger(0, 0), CtrPacking.HwConfig(0, 0))
  }

  function Installed(n: nat): Driver { Driver(seq(n, _ => BlankModule()), [], []) }
}
