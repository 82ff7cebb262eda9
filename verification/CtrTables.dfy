/** One CTR module: its trigger table, the clients connected to each slot and interrupt source, and the
    interrupt-enable mask. Masks of clients and of interrupt sources are sets of bit positions. */
module CtrTables {
  import opened CtrPacking

  const TABLE_SIZE: nat := 2048
  const SOURCES: nat := 14         // counters 0..8, then PLL, event-in, PPS, 1 kHz and matched
  const COUNTERS: nat := 9

  type Client = nat

  datatype Class = HARD | CTIM | PTIM

  /** Entry i of the tables that share the trigger index, in the driver and in the FPGA. */
  datatype Slot = Slot(
    eqpNum: nat, eqpClass: Class, trig: Trigger, conf: Config, clients: set<Client>,
    hwTrig: HwTrigger, hwConf: HwConfig)

  /** `enabled` is the driver's copy of the interrupt-enable register `hwEnabled`. */
  datatype Module = Module(slots: seq<Slot>, hard: seq<set<Client>>, enabled: set<nat>, hwEnabled: set<nat>)

  predicate Free(s: Slot) { s.eqpNum == 0 }

  predicate IsObject(s: Slot, eqpNum: nat, cls: Class) { s.eqpNum == eqpNum && s.eqpClass == cls }

  // ---------- searching the table ----------

  function FirstObject(slots: seq<Slot>, eqpNum: nat, cls: Class): (r: nat)
    ensures r <= |slots|
    ensures forall i :: 0 <= i < r ==> !IsObject(slots[i], eqpNum, cls)
    ensures r < |slots| ==> IsObject(slots[r], eqpNum, cls)
  {
    if slots == [] || IsObject(slots[0], eqpNum, cls) then 0 else 1 + FirstObject(slots[1..], eqpNum, cls)
  }

  function FirstFree(slots: seq<Slot>): (r: nat)
    ensures r <= |slots|
    ensures forall i :: 0 <= i < r ==> !Free(slots[i])
    ensures r < |slots| ==> Free(slots[r])
  {
    if slots == [] || Free(slots[0]) then 0 else 1 + FirstFree(slots[1..])
  }

  ghost predicate RunFree(slots: seq<Slot>, start: nat, n: nat) {
    start + n <= |slots| && forall i :: start <= i < start + n ==> Free(slots[i])
  }

  datatype Option<T> = None | Some(value: T)

  // ---------- connecting ----------

  function Attach(s: Slot, c: Client): Slot {
    s.(clients := s.clients + {c}, hwConf := EnableBus(s.hwConf))
  }

  /** The counters driven by the slots of a PTIM object. */
  function CountersOf(slots: seq<Slot>, eqpNum: nat): (r: set<nat>)
    ensures forall i :: 0 <= i < |slots| && IsObject(slots[i], eqpNum, PTIM) ==> slots[i].trig.counter in r
  {
    if slots == [] then {}
    else
      var n := |slots| - 1;
      CountersOf(slots[..n], eqpNum) + (if IsObject(slots[n], eqpNum, PTIM) then {slots[n].trig.counter} else {})
  }

  function AttachAll(slots: seq<Slot>, eqpNum: nat, c: Client): (r: seq<Slot>)
    ensures |r| == |slots|
  {
    seq(|slots|, i requires 0 <= i < |slots| => if IsObject(slots[i], eqpNum, PTIM) then Attach(slots[i], c) else slots[i])
  }

  /** All slots of the object are connected and their counters' interrupts enabled. */
  function ConnectPtim(m: Module, eqpNum: nat, c: Client): Module {
    var enabled := m.enabled + CountersOf(m.slots, eqpNum);
    m.(slots := AttachAll(m.slots, eqpNum, c), enabled := enabled, hwEnabled := enabled)
  }

  function CtimTrigger(eqpNum: nat, frame: nat): Trigger { Trigger(eqpNum, frame, 0, 0, 0, 0, 0) }

  const CTIM_CONFIG := Config(ON_ZERO_BUS, 0, 0, 0, 0, 0)

  /** A new instance; its hardware words have the frame and the BUS bit. */
  function CtimSlot(s: Slot, eqpNum: nat, frame: nat, c: Client): Slot {
    Slot(eqpNum, CTIM, CtimTrigger(eqpNum, frame), CTIM_CONFIG, s.clients + {c}, HwTrigger(frame, 0), HwConfig(BUS_MASK, 0))
  }

  datatype Errno = OK | EBUSY | ENOMEM | ENXIO | EINVAL

  function Enable(m: Module, sources: set<nat>): Module {
    m.(enabled := m.enabled + sources, hwEnabled := m.enabled + sources)
  }

  /** The frame is the one bound to the CTIM number, if the number is defined with a non-zero header. */
  function ConnectCtim(m: Module, eqpNum: nat, frame: Option<nat>, c: Client): (Module, Errno) {
    var i := FirstObject(m.slots, eqpNum, CTIM);
    if i < |m.slots| then
      (Enable(m.(slots := m.slots[i := Attach(m.slots[i], c)]), {0}), OK)
    else if frame.None? then (m, ENXIO)
    else
      var j := FirstFree(m.slots);
      if j < |m.slots| then
        (Enable(m.(slots := m.slots[j := CtimSlot(m.slots[j], eqpNum, frame.value, c)]), {0}), OK)
      else (m, ENOMEM)
  }

  function ConnectHard(m: Module, bits: set<nat>, c: Client): (Module, Errno)
    requires |m.hard| == SOURCES
  {
    var sources := set i | 0 <= i < SOURCES && i in bits;
    if sources == {} then (m, ENXIO)
    else
      (Enable(m.(hard := seq(SOURCES, i requires 0 <= i < SOURCES => if i in bits then m.hard[i] + {c} else m.hard[i])),
              sources), OK)
  }

  // ---------- disconnecting ----------

  /** Some client other than c is connected to a slot that drives the counter. */
  predicate OthersOnCounter(slots: seq<Slot>, counter: nat, c: Client) {
    exists i :: 0 <= i < |slots| && slots[i].trig.counter == counter && slots[i].clients - {c} != {}
  }

  /** The source index that DisableInterrupts would clear. */
  function SourceOf(m: Module, tndx: nat, cls: Class): nat
    requires cls != HARD ==> tndx < |m.slots|
  {
    if cls != HARD then m.slots[tndx].trig.counter else tndx
  }

  /** Its last test indexes the source table by the trigger number; past the end of that table it reads
      whatever lies there, here the arbitrary value `stray`. */
  predicate StillUsed(m: Module, tndx: nat, cls: Class, c: Client, stray: bool)
    requires |m.hard| == SOURCES
    requires cls != HARD ==> tndx < |m.slots| && m.slots[tndx].trig.counter < SOURCES
    requires cls == HARD ==> tndx < SOURCES
  {
    var src := SourceOf(m, tndx, cls);
    || ((cls != HARD || tndx <= COUNTERS) && (m.hard[src] - {c} != {} || OthersOnCounter(m.slots, src, c)))
    || (if tndx < SOURCES then m.hard[tndx] - {c} != {} else stray)
  }

  function DisableInterrupts(m: Module, tndx: nat, cls: Class, c: Client, stray: bool): Module
    requires |m.hard| == SOURCES
    requires cls != HARD ==> tndx < |m.slots| && m.slots[tndx].trig.counter < SOURCES
    requires cls == HARD ==> tndx < SOURCES
  {
    if StillUsed(m, tndx, cls, c, stray) then m
    else
      var enabled := m.enabled - {SourceOf(m, tndx, cls)};
      m.(enabled := enabled, hwEnabled := enabled)
  }

  /** What a slot becomes when its last client has left. */
  function Vacated(s: Slot): Slot {
    if s.eqpClass == CTIM then
      s.(eqpNum := 0, eqpClass := HARD, hwTrig := HwTrigger(0, 0), hwConf := HwConfig(0, 0))
    else s.(hwConf := DisableBus(s.hwConf))
  }

  function DetachSlot(m: Module, tndx: nat, cls: Class, c: Client, stray: bool): Module
    requires Counted(m) && tndx < |m.slots| && cls != HARD
    requires m.slots[tndx].trig.counter < SOURCES
  {
    var s := m.slots[tndx];
    if c !in s.clients then m
    else
      var s' := s.(clients := s.clients - {c});
      var m' := m.(slots := m.slots[tndx := s']);
      if s'.clients != {} then m'
      else
        var d := DisableInterrupts(m', tndx, cls, c, stray);
        d.(slots := d.slots[tndx := Vacated(s')])
  }

  function DetachSource(m: Module, src: nat, c: Client): Module
    requires |m.hard| == SOURCES && src < SOURCES
  {
    if m.hard[src] == {} then m
    else
      var m' := m.(hard := m.hard[src := m.hard[src] - {c}]);
      if m'.hard[src] != {} then m' else DisableInterrupts(m', src, HARD, c, false)
  }

  /** What the index computations rely on. */
  predicate Counted(m: Module) {
    && |m.slots| == TABLE_SIZE
    && |m.hard| == SOURCES
    && forall i :: 0 <= i < |m.slots| && m.slots[i].eqpClass != HARD ==> m.slots[i].trig.counter < COUNTERS
  }

  /** Disconnect c from the object's slots among the first n, in table order. */
  function DetachObject(m: Module, eqpNum: nat, cls: Class, c: Client, stray: nat -> bool, n: nat): (r: Module)
    requires Counted(m) && n <= TABLE_SIZE && cls != HARD
    ensures Counted(r)
  {
    if n == 0 then m
    else
      var p := DetachObject(m, eqpNum, cls, c, stray, n - 1);
      if IsObject(p.slots[n - 1], eqpNum, cls) then DetachSlot(p, n - 1, cls, c, stray(n - 1)) else p
  }

  /** Disconnect c from every object among the first n slots, in table order. */
  function DetachSlots(m: Module, c: Client, stray: nat -> bool, n: nat): (r: Module)
    requires Counted(m) && n <= TABLE_SIZE
    ensures Counted(r)
  {
    if n == 0 then m
    else
      var p := DetachSlots(m, c, stray, n - 1);
      var s := p.slots[n - 1];
      if Free(s) || s.eqpClass == HARD then p else DetachSlot(p, n - 1, s.eqpClass, c, stray(n - 1))
  }

  function DetachSources(m: Module, c: Client, n: nat): (r: Module)
    requires Counted(m) && n <= SOURCES
    ensures Counted(r)
  {
    if n == 0 then m else DetachSource(DetachSources(m, c, n - 1), n - 1, c)
  }

  function Disconnect(m: Module, eqpNum: nat, cls: Class, c: Client, stray: nat -> bool): Module
    requires Counted(m)
  {
    if cls == HARD then DetachSources(m, c, |m.hard|)
    else DetachObject(m, eqpNum, cls, c, stray, |m.slots|)
  }

  function DisconnectAll(m: Module, c: Client, stray: nat -> bool): Module
    requires Counted(m)
  {
    DetachSources(DetachSlots(m, c, stray, |m.slots|), c, |m.hard|)
  }

  // ---------- local timing objects ----------

  /** The lowest start, from `from` on, of a run of n free slots. */
  ghost function FirstFit(slots: seq<Slot>, n: nat, from: nat): (r: Option<nat>)
    ensures r.Some? ==> from <= r.value && RunFree(slots, r.value, n)
    ensures r.Some? ==> forall a :: from <= a < r.value ==> !RunFree(slots, a, n)
    ensures r.None? ==> forall a :: from <= a ==> !RunFree(slots, a, n)
    decreases |slots| - from
  {
    if from + n > |slots| then None
    else if RunFree(slots, from, n) then Some(from)
    else if from == |slots| then None
    else FirstFit(slots, n, from + 1)
  }

  function OccupySlot(s: Slot, eqpNum: nat, counter: nat): Slot {
    s.(eqpNum := eqpNum, eqpClass := PTIM, trig := s.trig.(counter := counter))
  }

  function Occupy(m: Module, start: nat, size: nat, eqpNum: nat, counter: nat): Module {
    m.(slots := seq(|m.slots|, i requires 0 <= i < |m.slots| =>
                  if start <= i < start + size then OccupySlot(m.slots[i], eqpNum, counter) else m.slots[i]))
  }

  function ReleaseSlot(s: Slot): Slot {
    s.(eqpNum := 0, eqpClass := HARD, trig := ZERO_TRIGGER, conf := ZERO_CONFIG,
       hwTrig := HwTrigger(0, 0), hwConf := HwConfig(0, 0))
  }

  predicate ObjectBusy(m: Module, eqpNum: nat) {
    exists i :: 0 <= i < |m.slots| && IsObject(m.slots[i], eqpNum, PTIM) && m.slots[i].clients != {}
  }

  function Release(m: Module, eqpNum: nat): Module {
    m.(slots := seq(|m.slots|, i requires 0 <= i < |m.slots| =>
                  if IsObject(m.slots[i], eqpNum, PTIM) then ReleaseSlot(m.slots[i]) else m.slots[i]))
  }

  // ---------- direct access to the tables ----------

  datatype Action = Action(eqpNum: nat, eqpClass: Class, trig: Trigger, conf: Config)

  /** SET_ACTION is refused on a free slot, because a free slot has class HARD, and on any attempt to
      change the owner or the counter. */
  predicate ActionRefused(s: Slot, act: Action) {
    || s.eqpClass == HARD
    || (s.eqpNum != 0 && (s.eqpNum != act.eqpNum || s.eqpClass != act.eqpClass || s.trig.counter != act.trig.counter))
  }

  function SetActionSlot(s: Slot, act: Action): Slot {
    var conf := act.conf.(onZero := OnZeroWithBus(act.conf.onZero, s.clients != {}));
    s.(eqpNum := act.eqpNum, eqpClass := act.eqpClass,
       trig := act.trig, hwTrig := TriggerToHard(act.trig),
       conf := conf, hwConf := ConfigToHard(conf))
  }

  function SetAction(m: Module, number: nat, act: Action): (Module, Errno) {
    if number < 1 || number > |m.slots| || ActionRefused(m.slots[number - 1], act) then (m, EINVAL)
    else (m.(slots := m.slots[number - 1 := SetActionSlot(m.slots[number - 1], act)]), OK)
  }

  function GetAction(m: Module, number: nat): Option<Action> {
    if number < 1 || number > |m.slots| then None
    else
      var s := m.slots[number - 1];
      Some(Action(s.eqpNum, s.eqpClass, HardToTrigger(s.hwTrig, s.trig.ctim), HardToConfig(s.hwConf)))
  }
}
