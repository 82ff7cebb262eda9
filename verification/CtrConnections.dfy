/** What the requests of a client to connect and disconnect do to the driver, slot by slot. */
module CtrConnections {
  import Bits
  import opened CtrPacking
  import opened CtrTables
  import opened CtrModuleProofs
  import opened CtrDriver
  import opened CtrDriverProofs

  // ---------- what stays ----------

  /** All but the module's slots, source masks and enabled sources. */
  ghost predicate OnlyModules(d: Driver, d': Driver) {
    d'.ptims == d.ptims && d'.ctims == d.ctims && |d'.modules| == |d.modules|
  }

  ghost predicate OnlyModule(d: Driver, d': Driver, k: nat) {
    OnlyModules(d, d') && forall j :: 0 <= j < |d.modules| && j != k ==> d'.modules[j] == d.modules[j]
  }

  /** The BUS bit, bit 30 of the configuration word, is as given and the rest as it was. */
  ghost predicate BusBecomes(h: HwConfig, h': HwConfig, on: bool) {
    h'.delay == h.delay && forall k: nat :: Bits.Bit(h'.config, k) <==> if k == 30 then on else Bits.Bit(h.config, k)
  }

  lemma BusEnables(h: HwConfig)
    ensures BusBecomes(h, EnableBus(h), true) && BusBecomes(h, DisableBus(h), false)
  {
    forall k: nat
      ensures Bits.Bit(EnableBus(h).config, k) <==> if k == 30 then true else Bits.Bit(h.config, k)
      ensures Bits.Bit(DisableBus(h).config, k) <==> if k == 30 then false else Bits.Bit(h.config, k)
    {
      BusBitOnly(h, k);
    }
  }

  /** A slot that one more client is connected to: that client is in its mask, the BUS bit is on, and that is all. */
  ghost predicate Entered(s: Slot, s': Slot, c: Client) {
    && s'.clients == s.clients + {c}
    && BusBecomes(s.hwConf, s'.hwConf, true)
    && s' == s.(clients := s'.clients, hwConf := s'.hwConf)
  }

  // ---------- connecting to a PTIM object ----------

  /** A slot of the object, in whichever module. */
  ghost predicate HasSlot(d: Driver, k: nat, eqpNum: nat, cls: Class) {
    k < |d.modules| && exists i :: 0 <= i < |d.modules[k].slots| && IsObject(d.modules[k].slots[i], eqpNum, cls)
  }

  /** The module after a client has connected to the object: its mask is entered in every slot of the object, the
      sources that these slots drive are enabled, and nothing else changes. */
  ghost predicate ObjectEntered(m: Module, m': Module, eqpNum: nat, cls: Class, c: Client) {
    && |m'.slots| == |m.slots| && m'.hard == m.hard && m'.hwEnabled == m'.enabled
    && (forall i :: 0 <= i < |m.slots| ==>
          if IsObject(m.slots[i], eqpNum, cls) then Entered(m.slots[i], m'.slots[i], c) else m'.slots[i] == m.slots[i])
    && (forall src :: src in m'.enabled <==> src in m.enabled || Drives(m, eqpNum, cls, src))
  }

  ghost predicate Drives(m: Module, eqpNum: nat, cls: Class, src: nat) {
    exists i :: 0 <= i < |m.slots| && IsObject(m.slots[i], eqpNum, cls) && m.slots[i].trig.counter == src
  }

  lemma {:induction false} CountersAre(slots: seq<Slot>, eqpNum: nat, src: nat)
    requires src in CountersOf(slots, eqpNum)
    ensures exists i :: 0 <= i < |slots| && IsObject(slots[i], eqpNum, PTIM) && slots[i].trig.counter == src
    decreases |slots|
  {
    var n := |slots| - 1;
    if src in CountersOf(slots[..n], eqpNum) {
      CountersAre(slots[..n], eqpNum, src);
      var i :| 0 <= i < n && IsObject(slots[..n][i], eqpNum, PTIM) && slots[..n][i].trig.counter == src;
      assert IsObject(slots[i], eqpNum, PTIM) && slots[i].trig.counter == src;
    } else {
      assert IsObject(slots[n], eqpNum, PTIM) && slots[n].trig.counter == src;
    }
  }

  lemma PtimEntered(m: Module, eqpNum: nat, c: Client)
    ensures ObjectEntered(m, ConnectPtim(m, eqpNum, c), eqpNum, PTIM, c)
  {
    hide EnableBus, BusBecomes, CountersOf;
    var m' := ConnectPtim(m, eqpNum, c);
    forall i | 0 <= i < |m.slots| && IsObject(m.slots[i], eqpNum, PTIM) ensures Entered(m.slots[i], m'.slots[i], c) {
      BusEnables(m.slots[i].hwConf);
    }
    forall src ensures src in CountersOf(m.slots, eqpNum) <==> Drives(m, eqpNum, PTIM, src) {
      if src in CountersOf(m.slots, eqpNum) { CountersAre(m.slots, eqpNum, src); }
    }
  }

  lemma NoObject(m: Module, eqpNum: nat, cls: Class)
    requires forall i :: 0 <= i < |m.slots| ==> !IsObject(m.slots[i], eqpNum, cls)
    requires m.hwEnabled == m.enabled
    ensures forall c: Client :: ObjectEntered(m, m, eqpNum, cls, c)
  {
  }

  /** The slots of a PTIM object are in the module of its binding. */
  lemma WhereSlotsAre(d: Driver, eqpNum: nat, k: nat, i: nat)
    requires DriverOk(d) && k < |d.modules| && i < |d.modules[k].slots| && IsObject(d.modules[k].slots[i], eqpNum, PTIM)
    ensures var p := PtimIndex(d.ptims, eqpNum); p < |d.ptims| && d.ptims[p].moduleIndex == k
  {
    assert Claimed(d.ptims, k, i, eqpNum);
    var q :| 0 <= q < |d.ptims| && d.ptims[q].eqpNum == eqpNum && Owns(d.ptims[q], k, i);
    assert PtimIndex(d.ptims, eqpNum) == q;
  }

  /** CONNECT to a PTIM object succeeds if and only if the object has a slot. Then the client is in every slot of the
      object, in whatever module the request came from, and every source these drive is enabled. */
  lemma PtimConnected(d: Driver, c: Client, k: nat, eqpNum: nat, bits: set<nat>)
    requires DriverOk(d) && Sized(d) && k < |d.modules| && eqpNum != 0
    ensures var (d', err) := Step(d, Op.Connect(c, PTIM, k, eqpNum, bits));
            && (err == OK <==> exists j: nat :: HasSlot(d, j, eqpNum, PTIM))
            && (err != OK ==> err == ENXIO && d' == d)
            && (err == OK ==> OnlyModules(d, d') && forall j :: 0 <= j < |d.modules| ==>
                                ObjectEntered(d.modules[j], d'.modules[j], eqpNum, PTIM, c))
  {
    hide ObjectEntered, ConnectPtim;
    var (d', err) := Step(d, Op.Connect(c, PTIM, k, eqpNum, bits));
    var p := PtimIndex(d.ptims, eqpNum);
    forall j: nat | HasSlot(d, j, eqpNum, PTIM) ensures p < |d.ptims| && d.ptims[p].moduleIndex == j && err == OK {
      var i :| 0 <= i < |d.modules[j].slots| && IsObject(d.modules[j].slots[i], eqpNum, PTIM);
      WhereSlotsAre(d, eqpNum, j, i);
    }
    if err == OK {
      var at := d.ptims[p].moduleIndex;
      assert HasSlot(d, at, eqpNum, PTIM);
      forall j | 0 <= j < |d.modules| ensures ObjectEntered(d.modules[j], d'.modules[j], eqpNum, PTIM, c) {
        if j == at {
          PtimEntered(d.modules[j], eqpNum, c);
        } else {
          assert !HasSlot(d, j, eqpNum, PTIM);
          assert ModuleOk(d.modules[j]);
          NoObject(d.modules[j], eqpNum, PTIM);
        }
      }
    }
  }

  // ---------- connecting to a hardware source ----------

  /** The client is entered for the sources asked for, and they are enabled; nothing else changes. */
  ghost predicate SourcesEntered(m: Module, m': Module, bits: set<nat>, c: Client) {
    && m'.slots == m.slots && |m'.hard| == |m.hard| == 14 && m'.hwEnabled == m'.enabled
    && (forall src :: 0 <= src < 14 ==> m'.hard[src] == if src in bits then m.hard[src] + {c} else m.hard[src])
    && (forall src: nat :: src in m'.enabled <==> src in m.enabled || (src in bits && src < 14))
  }

  lemma HardEntered(m: Module, bits: set<nat>, c: Client)
    requires |m.hard| == SOURCES
    ensures var (m', err) := ConnectHard(m, bits, c);
            && (err == OK <==> exists src :: src in bits && 0 <= src < 14)
            && (if err == OK then SourcesEntered(m, m', bits, c) else err == ENXIO && m' == m)
  {
    var sources := set i | 0 <= i < SOURCES && i in bits;
    if src :| src in bits && 0 <= src < 14 {
      assert src in sources;
    }
  }

  /** CONNECT to hardware sources succeeds if and only if one of the 14 is asked for. */
  lemma HardConnected(d: Driver, c: Client, k: nat, eqpNum: nat, bits: set<nat>)
    requires DriverOk(d) && Sized(d) && k < |d.modules|
    ensures var (d', err) := Step(d, Op.Connect(c, HARD, k, eqpNum, bits));
            && (err == OK <==> exists src :: src in bits && 0 <= src < 14)
            && (err != OK ==> err == ENXIO && d' == d)
            && (err == OK ==> OnlyModule(d, d', k) && SourcesEntered(d.modules[k], d'.modules[k], bits, c))
  {
    hide ConnectHard, SourcesEntered, ModuleOk;
    assert Counted(d.modules[k]);
    HardEntered(d.modules[k], bits, c);
    assert Put(d, k, d.modules[k]) == d;
  }

  // ---------- connecting to a CTIM object ----------

  /** CONNECT to a CTIM object that has an instance on the module: the same as for PTIM objects, with source 0. */
  lemma CtimJoined(d: Driver, c: Client, k: nat, eqpNum: nat, bits: set<nat>)
    requires DriverOk(d) && Sized(d) && k < |d.modules| && eqpNum != 0 && HasSlot(d, k, eqpNum, CTIM)
    ensures var (d', err) := Step(d, Op.Connect(c, CTIM, k, eqpNum, bits));
            && err == OK && OnlyModule(d, d', k)
            && ObjectEntered(d.modules[k], d'.modules[k], eqpNum, CTIM, c)
            && 0 in d'.modules[k].enabled
  {
    hide ObjectEntered, ConnectCtim;
    var m := d.modules[k];
    assert ModuleOk(m);
    assert FirstObject(m.slots, eqpNum, CTIM) < |m.slots|;
    CtimEntered(m, eqpNum, CtimFrame(d.ctims, eqpNum), c);
  }

  lemma CtimEntered(m: Module, eqpNum: nat, frame: Option<nat>, c: Client)
    requires ModuleOk(m) && FirstObject(m.slots, eqpNum, CTIM) < |m.slots|
    ensures var (m', err) := ConnectCtim(m, eqpNum, frame, c);
            err == OK && ObjectEntered(m, m', eqpNum, CTIM, c) && 0 in m'.enabled
  {
    hide EnableBus, BusBecomes;
    var i := FirstObject(m.slots, eqpNum, CTIM);
    BusEnables(m.slots[i].hwConf);
    forall j | 0 <= j < |m.slots| && IsObject(m.slots[j], eqpNum, CTIM) ensures j == i {
      assert m.slots[j].eqpClass == CTIM && m.slots[i].eqpClass == CTIM;
    }
    assert SlotOk(m.slots[i]);
  }

  /** The number is defined, with this frame. */
  ghost predicate Defined(ctims: seq<CtimBinding>, eqpNum: nat, frame: nat) {
    exists i :: 0 <= i < |ctims| && ctims[i] == CtimBinding(eqpNum, frame) && forall h :: 0 <= h < i ==> ctims[h].eqpNum != eqpNum
  }

  ghost predicate LowestFree(m: Module, j: nat) {
    j < |m.slots| && m.slots[j].eqpNum == 0 && forall i :: 0 <= i < j ==> m.slots[i].eqpNum != 0
  }

  lemma FrameDefined(ctims: seq<CtimBinding>, eqpNum: nat, frame: nat)
    requires Defined(ctims, eqpNum, frame)
    ensures CtimFrame(ctims, eqpNum) == if frame / 0x100_0000 != 0 then Some(frame) else None
  {
  }

  /** CONNECT to a CTIM object that has none: refused if the number is not defined, its frame has no header, or there
      is no slot; otherwise ... */
  lemma CtimRefused(d: Driver, c: Client, k: nat, eqpNum: nat, bits: set<nat>)
    requires DriverOk(d) && Sized(d) && k < |d.modules| && eqpNum != 0 && !HasSlot(d, k, eqpNum, CTIM)
    ensures var (d', err) := Step(d, Op.Connect(c, CTIM, k, eqpNum, bits));
            var usable := exists frame :: Defined(d.ctims, eqpNum, frame) && frame / 0x100_0000 != 0;
            && (err == OK <==> usable && exists j: nat :: LowestFree(d.modules[k], j))
            && (err == ENXIO <==> !usable)
            && (err != OK ==> (err == ENXIO || err == ENOMEM) && d' == d)
  {
    var m := d.modules[k];
    NoInstance(d, k, eqpNum, CTIM);
    var i := CtimIndex(d.ctims, eqpNum);
    if i < |d.ctims| {
      assert Defined(d.ctims, eqpNum, d.ctims[i].frame);
    }
    forall frame | Defined(d.ctims, eqpNum, frame) ensures i < |d.ctims| && frame == d.ctims[i].frame {
      var h :| 0 <= h < |d.ctims| && d.ctims[h] == CtimBinding(eqpNum, frame) && forall g :: 0 <= g < h ==> d.ctims[g].eqpNum != eqpNum;
      assert h == i;
    }
    var j := FirstFree(m.slots);
    if j < |m.slots| { assert LowestFree(m, j); }
    assert Put(d, k, m) == d;
  }

  lemma NoInstance(d: Driver, k: nat, eqpNum: nat, cls: Class)
    requires k < |d.modules| && !HasSlot(d, k, eqpNum, cls)
    ensures FirstObject(d.modules[k].slots, eqpNum, cls) == |d.modules[k].slots|
  {
    assert forall i :: 0 <= i < |d.modules[k].slots| ==> !IsObject(d.modules[k].slots[i], eqpNum, cls);
  }

  function PlainTrigger(eqpNum: nat, frame: nat): Trigger {
    Trigger(ctim := eqpNum, frame := frame, condition := 0, machine := 0, counter := 0, groupNumber := 0, groupValue := 0)
  }

  function BusOnly(): Config { Config(onZero := 1, start := 0, mode := 0, clock := 0, pulseWidth := 0, delay := 0) }

  /** Slot j has become an instance of the CTIM object: GET_ACTION reads the number, the frame and a plain configuration
      that interrupts the bus back from the hardware, the client is its only one, and source 0 is enabled. Nothing
      else has changed. */
  ghost predicate InstanceAdded(m: Module, m': Module, j: nat, eqpNum: nat, frame: nat, c: Client)
    requires j < |m.slots|
  {
    && |m'.slots| == |m.slots| && m'.hard == m.hard && m'.hwEnabled == m'.enabled
    && (forall src: nat :: src in m'.enabled <==> src in m.enabled || src == 0)
    && (forall i :: 0 <= i < |m.slots| && i != j ==> m'.slots[i] == m.slots[i])
    && m'.slots[j].clients == {c} && m'.slots[j].hwTrig.frame == frame
    && m'.slots[j].trig == PlainTrigger(eqpNum, frame) && m'.slots[j].conf == BusOnly()
    && GetAction(m', j + 1) == Some(Action(eqpNum, CTIM, PlainTrigger(eqpNum, frame), BusOnly()))
  }

  /** ... the lowest free slot becomes its instance, with the frame of the definition. */
  lemma CtimCreated(d: Driver, c: Client, k: nat, eqpNum: nat, bits: set<nat>, frame: nat, j: nat)
    requires DriverOk(d) && Sized(d) && k < |d.modules| && eqpNum != 0 && !HasSlot(d, k, eqpNum, CTIM)
    requires Defined(d.ctims, eqpNum, frame) && frame / 0x100_0000 != 0 && LowestFree(d.modules[k], j)
    ensures var (d', err) := Step(d, Op.Connect(c, CTIM, k, eqpNum, bits));
            err == OK && OnlyModule(d, d', k) && InstanceAdded(d.modules[k], d'.modules[k], j, eqpNum, frame, c)
  {
    hide EnableBus, TriggerToHard, HardToTrigger, ConfigToHard, HardToConfig, ModuleOk, CtimSlot;
    var m := d.modules[k];
    NoInstance(d, k, eqpNum, CTIM);
    FrameDefined(d.ctims, eqpNum, frame);
    assert FirstFree(m.slots) == j;
    InstanceIs(m.slots[j], eqpNum, frame, c);
    assert m.slots[j].clients == {} by { FreeIsEmpty(m, j); }
  }

  /** From then on DESTROY_CTIM finds the number in use on the module. */
  lemma InstanceInUse(d: Driver, c: Client, k: nat, eqpNum: nat, bits: set<nat>, frame: nat, j: nat)
    requires DriverOk(d) && Sized(d) && k < |d.modules| && eqpNum != 0 && !HasSlot(d, k, eqpNum, CTIM)
    requires Defined(d.ctims, eqpNum, frame) && frame / 0x100_0000 != 0 && LowestFree(d.modules[k], j)
    ensures var d' := Step(d, Op.Connect(c, CTIM, k, eqpNum, bits)).0;
            Sized(d') && k < |d'.modules| && Step(d', DestroyCtim(eqpNum, k)).1 == EBUSY
  {
    hide DriverOk, DoConnect, GetAction;
    CtimCreated(d, c, k, eqpNum, bits, frame, j);
    var d' := Step(d, Op.Connect(c, CTIM, k, eqpNum, bits)).0;
    StepKeeps(d, Op.Connect(c, CTIM, k, eqpNum, bits), c);
    SizedOf(d');
    DefinedIndex(d.ctims, eqpNum, frame);
    assert d'.modules[k].slots[j].trig.ctim == eqpNum;
    assert CtimNamed(d'.modules[k], eqpNum);
  }

  lemma FreeIsEmpty(m: Module, j: nat)
    requires ModuleOk(m) && j < |m.slots| && Free(m.slots[j])
    ensures m.slots[j].clients == {}
  {
    assert SlotOk(m.slots[j]);
  }

  lemma DefinedIndex(ctims: seq<CtimBinding>, eqpNum: nat, frame: nat)
    requires Defined(ctims, eqpNum, frame)
    ensures CtimIndex(ctims, eqpNum) < |ctims|
  {
  }

  /** A new instance, in values. */
  lemma InstanceIs(s: Slot, eqpNum: nat, frame: nat, c: Client)
    ensures var r := CtimSlot(s, eqpNum, frame, c);
            && r.eqpNum == eqpNum && r.eqpClass == CTIM && r.clients == s.clients + {c} && r.hwTrig.frame == frame
            && r.trig == PlainTrigger(eqpNum, frame) && HardToTrigger(r.hwTrig, r.trig.ctim) == r.trig
            && r.conf == BusOnly() && HardToConfig(r.hwConf) == r.conf
  {
    hide HardToTrigger, TriggerToHard, ConfigToHard, HardToConfig;
    Bits.Pow2Values();
    InstancePacked(eqpNum, frame);
    TriggerSoftRoundTrip(CtimTrigger(eqpNum, frame));
    ConfigSoftRoundTrip(CTIM_CONFIG);
  }

  // ---------- disconnecting ----------

  /** A slot that a client has left. The last client of a CTIM slot frees it and clears its hardware words; the last one
      of a PTIM slot turns its BUS bit off. */
  ghost predicate LeftBy(s: Slot, s': Slot, c: Client) {
    if c !in s.clients then s' == s
    else if s.clients != {c} then s' == s.(clients := s.clients - {c})
    else if s.eqpClass == CTIM then
      s' == s.(clients := {}, eqpNum := 0, eqpClass := HARD, hwTrig := HwTrigger(0, 0), hwConf := HwConfig(0, 0))
    else s' == s.(clients := {}, hwConf := s'.hwConf) && BusBecomes(s.hwConf, s'.hwConf, false)
  }

  lemma SlotLeft(m: Module, i: nat, cls: Class, c: Client, stray: bool)
    requires ModuleOk(m) && i < |m.slots| && cls != HARD && m.slots[i].eqpClass != HARD
    ensures Counted(m)
    ensures var r := DetachSlot(m, i, cls, c, stray);
            && |r.slots| == |m.slots| && LeftBy(m.slots[i], r.slots[i], c)
            && r.hard == m.hard && forall j :: 0 <= j < |m.slots| && j != i ==> r.slots[j] == m.slots[j]
  {
    hide OthersOnCounter, BusEnabled, ConfigToHard, TriggerToHard, DisableBus, BusBecomes;
    assert SlotOk(m.slots[i]);
    var s := m.slots[i];
    BusEnables(s.hwConf);
    if c in s.clients { assert s.clients - {c} == {} <==> s.clients == {c}; }
  }

  /** The slots of the object among the first n have been left, and nothing else. */
  ghost predicate ObjectLeft(m: Module, r: Module, eqpNum: nat, cls: Class, c: Client, n: nat) {
    && |r.slots| == |m.slots| && r.hard == m.hard
    && forall j :: 0 <= j < |m.slots| ==>
         if j < n && IsObject(m.slots[j], eqpNum, cls) then LeftBy(m.slots[j], r.slots[j], c) else r.slots[j] == m.slots[j]
  }

  lemma {:induction false} ObjectLeaves(m: Module, eqpNum: nat, cls: Class, c: Client, stray: nat -> bool, n: nat)
    requires ModuleOk(m) && n <= TABLE_SIZE && cls != HARD
    ensures Counted(m) && ObjectLeft(m, DetachObject(m, eqpNum, cls, c, stray, n), eqpNum, cls, c, n)
    decreases n
  {
    hide DetachSlot, LeftBy, ModuleOk;
    CountedOk(m);
    if n > 0 {
      ObjectLeaves(m, eqpNum, cls, c, stray, n - 1);
      DetachObjectKeeps(m, eqpNum, cls, c, stray, n - 1, c);
      var p := DetachObject(m, eqpNum, cls, c, stray, n - 1);
      if IsObject(p.slots[n - 1], eqpNum, cls) { SlotLeft(p, n - 1, cls, c, stray(n - 1)); }
    }
  }

  lemma CountedOk(m: Module)
    requires ModuleOk(m)
    ensures Counted(m)
  {
    forall i | 0 <= i < |m.slots| && m.slots[i].eqpClass != HARD ensures m.slots[i].trig.counter < COUNTERS {
      assert SlotOk(m.slots[i]);
    }
  }

  ghost predicate AllLeft(m: Module, r: Module, c: Client, n: nat) {
    && |r.slots| == |m.slots| && r.hard == m.hard
    && forall j :: 0 <= j < |m.slots| ==> if j < n then LeftBy(m.slots[j], r.slots[j], c) else r.slots[j] == m.slots[j]
  }

  lemma FreeLeft(m: Module, i: nat, c: Client)
    requires ModuleOk(m) && i < |m.slots| && (Free(m.slots[i]) || m.slots[i].eqpClass == HARD)
    ensures LeftBy(m.slots[i], m.slots[i], c)
  {
    assert SlotOk(m.slots[i]);
  }

  lemma {:induction false} AllLeave(m: Module, c: Client, stray: nat -> bool, n: nat)
    requires ModuleOk(m) && n <= TABLE_SIZE
    ensures Counted(m) && AllLeft(m, DetachSlots(m, c, stray, n), c, n)
    decreases n
  {
    hide DetachSlot, LeftBy, ModuleOk;
    CountedOk(m);
    if n > 0 {
      AllLeave(m, c, stray, n - 1);
      DetachSlotsKeeps(m, c, stray, n - 1, c);
      var p := DetachSlots(m, c, stray, n - 1);
      var s := p.slots[n - 1];
      if Free(s) || s.eqpClass == HARD { FreeLeft(p, n - 1, c); } else { SlotLeft(p, n - 1, s.eqpClass, c, stray(n - 1)); }
    }
  }

  /** DISCONNECT from an object leaves its slots, and from hardware their masks; nothing else but the enabled sources
      changes. */
  lemma Disconnected(d: Driver, c: Client, cls: Class, k: nat, eqpNum: nat, stray: nat -> bool)
    requires DriverOk(d) && Sized(d) && k < |d.modules| && (cls != HARD ==> eqpNum != 0)
    ensures var (d', err) := Step(d, Op.Disconnect(c, cls, k, eqpNum, stray));
            && err == OK && OnlyModule(d, d', k)
            && var m, m' := d.modules[k], d'.modules[k];
               if cls != HARD then ObjectLeft(m, m', eqpNum, cls, c, 2048)
               else m'.slots == m.slots && |m'.hard| == |m.hard| && forall s :: 0 <= s < |m.hard| ==> m'.hard[s] == m.hard[s] - {c}
  {
    hide DetachObject, DetachSources, ObjectLeft;
    var m := d.modules[k];
    assert ModuleOk(m);
    if cls == HARD {
      SourcesLeft(m, c);
    } else {
      ObjectLeaves(m, eqpNum, cls, c, stray, TABLE_SIZE);
    }
  }

  lemma SourcesLeft(m: Module, c: Client)
    requires ModuleOk(m)
    ensures Counted(m)
    ensures var r := DetachSources(m, c, SOURCES);
            && |r.hard| == |m.hard| == SOURCES && r.slots == m.slots
            && forall s :: 0 <= s < SOURCES ==> r.hard[s] == m.hard[s] - {c}
  {
    hide DetachSources;
    CountedOk(m);
    DetachSourcesEffect(m, c, SOURCES);
  }

  /** Closing a client leaves every slot and every source of every module. */
  lemma Closed(d: Driver, c: Client, strays: nat -> nat -> bool, k: nat)
    requires DriverOk(d) && Sized(d) && k < |d.modules|
    ensures var (d', err) := Step(d, Close(c, strays));
            && err == OK && OnlyModules(d, d')
            && var m, m' := d.modules[k], d'.modules[k];
               && |m'.slots| == |m.slots| && |m'.hard| == |m.hard|
               && (forall i :: 0 <= i < |m.slots| ==> LeftBy(m.slots[i], m'.slots[i], c))
               && forall s :: 0 <= s < |m.hard| ==> m'.hard[s] == m.hard[s] - {c}
  {
    hide DetachSlots, DetachSources, LeftBy, ModuleOk;
    var m := d.modules[k];
    assert ModuleOk(m);
    CountedOk(m);
    AllLeave(m, c, strays(k), TABLE_SIZE);
    var p := DetachSlots(m, c, strays(k), TABLE_SIZE);
    DetachSlotsKeeps(m, c, strays(k), TABLE_SIZE, c);
    SourcesLeft(p, c);
    ModuleSizes(m);
  }

  lemma ModuleSizes(m: Module)
    requires ModuleOk(m)
    ensures |m.slots| == TABLE_SIZE && |m.hard| == SOURCES
  {
  }

  // ---------- PTIM objects ----------

  /** Slots start to start + size of the module are owned and driven by the counter; nothing else has changed. */
  ghost predicate RunOwned(m: Module, m': Module, eqpNum: nat, counter: nat, start: nat, size: nat) {
    && m' == m.(slots := m'.slots) && |m'.slots| == |m.slots|
    && forall i :: 0 <= i < |m.slots| ==>
         m'.slots[i] == if start <= i < start + size
                        then m.slots[i].(eqpNum := eqpNum, eqpClass := PTIM, trig := m.slots[i].trig.(counter := counter))
                        else m.slots[i]
  }

  ghost predicate LowestRun(slots: seq<Slot>, start: nat, n: nat) {
    RunFree(slots, start, n) && forall a: nat :: a < start ==> !RunFree(slots, a, n)
  }

  ghost predicate Bound(ptims: seq<PtimBinding>, eqpNum: nat) { exists b :: b in ptims && b.eqpNum == eqpNum }

  lemma BoundIndex(ptims: seq<PtimBinding>, eqpNum: nat)
    ensures Bound(ptims, eqpNum) <==> PtimIndex(ptims, eqpNum) < |ptims|
  {
    if PtimIndex(ptims, eqpNum) < |ptims| { assert ptims[PtimIndex(ptims, eqpNum)] in ptims; }
  }

  /** CREATE_PTIM takes and binds the lowest run of free slots that is long enough, a size of zero needing one; refused if
      the number is bound, there is no room for a binding, no such module or no such run. */
  lemma PtimCreated(d: Driver, eqpNum: nat, k: nat, counter: nat, size: nat)
    requires DriverOk(d) && Sized(d) && eqpNum != 0 && counter < COUNTERS
    ensures var (d', err) := Step(d, CreatePtim(eqpNum, k, counter, size));
            var n := if size == 0 then 1 else size;
            && (err == EBUSY <==> Bound(d.ptims, eqpNum))
            && (err == ENOMEM <==> !Bound(d.ptims, eqpNum) && |d.ptims| >= 2048)
            && (err == OK <==> !Bound(d.ptims, eqpNum) && |d.ptims| < 2048 && k < |d.modules| &&
                               exists a: nat :: RunFree(d.modules[k].slots, a, n))
            && (err != OK ==> d' == d)
            && (err == OK ==>
                  && d'.ctims == d.ctims && |d'.modules| == |d.modules|
                  && (forall j :: 0 <= j < |d.modules| && j != k ==> d'.modules[j] == d.modules[j])
                  && exists start: nat :: LowestRun(d.modules[k].slots, start, n) &&
                       RunOwned(d.modules[k], d'.modules[k], eqpNum, counter, start, size) &&
                       d'.ptims == d.ptims + [PtimBinding(eqpNum, k, counter, size, start)])
  {
    hide DriverOk, RunFree, RunOwned, Bound, Occupy, Counted;
    BoundIndex(d.ptims, eqpNum);
    var n := if size == 0 then 1 else size;
    if k < |d.modules| {
      var fit := FirstFit(d.modules[k].slots, n, 0);
      if fit.Some? {
        RunTaken(d.modules[k], fit.value, size, eqpNum, counter);
        assert LowestRun(d.modules[k].slots, fit.value, n);
      }
    }
  }

  lemma RunTaken(m: Module, start: nat, size: nat, eqpNum: nat, counter: nat)
    ensures RunOwned(m, Occupy(m, start, size, eqpNum, counter), eqpNum, counter, start, size)
  {
  }

  ghost predicate InUse(m: Module, eqpNum: nat) {
    exists i :: 0 <= i < |m.slots| && IsObject(m.slots[i], eqpNum, PTIM) && m.slots[i].clients != {}
  }

  /** A slot that GET_ACTION reads as nothing at all. */
  predicate Cleared(s: Slot) {
    && s.eqpNum == 0 && s.eqpClass == HARD && s.clients == {} && s.hwTrig == HwTrigger(0, 0) && s.hwConf == HwConfig(0, 0)
    && s.trig == Trigger(0, 0, 0, 0, 0, 0, 0) && s.conf == Config(0, 0, 0, 0, 0, 0)
  }

  /** DESTROY_PTIM is refused while some client is connected on the module, and if the object has no slot there. Then
      its slots are cleared, and its binding and no other goes. */
  lemma PtimDestroyed(d: Driver, eqpNum: nat, k: nat)
    requires DriverOk(d) && Sized(d) && eqpNum != 0
    ensures var (d', err) := Step(d, DestroyPtim(eqpNum, k));
            && (err == EBUSY <==> k < |d.modules| && InUse(d.modules[k], eqpNum))
            && (err == OK <==> HasSlot(d, k, eqpNum, PTIM) && !InUse(d.modules[k], eqpNum))
            && (err != OK ==> (err == EBUSY || err == EINVAL) && d' == d)
            && (err == OK ==>
                  && d'.ctims == d.ctims && |d'.modules| == |d.modules|
                  && (forall j :: 0 <= j < |d.modules| && j != k ==> d'.modules[j] == d.modules[j])
                  && (forall b :: b in d'.ptims <==> b in d.ptims && b.eqpNum != eqpNum)
                  && SlotsCleared(d.modules[k], d'.modules[k], eqpNum))
  {
    hide Release, SwapRemove, SlotsCleared, DriverOk, ObjectBusy, InUse, HasSlot, Counted;
    if k < |d.modules| {
      var m := d.modules[k];
      BusyIs(m, eqpNum);
      HasSlotIs(d, k, eqpNum, PTIM);
      var i := FirstObject(m.slots, eqpNum, PTIM);
      if i < |m.slots| {
        WhereSlotsAre(d, eqpNum, k, i);
        BindingGoes(d, eqpNum);
        if !ObjectBusy(m, eqpNum) { ReleasedCleared(m, eqpNum); }
      }
    }
    NoModule(d, k, eqpNum, PTIM);
  }

  lemma BusyIs(m: Module, eqpNum: nat)
    ensures ObjectBusy(m, eqpNum) <==> InUse(m, eqpNum)
  {
  }

  lemma HasSlotIs(d: Driver, k: nat, eqpNum: nat, cls: Class)
    requires k < |d.modules|
    ensures HasSlot(d, k, eqpNum, cls) <==> FirstObject(d.modules[k].slots, eqpNum, cls) < |d.modules[k].slots|
  {
    if !HasSlot(d, k, eqpNum, cls) { NoInstance(d, k, eqpNum, cls); }
  }

  lemma NoModule(d: Driver, k: nat, eqpNum: nat, cls: Class)
    ensures k >= |d.modules| ==> !HasSlot(d, k, eqpNum, cls)
  {
  }

  ghost predicate SlotsCleared(m: Module, m': Module, eqpNum: nat) {
    && m' == m.(slots := m'.slots) && |m'.slots| == |m.slots|
    && forall i :: 0 <= i < |m.slots| ==>
         if IsObject(m.slots[i], eqpNum, PTIM) then Cleared(m'.slots[i]) else m'.slots[i] == m.slots[i]
  }

  lemma ReleasedCleared(m: Module, eqpNum: nat)
    requires !ObjectBusy(m, eqpNum)
    ensures SlotsCleared(m, Release(m, eqpNum), eqpNum)
  {
    hide ConfigToHard;
  }

  lemma BindingGoes(d: Driver, eqpNum: nat)
    requires DriverOk(d) && PtimIndex(d.ptims, eqpNum) < |d.ptims|
    ensures forall b :: b in SwapRemove(d.ptims, PtimIndex(d.ptims, eqpNum)) <==> b in d.ptims && b.eqpNum != eqpNum
  {
    var p := PtimIndex(d.ptims, eqpNum);
    var r := SwapRemove(d.ptims, p);
    assert Distinct(d.ptims);
    forall b ensures b in r <==> b in d.ptims && b.eqpNum != eqpNum {
      SwapRemoved(d.ptims, p, b);
    }
  }

  lemma SwapRemoved<T(!new)>(s: seq<T>, i: nat, x: T)
    requires i < |s| && forall a, b :: 0 <= a < b < |s| ==> s[a] != s[b]
    ensures x in SwapRemove(s, i) <==> x in s && x != s[i]
  {
    var r := SwapRemove(s, i);
    if x in s && x != s[i] {
      var j :| 0 <= j < |s| && s[j] == x;
      assert r[if j == |s| - 1 then i else j] == x;
    }
    if x in r {
      var j :| 0 <= j < |r| && r[j] == x;
      assert x == if j == i then s[|s| - 1] else s[j];
    }
  }

  // ---------- CTIM definitions ----------

  ghost predicate NumbersDiffer(ctims: seq<CtimBinding>) {
    forall i, j :: 0 <= i < j < |ctims| ==> ctims[i].eqpNum != ctims[j].eqpNum
  }

  ghost predicate Known(ctims: seq<CtimBinding>, eqpNum: nat) { exists b :: b in ctims && b.eqpNum == eqpNum }

  /** Some trigger of the module carries the number. */
  ghost predicate Carried(m: Module, eqpNum: nat) { exists i :: 0 <= i < |m.slots| && m.slots[i].trig.ctim == eqpNum }

  lemma KnownIndex(ctims: seq<CtimBinding>, eqpNum: nat)
    ensures Known(ctims, eqpNum) <==> CtimIndex(ctims, eqpNum) < |ctims|
  {
    if CtimIndex(ctims, eqpNum) < |ctims| { assert ctims[CtimIndex(ctims, eqpNum)] in ctims; }
  }

  // The definitions are a map from numbers to frames.

  /** CREATE_CTIM adds a definition if the number is new and there is room. */
  lemma CtimAdded(d: Driver, eqpNum: nat, frame: nat)
    requires Sized(d) && NumbersDiffer(d.ctims) && eqpNum != 0
    ensures var (d', err) := Step(d, CreateCtim(eqpNum, frame));
            && (err == OK <==> !Known(d.ctims, eqpNum) && |d.ctims| < 2048) && Redefined(d, d', err)
            && (err == OK ==> forall b :: b in d'.ctims <==> b in d.ctims || b == CtimBinding(eqpNum, frame))
  {
    hide Counted;
    KnownIndex(d.ctims, eqpNum);
  }

  /** DESTROY_CTIM removes it, if the module carries it nowhere. */
  lemma CtimRemoved(d: Driver, eqpNum: nat, k: nat)
    requires Sized(d) && NumbersDiffer(d.ctims) && k < |d.modules|
    ensures var (d', err) := Step(d, DestroyCtim(eqpNum, k));
            && (err == OK <==> Known(d.ctims, eqpNum) && !Carried(d.modules[k], eqpNum)) && Redefined(d, d', err)
            && (err == OK ==> forall b :: b in d'.ctims <==> b in d.ctims && b.eqpNum != eqpNum)
  {
    hide Counted, DoConnect, DoCreatePtim, DoDestroyPtim, DisconnectAll, CtrTables.Disconnect, CtrTables.SetAction, SwapRemove;
    KnownIndex(d.ctims, eqpNum);
    assert CtimNamed(d.modules[k], eqpNum) <==> Carried(d.modules[k], eqpNum);
    if Known(d.ctims, eqpNum) { DefinitionGoes(d.ctims, eqpNum); }
  }

  lemma DefinitionGoes(ctims: seq<CtimBinding>, eqpNum: nat)
    requires NumbersDiffer(ctims) && CtimIndex(ctims, eqpNum) < |ctims|
    ensures var r := SwapRemove(ctims, CtimIndex(ctims, eqpNum));
            NumbersDiffer(r) && forall b :: b in r <==> b in ctims && b.eqpNum != eqpNum
  {
    var i := CtimIndex(ctims, eqpNum);
    forall b ensures b in SwapRemove(ctims, i) <==> b in ctims && b.eqpNum != eqpNum { SwapRemoved(ctims, i, b); }
  }

  /** CHANGE_CTIM_FRAME replaces its frame, if the module carries it nowhere. */
  lemma CtimChanged(d: Driver, eqpNum: nat, frame: nat, k: nat)
    requires Sized(d) && NumbersDiffer(d.ctims) && k < |d.modules|
    ensures var (d', err) := Step(d, ChangeCtim(eqpNum, frame, k));
            && (err == OK <==> Known(d.ctims, eqpNum) && !Carried(d.modules[k], eqpNum)) && Redefined(d, d', err)
            && (err == OK ==> forall b :: b in d'.ctims <==> (b in d.ctims && b.eqpNum != eqpNum) || b == CtimBinding(eqpNum, frame))
  {
    hide Counted;
    KnownIndex(d.ctims, eqpNum);
    assert CtimNamed(d.modules[k], eqpNum) <==> Carried(d.modules[k], eqpNum);
    var i := CtimIndex(d.ctims, eqpNum);
    if i < |d.ctims| { Replaced(d.ctims, i, CtimBinding(eqpNum, frame)); }
  }

  /** In every reachable state the numbers defined are different. */
  lemma {:induction false} NumbersStayDifferent(d: Driver, ops: seq<Op>)
    requires DriverOk(d) && NumbersDiffer(d.ctims) && forall i :: 0 <= i < |ops| ==> WellFormed(ops[i], |d.modules|)
    ensures NumbersDiffer(Run(d, ops).ctims)
    decreases |ops|
  {
    hide Step, WellFormed, DriverOk, NumbersDiffer;
    if ops != [] {
      SizedOf(d);
      StepKeeps(d, ops[0], 0);
      OtherSteps(d, ops[0]);
      NumbersStayDifferent(Step(d, ops[0]).0, ops[1..]);
    }
  }

  lemma OtherSteps(d: Driver, op: Op)
    requires Sized(d) && NumbersDiffer(d.ctims) && WellFormed(op, |d.modules|)
    ensures NumbersDiffer(Step(d, op).0.ctims)
  {
    hide NumbersDiffer;
    match op
    case CreateCtim(e, frame) => CtimAdded(d, e, frame);
    case DestroyCtim(e, k) => CtimRemoved(d, e, k);
    case ChangeCtim(e, frame, k) => CtimChanged(d, e, frame, k);
    case _ =>
  }

  /** Only the definitions may have changed, and only by a request that succeeded. */
  ghost predicate Redefined(d: Driver, d': Driver, err: Errno) {
    d'.modules == d.modules && d'.ptims == d.ptims && NumbersDiffer(d'.ctims) && (err != OK ==> d' == d)
  }

  lemma Replaced(ctims: seq<CtimBinding>, i: nat, x: CtimBinding)
    requires NumbersDiffer(ctims) && i < |ctims| && ctims[i].eqpNum == x.eqpNum
    ensures NumbersDiffer(ctims[i := x])
    ensures forall b :: b in ctims[i := x] <==> (b in ctims && b.eqpNum != x.eqpNum) || b == x
  {
    forall b | b in ctims && b.eqpNum != x.eqpNum ensures b in ctims[i := x] {
      var j :| 0 <= j < |ctims| && ctims[j] == b;
      assert ctims[i := x][j] == b;
    }
    forall b | b in ctims[i := x] && b != x ensures b in ctims && b.eqpNum != x.eqpNum {
      var j :| 0 <= j < |ctims| && ctims[i := x][j] == b;
      assert j != i && ctims[j] == b;
    }
    assert ctims[i := x][i] == x;
  }

  // ---------- actions ----------

  /** SET_ACTION writes trigger and configuration of one slot, in the driver's table and in the hardware, with the BUS bit
      of the configuration overridden by whether a client is connected; nothing else changes. */
  lemma ActionWritten(d: Driver, k: nat, number: nat, act: Action)
    requires DriverOk(d) && Sized(d) && k < |d.modules|
    ensures var (d', err) := Step(d, Op.SetAction(k, number, act));
            && (err == OK || err == EINVAL) && (err != OK ==> d' == d)
            && (err == OK ==>
                  && OnlyModule(d, d', k) && 1 <= number <= |d.modules[k].slots|
                  && var m, m', i := d.modules[k], d'.modules[k], number - 1;
                     && m' == m.(slots := m'.slots) && |m'.slots| == |m.slots|
                     && (forall j :: 0 <= j < |m.slots| && j != i ==> m'.slots[j] == m.slots[j])
                     && m'.slots[i] == m.slots[i].(trig := act.trig, hwTrig := TriggerToHard(act.trig), hwConf := m'.slots[i].hwConf,
                                                   conf := WithBus(act.conf, m.slots[i].clients != {}))
                     && m'.slots[i].hwConf == ConfigToHard(WithBus(act.conf, m.slots[i].clients != {})))
  {
    hide TriggerToHard, ConfigToHard, OnZeroWithBus, WithBus, Counted;
    var m := d.modules[k];
    if 1 <= number <= |m.slots| {
      OverrideIsWithBus(act.conf, m.slots[number - 1].clients != {});
      assert ModuleOk(m);
      assert SlotOk(m.slots[number - 1]);
    }
    assert Put(d, k, m) == d;
  }
}
