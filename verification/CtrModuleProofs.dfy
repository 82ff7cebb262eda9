/** What every operation on one CTR module keeps. */
module CtrModuleProofs {
  import Bits
  import opened CtrPacking
  import opened CtrTables

  /** A free slot belongs to nobody; a connected slot raises bus interrupts; a CTIM slot exists only
      while some client is connected to it, and works through counter 0. */
  predicate SlotOk(s: Slot) {
    && (Free(s) <==> s.eqpClass == HARD)
    && (Free(s) ==> s.clients == {})
    && (s.clients != {} ==> BusEnabled(s.hwConf))
    && (s.eqpClass == CTIM ==> s.clients != {} && s.trig.counter == 0)
    && (!Free(s) ==> s.trig.counter < COUNTERS)
  }

  ghost predicate CtimUnique(slots: seq<Slot>) {
    forall i, j :: 0 <= i < j < |slots| && slots[i].eqpClass == CTIM && slots[j].eqpClass == CTIM ==>
      slots[i].eqpNum != slots[j].eqpNum
  }

  ghost predicate ModuleOk(m: Module) {
    && |m.slots| == TABLE_SIZE
    && |m.hard| == SOURCES
    && (forall i :: 0 <= i < |m.slots| ==> SlotOk(m.slots[i]))
    && CtimUnique(m.slots)
    && m.enabled == m.hwEnabled
  }

  /** Every interrupt source that client b is connected to, directly or through a slot, is enabled. */
  ghost predicate Serves(m: Module, b: Client) {
    && (forall i :: 0 <= i < |m.slots| && b in m.slots[i].clients ==> m.slots[i].trig.counter in m.enabled)
    && (forall i :: 0 <= i < |m.hard| && b in m.hard[i] ==> i in m.enabled)
  }

  ghost predicate Absent(m: Module, c: Client) {
    && (forall i :: 0 <= i < |m.slots| ==> c !in m.slots[i].clients)
    && (forall i :: 0 <= i < |m.hard| ==> c !in m.hard[i])
  }

  // ---------- connecting ----------

  lemma AttachOk(s: Slot, c: Client)
    requires SlotOk(s) && !Free(s)
    ensures SlotOk(Attach(s, c))
  {
    BusBitOnly(s.hwConf, BUS_POSITION);
  }

  lemma ConnectPtimOk(m: Module, eqpNum: nat, c: Client)
    requires ModuleOk(m) && eqpNum != 0
    ensures ModuleOk(ConnectPtim(m, eqpNum, c))
  {
    var m' := ConnectPtim(m, eqpNum, c);
    forall i | 0 <= i < |m'.slots| ensures SlotOk(m'.slots[i]) {
      if IsObject(m.slots[i], eqpNum, PTIM) { AttachOk(m.slots[i], c); }
    }
  }

  lemma ConnectPtimServes(m: Module, eqpNum: nat, c: Client, b: Client)
    requires Serves(m, b)
    ensures Serves(ConnectPtim(m, eqpNum, c), b)
  {
    var m' := ConnectPtim(m, eqpNum, c);
    forall i | 0 <= i < |m'.slots| && b in m'.slots[i].clients ensures m'.slots[i].trig.counter in m'.enabled {
    }
  }

  lemma ConnectCtimOk(m: Module, eqpNum: nat, frame: Option<nat>, c: Client)
    requires ModuleOk(m) && eqpNum != 0
    ensures ModuleOk(ConnectCtim(m, eqpNum, frame, c).0)
  {
    var i := FirstObject(m.slots, eqpNum, CTIM);
    if i < |m.slots| {
      AttachOk(m.slots[i], c);
    } else {
      forall j | 0 <= j < |m.slots| && m.slots[j].eqpClass == CTIM ensures m.slots[j].eqpNum != eqpNum {
        assert !IsObject(m.slots[j], eqpNum, CTIM);
      }
    }
  }

  lemma ConnectCtimServes(m: Module, eqpNum: nat, frame: Option<nat>, c: Client, b: Client)
    requires ModuleOk(m) && Serves(m, b)
    ensures Serves(ConnectCtim(m, eqpNum, frame, c).0, b)
  {
  }

  lemma ConnectHardOk(m: Module, bits: set<nat>, c: Client, b: Client)
    requires ModuleOk(m)
    ensures ModuleOk(ConnectHard(m, bits, c).0)
    ensures Serves(m, b) ==> Serves(ConnectHard(m, bits, c).0, b)
  {
  }

  // ---------- disconnecting ----------

  /** DisableInterrupts never clears a source another client needs. */
  lemma DisableKeepsOthers(m: Module, tndx: nat, cls: Class, c: Client, stray: bool, b: Client)
    requires |m.hard| == SOURCES
    requires cls != HARD ==> tndx < |m.slots| && m.slots[tndx].trig.counter < SOURCES
    requires cls == HARD ==> tndx < SOURCES
    requires forall i :: 0 <= i < |m.slots| && m.slots[i].clients != {} ==> m.slots[i].trig.counter < COUNTERS
    requires b != c && Serves(m, b)
    ensures Serves(DisableInterrupts(m, tndx, cls, c, stray), b)
  {
    if !StillUsed(m, tndx, cls, c, stray) {
      var src := SourceOf(m, tndx, cls);
      forall i | 0 <= i < |m.slots| && b in m.slots[i].clients ensures m.slots[i].trig.counter != src {
        assert b in m.slots[i].clients - {c};
      }
      assert b in m.hard[src] <==> b in m.hard[src] - {c};
    }
  }

  lemma VacatedOk(s: Slot)
    requires s.clients == {} && (Free(s) <==> s.eqpClass == HARD) && (!Free(s) ==> s.trig.counter < COUNTERS)
    ensures SlotOk(Vacated(s))
  {
  }

  /** Replacing one slot by a sound one with the same owner, or by one that is not a CTIM slot. */
  lemma ReplaceSlotOk(m: Module, i: nat, s: Slot)
    requires ModuleOk(m) && i < |m.slots| && SlotOk(s)
    requires s.eqpClass == CTIM ==> m.slots[i].eqpClass == CTIM && s.eqpNum == m.slots[i].eqpNum
    ensures ModuleOk(m.(slots := m.slots[i := s]))
  {
  }

  lemma DetachSlotOk(m: Module, tndx: nat, cls: Class, c: Client, stray: bool)
    requires ModuleOk(m) && tndx < |m.slots| && cls != HARD && m.slots[tndx].eqpClass != HARD
    ensures Counted(m) && ModuleOk(DetachSlot(m, tndx, cls, c, stray))
  {
    var s := m.slots[tndx];
    assert SlotOk(s);
    if c in s.clients {
      var s' := s.(clients := s.clients - {c});
      if s'.clients == {} {
        VacatedOk(s');
        ReplaceSlotOk(m, tndx, Vacated(s'));
        assert m.slots[tndx := s'][tndx := Vacated(s')] == m.slots[tndx := Vacated(s')];
      } else {
        ReplaceSlotOk(m, tndx, s');
      }
    }
  }

  lemma DetachSlotServes(m: Module, tndx: nat, cls: Class, c: Client, stray: bool, b: Client)
    requires ModuleOk(m) && tndx < |m.slots| && cls != HARD && m.slots[tndx].eqpClass != HARD
    requires b != c && Serves(m, b)
    ensures Counted(m) && Serves(DetachSlot(m, tndx, cls, c, stray), b)
  {
    var s := m.slots[tndx];
    if c in s.clients {
      var s' := s.(clients := s.clients - {c});
      var m' := m.(slots := m.slots[tndx := s']);
      assert Serves(m', b);
      if s'.clients == {} {
        forall i | 0 <= i < |m'.slots| && m'.slots[i].clients != {} ensures m'.slots[i].trig.counter < COUNTERS {
          assert SlotOk(m.slots[i]);
        }
        DisableKeepsOthers(m', tndx, cls, c, stray, b);
      }
    }
  }

  lemma DetachSlotKeeps(m: Module, tndx: nat, cls: Class, c: Client, stray: bool, b: Client)
    requires ModuleOk(m) && tndx < |m.slots| && cls != HARD && m.slots[tndx].eqpClass != HARD
    ensures Counted(m) && ModuleOk(DetachSlot(m, tndx, cls, c, stray))
    ensures b != c && Serves(m, b) ==> Serves(DetachSlot(m, tndx, cls, c, stray), b)
  {
    DetachSlotOk(m, tndx, cls, c, stray);
    if b != c && Serves(m, b) { DetachSlotServes(m, tndx, cls, c, stray, b); }
  }

  /** A detached slot no longer holds the client; every other slot keeps its clients and owner. */
  lemma DetachSlotFrame(m: Module, tndx: nat, cls: Class, c: Client, stray: bool)
    requires ModuleOk(m) && tndx < |m.slots| && cls != HARD && m.slots[tndx].eqpClass != HARD
    ensures Counted(m)
    ensures var r := DetachSlot(m, tndx, cls, c, stray);
            && |r.slots| == |m.slots| && r.hard == m.hard
            && c !in r.slots[tndx].clients
            && r.slots[tndx].clients == m.slots[tndx].clients - {c}
            && forall i :: 0 <= i < |m.slots| && i != tndx ==> r.slots[i] == m.slots[i]
  {
  }

  lemma DetachSourceKeeps(m: Module, src: nat, c: Client, b: Client)
    requires ModuleOk(m) && src < SOURCES
    ensures ModuleOk(DetachSource(m, src, c))
    ensures b != c && Serves(m, b) ==> Serves(DetachSource(m, src, c), b)
    ensures DetachSource(m, src, c).slots == m.slots
    ensures DetachSource(m, src, c).hard == m.hard[src := m.hard[src] - {c}]
  {
    var m' := m.(hard := m.hard[src := m.hard[src] - {c}]);
    if m.hard[src] != {} && m'.hard[src] == {} && b != c && Serves(m, b) {
      DisableKeepsOthers(m', src, HARD, c, false, b);
    }
    if m.hard[src] == {} {
      assert m.hard[src] - {c} == m.hard[src];
      assert m'.hard == m.hard;
    }
  }

  lemma {:induction false} DetachObjectKeeps(m: Module, eqpNum: nat, cls: Class, c: Client, stray: nat -> bool, n: nat, b: Client)
    requires ModuleOk(m) && n <= TABLE_SIZE && cls != HARD
    ensures ModuleOk(DetachObject(m, eqpNum, cls, c, stray, n))
    ensures b != c && Serves(m, b) ==> Serves(DetachObject(m, eqpNum, cls, c, stray, n), b)
    decreases n
  {
    hide DetachSlot, Serves;
    if n > 0 {
      DetachObjectKeeps(m, eqpNum, cls, c, stray, n - 1, b);
      var p := DetachObject(m, eqpNum, cls, c, stray, n - 1);
      if IsObject(p.slots[n - 1], eqpNum, cls) { DetachSlotKeeps(p, n - 1, cls, c, stray(n - 1), b); }
    }
  }

  lemma {:induction false} DetachSlotsKeeps(m: Module, c: Client, stray: nat -> bool, n: nat, b: Client)
    requires ModuleOk(m) && n <= TABLE_SIZE
    ensures ModuleOk(DetachSlots(m, c, stray, n))
    ensures b != c && Serves(m, b) ==> Serves(DetachSlots(m, c, stray, n), b)
    decreases n
  {
    hide DetachSlot, Serves;
    if n > 0 {
      DetachSlotsKeeps(m, c, stray, n - 1, b);
      var p := DetachSlots(m, c, stray, n - 1);
      var s := p.slots[n - 1];
      if !Free(s) && s.eqpClass != HARD {
        DetachSlotKeeps(p, n - 1, s.eqpClass, c, stray(n - 1), b);
      }
    }
  }

  lemma {:induction false} DetachSlotsRemoves(m: Module, c: Client, stray: nat -> bool, n: nat)
    requires ModuleOk(m) && n <= TABLE_SIZE
    ensures forall i :: 0 <= i < n ==> c !in DetachSlots(m, c, stray, n).slots[i].clients
    decreases n
  {
    if n > 0 {
      DetachSlotsRemoves(m, c, stray, n - 1);
      DetachSlotsKeeps(m, c, stray, n - 1, c);
      var p := DetachSlots(m, c, stray, n - 1);
      var s := p.slots[n - 1];
      assert SlotOk(s);
      if !Free(s) { DetachSlotFrame(p, n - 1, s.eqpClass, c, stray(n - 1)); }
    }
  }

  lemma {:induction false} DetachSourcesKeeps(m: Module, c: Client, n: nat, b: Client)
    requires ModuleOk(m) && n <= SOURCES
    ensures ModuleOk(DetachSources(m, c, n))
    ensures b != c && Serves(m, b) ==> Serves(DetachSources(m, c, n), b)
    ensures DetachSources(m, c, n).slots == m.slots
    ensures forall i :: 0 <= i < n ==> c !in DetachSources(m, c, n).hard[i]
    decreases n
  {
    if n > 0 {
      DetachSourcesKeeps(m, c, n - 1, b);
      DetachSourceKeeps(DetachSources(m, c, n - 1), n - 1, c, b);
    }
  }

  /** Closing a client leaves no trace of it, and takes nothing from anybody else. */
  lemma DisconnectAllKeeps(m: Module, c: Client, stray: nat -> bool, b: Client)
    requires ModuleOk(m)
    ensures ModuleOk(DisconnectAll(m, c, stray))
    ensures Absent(DisconnectAll(m, c, stray), c)
    ensures b != c && Serves(m, b) ==> Serves(DisconnectAll(m, c, stray), b)
  {
    DetachSlotsKeeps(m, c, stray, TABLE_SIZE, b);
    DetachSlotsRemoves(m, c, stray, TABLE_SIZE);
    DetachSourcesKeeps(DetachSlots(m, c, stray, TABLE_SIZE), c, SOURCES, b);
  }

  lemma DisconnectKeeps(m: Module, eqpNum: nat, cls: Class, c: Client, stray: nat -> bool, b: Client)
    requires ModuleOk(m)
    ensures ModuleOk(Disconnect(m, eqpNum, cls, c, stray))
    ensures b != c && Serves(m, b) ==> Serves(Disconnect(m, eqpNum, cls, c, stray), b)
  {
    if cls == HARD { DetachSourcesKeeps(m, c, SOURCES, b); }
    else { DetachObjectKeeps(m, eqpNum, cls, c, stray, TABLE_SIZE, b); }
  }

  // ---------- objects and actions ----------

  lemma OccupyKeeps(m: Module, start: nat, size: nat, eqpNum: nat, counter: nat, b: Client)
    requires ModuleOk(m) && RunFree(m.slots, start, size) && eqpNum != 0 && counter < COUNTERS
    ensures ModuleOk(Occupy(m, start, size, eqpNum, counter))
    ensures Serves(m, b) ==> Serves(Occupy(m, start, size, eqpNum, counter), b)
  {
  }

  lemma ReleaseKeeps(m: Module, eqpNum: nat, b: Client)
    requires ModuleOk(m) && eqpNum != 0 && !ObjectBusy(m, eqpNum)
    ensures ModuleOk(Release(m, eqpNum))
    ensures Serves(m, b) ==> Serves(Release(m, eqpNum), b)
  {
    var m' := Release(m, eqpNum);
    forall i | 0 <= i < |m'.slots| ensures SlotOk(m'.slots[i]) {
      assert SlotOk(m.slots[i]);
    }
  }

  /** The configuration read back after writing conf to a slot, with or without connected clients. */
  function WithBus(conf: Config, bus: bool): Config {
    conf.(onZero := conf.onZero - conf.onZero % 2 + (if bus then 1 else 0))
  }

  lemma OverrideIsWithBus(conf: Config, bus: bool)
    ensures conf.(onZero := OnZeroWithBus(conf.onZero, bus)) == WithBus(conf, bus)
    ensures ConfigInRange(conf) ==> ConfigInRange(WithBus(conf, bus))
  {
    OnZeroOverride(conf.onZero, bus);
    Bits.Pow2Values();
  }

  lemma BusAfterAction(conf: Config, bus: bool)
    ensures BusEnabled(ConfigToHard(conf.(onZero := OnZeroWithBus(conf.onZero, bus)))) <==> bus
  {
    var conf' := WithBus(conf, bus);
    assert BusEnabled(ConfigToHard(conf')) <==> conf'.onZero % 2 == 1 by { PackedBusBit(conf'); }
    assert conf'.onZero % 2 == 1 <==> bus;
    OverrideIsWithBus(conf, bus);
  }

  lemma SetActionSlotOk(s: Slot, act: Action)
    requires SlotOk(s) && !ActionRefused(s, act)
    ensures SlotOk(SetActionSlot(s, act))
    ensures var s' := SetActionSlot(s, act);
            s'.eqpNum == s.eqpNum && s'.eqpClass == s.eqpClass && s'.clients == s.clients && s'.trig.counter == s.trig.counter
  {
    BusAfterAction(act.conf, s.clients != {});
  }

  lemma SetActionKeeps(m: Module, number: nat, act: Action, b: Client)
    requires ModuleOk(m)
    ensures ModuleOk(SetAction(m, number, act).0)
    ensures Serves(m, b) ==> Serves(SetAction(m, number, act).0, b)
  {
    hide SetActionSlot, SlotOk, CtimUnique;
    if 1 <= number <= |m.slots| && !ActionRefused(m.slots[number - 1], act) {
      var s := m.slots[number - 1];
      SetActionSlotOk(s, act);
      ReplaceSlotOk(m, number - 1, SetActionSlot(s, act));
    }
  }

  lemma ReadBackConfig(conf: Config, bus: bool)
    requires ConfigInRange(conf)
    ensures HardToConfig(ConfigToHard(conf.(onZero := OnZeroWithBus(conf.onZero, bus)))) == WithBus(conf, bus)
  {
    OverrideIsWithBus(conf, bus);
    ConfigSoftRoundTrip(WithBus(conf, bus));
  }

  /** Writing an action and reading it back gives the trigger and configuration written, except that the
      bus-interrupt bit says whether any client is connected. */
  lemma SetThenGet(m: Module, number: nat, act: Action)
    requires TriggerInRange(act.trig) && ConfigInRange(act.conf)
    ensures SetAction(m, number, act).1 == OK ==>
              && 1 <= number <= |m.slots| && m.slots[number - 1].eqpClass != HARD
              && var slot := m.slots[number - 1];
                 GetAction(SetAction(m, number, act).0, number) == Some(act.(conf := WithBus(act.conf, slot.clients != {})))
  {
    hide TriggerToHard, HardToTrigger, ConfigToHard, HardToConfig;
    if SetAction(m, number, act).1 == OK {
      TriggerSoftRoundTrip(act.trig);
      ReadBackConfig(act.conf, m.slots[number - 1].clients != {});
    }
  }

  /** GET_ACTION answers for every slot number and no other, with what the hardware words hold: packed again, it is those
      words. Only the CTIM number comes from the driver's table. */
  lemma GetReadsHardware(m: Module, number: nat)
    ensures GetAction(m, number).Some? <==> 1 <= number <= |m.slots|
    ensures 1 <= number <= |m.slots| ==>
              var a, s := GetAction(m, number).value, m.slots[number - 1];
              && a.eqpNum == s.eqpNum && a.eqpClass == s.eqpClass && a.trig.ctim == s.trig.ctim
              && (s.hwTrig.trigger < 0x1_0000_0000 && s.hwConf.config < 0x1_0000_0000 ==>
                    TriggerToHard(a.trig) == s.hwTrig && ConfigToHard(a.conf) == s.hwConf)
  {
    hide TriggerToHard, ConfigToHard, HardToConfig;
    if 1 <= number <= |m.slots| {
      var s := m.slots[number - 1];
      if s.hwTrig.trigger < 0x1_0000_0000 && s.hwConf.config < 0x1_0000_0000 { HardRoundTrip(s.hwTrig, s.hwConf, s.trig.ctim); }
    }
  }

  /** SET_ACTION succeeds exactly on an occupied slot whose owner and counter it leaves alone. */
  lemma SetActionSucceeds(m: Module, number: nat, act: Action)
    requires ModuleOk(m)
    ensures SetAction(m, number, act).1 == OK <==>
            1 <= number <= TABLE_SIZE && m.slots[number - 1].eqpNum != 0 &&
            m.slots[number - 1].eqpNum == act.eqpNum && m.slots[number - 1].eqpClass == act.eqpClass &&
            m.slots[number - 1].trig.counter == act.trig.counter
  {
    if 1 <= number <= TABLE_SIZE { assert SlotOk(m.slots[number - 1]); }
  }

  // ---------- a client's own disconnect ----------

  /** A client that leaves a hardware source keeps the rest of its own interrupts exactly when someone
      else still uses that source or it has no slot of its own on it: DisableInterrupts looks at the
      connections of the other clients only. */
  lemma OwnDisconnectExact(m: Module, src: nat, c: Client)
    requires ModuleOk(m) && Serves(m, c) && src < SOURCES && c in m.hard[src]
    ensures Serves(DetachSource(m, src, c), c) <==>
              || m.hard[src] - {c} != {}
              || OthersOnCounter(m.slots, src, c)
              || forall i :: 0 <= i < |m.slots| && c in m.slots[i].clients ==> m.slots[i].trig.counter != src
  {
    forall i | 0 <= i < |m.slots| && m.slots[i].clients != {} ensures m.slots[i].trig.counter < COUNTERS {
      assert SlotOk(m.slots[i]);
    }
    var r := DetachSource(m, src, c);
    assert r.slots == m.slots;
  }

  // ---------- what a client takes from itself ----------

  /** Someone other than c keeps the source of slot i enabled when c, alone on the slot, leaves it. */
  predicate KeptByOthers(m: Module, i: nat, c: Client, stray: bool)
    requires |m.hard| == SOURCES && i < |m.slots| && m.slots[i].trig.counter < SOURCES
  {
    var src := m.slots[i].trig.counter;
    m.hard[src] - {c} != {} || OthersOnCounter(m.slots, src, c) || (if i < SOURCES then m.hard[i] - {c} != {} else stray)
  }

  /** c alone on slot i leaves it and nobody else needs the source: the source goes off. */
  predicate SlotTurnsOff(m: Module, i: nat, c: Client, stray: bool)
    requires |m.hard| == SOURCES && i < |m.slots| && m.slots[i].trig.counter < SOURCES
  {
    m.slots[i].clients == {c} && !KeptByOthers(m, i, c, stray)
  }

  /** Removing c from a slot changes nothing about the others. */
  lemma OthersUnchanged(slots: seq<Slot>, slots': seq<Slot>, c: Client, src: nat)
    requires |slots| == |slots'|
    requires forall i :: 0 <= i < |slots| ==> slots'[i].clients - {c} == slots[i].clients - {c} && slots'[i].trig == slots[i].trig
    ensures OthersOnCounter(slots', src, c) <==> OthersOnCounter(slots, src, c)
  {
  }

  /** What leaving one slot does, in terms of the module before. */
  lemma DetachSlotEffect(m: Module, i: nat, cls: Class, c: Client, stray: bool)
    requires ModuleOk(m) && i < |m.slots| && cls != HARD && m.slots[i].eqpClass != HARD
    ensures Counted(m)
    ensures var r := DetachSlot(m, i, cls, c, stray);
            && r.hard == m.hard && |r.slots| == |m.slots|
            && (forall j :: 0 <= j < |m.slots| && j != i ==> r.slots[j] == m.slots[j])
            && r.slots[i].clients == m.slots[i].clients - {c} && r.slots[i].trig == m.slots[i].trig
            && r.enabled == if SlotTurnsOff(m, i, c, stray) then m.enabled - {m.slots[i].trig.counter} else m.enabled
  {
    hide OthersOnCounter, BusEnabled, ConfigToHard, TriggerToHard, DisableBus;
    assert SlotOk(m.slots[i]);
    var s := m.slots[i];
    if c in s.clients {
      var slots' := m.slots[i := s.(clients := s.clients - {c})];
      OthersUnchanged(m.slots, slots', c, s.trig.counter);
      assert s.clients - {c} == {} <==> s.clients == {c};
    }
  }

  /** A client that leaves a slot keeps the rest of its own interrupts exactly when the slot keeps other
      clients, others need the source, or it has no other connection to that source. */
  lemma OwnSlotExact(m: Module, i: nat, cls: Class, c: Client, stray: bool)
    requires ModuleOk(m) && Serves(m, c) && i < |m.slots| && cls != HARD && m.slots[i].eqpClass != HARD && c in m.slots[i].clients
    ensures Counted(m)
    ensures var src := m.slots[i].trig.counter;
            Serves(DetachSlot(m, i, cls, c, stray), c) <==>
              || m.slots[i].clients != {c}
              || KeptByOthers(m, i, c, stray)
              || (c !in m.hard[src] && forall j :: 0 <= j < |m.slots| && j != i && c in m.slots[j].clients ==> m.slots[j].trig.counter != src)
  {
    hide DetachSlot;
    DetachSlotEffect(m, i, cls, c, stray);
  }

  /** Among the first n slots, the source is turned off by the departure from one that belongs to the
      object. */
  ghost predicate TurnedOff(m: Module, eqpNum: nat, cls: Class, c: Client, stray: nat -> bool, n: nat, src: nat)
    requires Counted(m) && n <= TABLE_SIZE && cls != HARD
  {
    exists i: nat :: i < n && IsObject(m.slots[i], eqpNum, cls) && m.slots[i].trig.counter == src && SlotTurnsOff(m, i, c, stray(i))
  }

  /** The tables after c has left the object's slots among the first n. */
  ghost predicate Left(m: Module, r: Module, eqpNum: nat, cls: Class, c: Client, n: nat)
    requires |r.slots| == |m.slots|
  {
    && r.hard == m.hard
    && (forall j :: 0 <= j < |m.slots| ==> r.slots[j].trig == m.slots[j].trig)
    && (forall j :: n <= j < |m.slots| ==> r.slots[j] == m.slots[j])
    && forall j :: 0 <= j < |m.slots| ==>
         r.slots[j].clients == if j < n && IsObject(m.slots[j], eqpNum, cls) then m.slots[j].clients - {c} else m.slots[j].clients
  }

  lemma {:induction false} DetachObjectEffect(m: Module, eqpNum: nat, cls: Class, c: Client, stray: nat -> bool, n: nat)
    requires ModuleOk(m) && n <= TABLE_SIZE && cls != HARD
    ensures var r := DetachObject(m, eqpNum, cls, c, stray, n);
            && Left(m, r, eqpNum, cls, c, n)
            && forall src: nat :: src in r.enabled <==> src in m.enabled && !TurnedOff(m, eqpNum, cls, c, stray, n, src)
    decreases n
  {
    hide DetachSlot, TurnedOff, Left, SlotTurnsOff, ModuleOk;
    NothingLeft(m, eqpNum, cls, c, stray);
    if n > 0 {
      var k := n - 1;
      DetachObjectEffect(m, eqpNum, cls, c, stray, k);
      DetachObjectKeeps(m, eqpNum, cls, c, stray, k, c);
      var p := DetachObject(m, eqpNum, cls, c, stray, k);
      var r := DetachObject(m, eqpNum, cls, c, stray, n);
      SlotAsBefore(m, p, eqpNum, cls, c, k, stray(k));
      if IsObject(m.slots[k], eqpNum, cls) { DetachSlotEffect(p, k, cls, c, stray(k)); }
      LeftStep(m, p, r, eqpNum, cls, c, k);
      TurnedOffStep(m, eqpNum, cls, c, stray, k);
    }
  }

  lemma NothingLeft(m: Module, eqpNum: nat, cls: Class, c: Client, stray: nat -> bool)
    requires ModuleOk(m) && cls != HARD
    ensures Counted(m) && Left(m, m, eqpNum, cls, c, 0) && forall src: nat :: !TurnedOff(m, eqpNum, cls, c, stray, 0, src)
  {
  }

  lemma SlotAsBefore(m: Module, p: Module, eqpNum: nat, cls: Class, c: Client, k: nat, stray: bool)
    requires ModuleOk(m) && ModuleOk(p) && k < TABLE_SIZE && Left(m, p, eqpNum, cls, c, k) && cls != HARD
    ensures p.slots[k] == m.slots[k]
    ensures IsObject(m.slots[k], eqpNum, cls) ==>
              && m.slots[k].trig.counter < SOURCES
              && (SlotTurnsOff(p, k, c, stray) <==> SlotTurnsOff(m, k, c, stray))
  {
    if IsObject(m.slots[k], eqpNum, cls) {
      assert SlotOk(m.slots[k]);
      OthersUnchanged(m.slots, p.slots, c, m.slots[k].trig.counter);
    }
  }

  lemma LeftStep(m: Module, p: Module, r: Module, eqpNum: nat, cls: Class, c: Client, k: nat)
    requires |m.slots| == |p.slots| == |r.slots| && k < |m.slots| && Left(m, p, eqpNum, cls, c, k)
    requires r.hard == p.hard && forall j :: 0 <= j < |m.slots| && j != k ==> r.slots[j] == p.slots[j]
    requires r.slots[k].trig == p.slots[k].trig
    requires r.slots[k].clients == if IsObject(m.slots[k], eqpNum, cls) then p.slots[k].clients - {c} else p.slots[k].clients
    ensures Left(m, r, eqpNum, cls, c, k + 1)
  {
  }

  lemma TurnedOffStep(m: Module, eqpNum: nat, cls: Class, c: Client, stray: nat -> bool, k: nat)
    requires Counted(m) && k < TABLE_SIZE && cls != HARD
    ensures forall src: nat :: TurnedOff(m, eqpNum, cls, c, stray, k + 1, src) <==>
              || TurnedOff(m, eqpNum, cls, c, stray, k, src)
              || (IsObject(m.slots[k], eqpNum, cls) && m.slots[k].trig.counter == src && SlotTurnsOff(m, k, c, stray(k)))
  {
    hide SlotTurnsOff;
    forall src: nat
      ensures TurnedOff(m, eqpNum, cls, c, stray, k + 1, src) <==>
                || TurnedOff(m, eqpNum, cls, c, stray, k, src)
                || (IsObject(m.slots[k], eqpNum, cls) && m.slots[k].trig.counter == src && SlotTurnsOff(m, k, c, stray(k)))
    {
      if TurnedOff(m, eqpNum, cls, c, stray, k, src) {
        var i: nat :| i < k && IsObject(m.slots[i], eqpNum, cls) && m.slots[i].trig.counter == src && SlotTurnsOff(m, i, c, stray(i));
        assert i < k + 1;
      }
    }
  }

  lemma {:induction false} DetachSourcesEffect(m: Module, c: Client, n: nat)
    requires ModuleOk(m) && n <= SOURCES
    ensures var r := DetachSources(m, c, n);
            && r.slots == m.slots
            && (forall s :: 0 <= s < SOURCES ==> r.hard[s] == if s < n then m.hard[s] - {c} else m.hard[s])
            && forall s :: s in r.enabled <==>
                 s in m.enabled && !(0 <= s < n && m.hard[s] == {c} && !OthersOnCounter(m.slots, s, c))
    decreases n
  {
    if n > 0 {
      DetachSourcesEffect(m, c, n - 1);
      var p := DetachSources(m, c, n - 1);
      SourceLeft(p, n - 1, c, m);
    }
  }

  lemma SourceLeft(p: Module, s: nat, c: Client, m: Module)
    requires ModuleOk(m) && |p.hard| == SOURCES && p.slots == m.slots && s < SOURCES && p.hard[s] == m.hard[s]
    ensures var r := DetachSource(p, s, c);
            && r.slots == p.slots && r.hard == p.hard[s := p.hard[s] - {c}]
            && r.enabled == if m.hard[s] == {c} && !OthersOnCounter(m.slots, s, c) then p.enabled - {s} else p.enabled
  {
    forall i | 0 <= i < |m.slots| && m.slots[i].clients != {} ensures m.slots[i].trig.counter < COUNTERS {
      assert SlotOk(m.slots[i]);
    }
    assert p.hard[s] - {c} == {} && p.hard[s] != {} <==> p.hard[s] == {c};
  }

  /** The same for a whole disconnect. Leaving an object, or all hardware sources, a client keeps the rest
      of its own interrupts exactly when no source that goes off is one it still needs. */
  lemma OwnDisconnectWhole(m: Module, eqpNum: nat, cls: Class, c: Client, stray: nat -> bool)
    requires ModuleOk(m) && Serves(m, c)
    ensures Counted(m)
    ensures cls != HARD ==>
              (Serves(Disconnect(m, eqpNum, cls, c, stray), c) <==>
                 forall src: nat :: TurnedOff(m, eqpNum, cls, c, stray, TABLE_SIZE, src) ==>
                   && (src < SOURCES ==> c !in m.hard[src])
                   && forall j :: 0 <= j < |m.slots| && c in m.slots[j].clients && m.slots[j].trig.counter == src ==>
                        IsObject(m.slots[j], eqpNum, cls))
    ensures cls == HARD ==>
              (Serves(Disconnect(m, eqpNum, cls, c, stray), c) <==>
                 forall src :: 0 <= src < SOURCES && m.hard[src] == {c} && !OthersOnCounter(m.slots, src, c) ==>
                   forall j :: 0 <= j < |m.slots| && c in m.slots[j].clients ==> m.slots[j].trig.counter != src)
  {
    hide DetachObject, DetachSources, TurnedOff;
    if cls == HARD {
      DetachSourcesEffect(m, c, SOURCES);
      var r := DetachSources(m, c, SOURCES);
      assert forall s :: 0 <= s < SOURCES ==> c !in r.hard[s];
    } else {
      DetachObjectEffect(m, eqpNum, cls, c, stray, TABLE_SIZE);
      OwnObjectExact(m, DetachObject(m, eqpNum, cls, c, stray, TABLE_SIZE), eqpNum, cls, c, stray);
    }
  }

  lemma OwnObjectExact(m: Module, r: Module, eqpNum: nat, cls: Class, c: Client, stray: nat -> bool)
    requires ModuleOk(m) && Serves(m, c) && Counted(m) && cls != HARD && |r.slots| == |m.slots|
    requires Left(m, r, eqpNum, cls, c, TABLE_SIZE)
    requires forall src: nat :: src in r.enabled <==> src in m.enabled && !TurnedOff(m, eqpNum, cls, c, stray, TABLE_SIZE, src)
    ensures Serves(r, c) <==>
              forall src: nat :: TurnedOff(m, eqpNum, cls, c, stray, TABLE_SIZE, src) ==>
                && (src < SOURCES ==> c !in m.hard[src])
                && forall j :: 0 <= j < |m.slots| && c in m.slots[j].clients && m.slots[j].trig.counter == src ==>
                     IsObject(m.slots[j], eqpNum, cls)
  {
    hide TurnedOff;
    if Serves(r, c) {
      forall src: nat | TurnedOff(m, eqpNum, cls, c, stray, TABLE_SIZE, src)
        ensures src < SOURCES ==> c !in m.hard[src]
        ensures forall j :: 0 <= j < |m.slots| && c in m.slots[j].clients && m.slots[j].trig.counter == src ==>
                  IsObject(m.slots[j], eqpNum, cls)
      {
        assert src !in r.enabled;
      }
    }
  }
}
