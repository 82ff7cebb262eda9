/** The operations on a module context as the driver performs them: loops over the shared-index tables,
    updating them in place. Each is proved to compute the corresponding function of CtrTables. */
module CtrModule {
  import opened CtrPacking
  import opened CtrTables

  class ModuleContext {
    const slots: array<Slot>              // EqpNum, EqpClass, Trigs, Configs, Clients and the FPGA tables
    const hard: array<set<Client>>        // HardClients
    var interruptEnable: set<nat>
    var enableRegister: set<nat>

    ghost predicate Valid()
      reads this, slots, hard
    {
      Counted(View())
    }

    ghost function View(): Module
      reads this, slots, hard
    {
      Module(slots[..], hard[..], interruptEnable, enableRegister)
    }

    /** A module context as installation leaves it. */
    constructor (blank: Slot)
      requires blank.eqpClass == HARD
      ensures Valid() && fresh(slots) && fresh(hard)
      ensures View() == Module(seq(TABLE_SIZE, _ => blank), seq(SOURCES, _ => {}), {}, {})
    {
      slots := new Slot[TABLE_SIZE](_ => blank);
      hard := new set<Client>[SOURCES](_ => {});
      interruptEnable := {};
      enableRegister := {};
    }

    /** EnableInterrupts, apart from the PCI bridge set-up. */
    method EnableInterrupts(msk: set<nat>)
      modifies this
      ensures interruptEnable == old(interruptEnable) + msk && enableRegister == interruptEnable
    {
      interruptEnable := interruptEnable + msk;
      enableRegister := interruptEnable;
    }

    /** Returns the number of connections made. */
    method ConnectToPtim(eqpNum: nat, c: Client) returns (count: nat)
      requires Valid() && interruptEnable == enableRegister
      modifies this, slots
      ensures Valid()
      ensures View() == ConnectPtim(old(View()), eqpNum, c)
      ensures count > 0 <==> FirstObject(old(slots[..]), eqpNum, PTIM) < TABLE_SIZE
    {
      count := AttachSlots(eqpNum, c);
      if count > 0 {
        EnableInterrupts(interruptEnable);
        assert interruptEnable == old(interruptEnable) + CountersOf(old(slots[..]), eqpNum);
      }
    }

    method AttachSlots(eqpNum: nat, c: Client) returns (count: nat)
      requires Valid()
      modifies this`interruptEnable, slots
      ensures slots[..] == AttachAll(old(slots[..]), eqpNum, c)
      ensures interruptEnable == old(interruptEnable) + CountersOf(old(slots[..]), eqpNum)
      ensures count > 0 <==> FirstObject(old(slots[..]), eqpNum, PTIM) < TABLE_SIZE
      ensures count == 0 ==> CountersOf(old(slots[..]), eqpNum) == {}
    {
      hide CountersOf, AttachAll, Attach, FirstObject;
      count := 0;
      ghost var before := slots[..];
      NoCounters(eqpNum);
      assert before[..0] == [];
      ghost var first := FirstObject(before, eqpNum, PTIM);
      ghost var after := AttachAll(before, eqpNum, c);
      for i := 0 to TABLE_SIZE
        invariant forall j :: 0 <= j < TABLE_SIZE ==> slots[j] == if j < i then after[j] else before[j]
        invariant interruptEnable == old(interruptEnable) + CountersOf(before[..i], eqpNum)
        invariant count > 0 <==> first < i
        invariant count == 0 ==> CountersOf(before[..i], eqpNum) == {}
      {
        SlotAttached(before, eqpNum, c, i);
        if slots[i].eqpNum == eqpNum && slots[i].eqpClass == PTIM {
          count := count + 1;
          slots[i] := Attach(slots[i], c);
          interruptEnable := interruptEnable + {slots[i].trig.counter};
        }
      }
      assert before[..TABLE_SIZE] == before;
    }

    method ConnectToCtim(eqpNum: nat, frame: Option<nat>, c: Client) returns (e: Errno)
      requires Valid() && interruptEnable == enableRegister
      modifies this, slots
      ensures Valid()
      ensures (View(), e) == ConnectCtim(old(View()), eqpNum, frame, c)
    {
      hide TriggerToHard, ConfigToHard;
      ghost var before := slots[..];
      var i := 0;
      while i < TABLE_SIZE && !(slots[i].eqpNum == eqpNum && slots[i].eqpClass == CTIM)
        invariant 0 <= i <= TABLE_SIZE
        invariant forall j :: 0 <= j < i ==> !IsObject(before[j], eqpNum, CTIM)
      {
        i := i + 1;
      }
      FirstObjectIs(before, eqpNum, CTIM, i);
      if i < TABLE_SIZE {
        slots[i] := Attach(slots[i], c);
        EnableInterrupts({0});
        assert slots[..] == before[i := Attach(before[i], c)];
        return OK;
      }
      if frame.None? {
        return ENXIO;
      }
      i := 0;
      while i < TABLE_SIZE && slots[i].eqpNum != 0
        invariant 0 <= i <= TABLE_SIZE
        invariant forall j :: 0 <= j < i ==> !Free(before[j])
      {
        i := i + 1;
      }
      FirstFreeIs(before, i);
      if i == TABLE_SIZE {
        return ENOMEM;
      }
      var trig := Trigger(eqpNum, frame.value, 0, 0, 0, 0, 0);
      var conf := Config(ON_ZERO_BUS, 0, 0, 0, 0, 0);
      InstancePacked(eqpNum, frame.value);
      slots[i] := Slot(eqpNum, CTIM, trig, conf, slots[i].clients + {c}, TriggerToHard(trig), ConfigToHard(conf));
      EnableInterrupts({0});
      assert slots[..] == before[i := CtimSlot(before[i], eqpNum, frame.value, c)];
      e := OK;
    }

    method ConnectToHard(bits: set<nat>, c: Client) returns (e: Errno)
      requires Valid() && interruptEnable == enableRegister
      modifies this, hard
      ensures Valid()
      ensures (View(), e) == ConnectHard(old(View()), bits, c)
    {
      var count := 0;
      ghost var before := hard[..];
      ghost var sources: set<nat> := {};
      for i := 0 to SOURCES
        invariant slots[..] == old(slots[..]) && enableRegister == old(enableRegister)
        invariant forall j :: 0 <= j < SOURCES ==> hard[j] == if j < i && j in bits then before[j] + {c} else before[j]
        invariant sources == set j | 0 <= j < i && j in bits
        invariant interruptEnable == old(interruptEnable) + sources
        invariant 0 <= count && (count > 0 <==> sources != {})
      {
        if i in bits {
          count := count + 1;
          interruptEnable := interruptEnable + {i};
          hard[i] := hard[i] + {c};
          sources := sources + {i};
        }
      }
      assert sources == set j | 0 <= j < SOURCES && j in bits;
      if count == 0 {
        assert forall j: nat :: j < SOURCES && j in bits ==> j in sources;
        assert hard[..] == before;
        return ENXIO;
      }
      EnableInterrupts(interruptEnable);
      assert interruptEnable == old(interruptEnable) + sources;
      assert hard[..] == ConnectHard(old(View()), bits, c).0.hard;
      e := OK;
    }

    /** `stray` is the word read when a trigger number indexes past the table of hardware clients. */
    method Disable(tndx: nat, cls: Class, c: Client, stray: bool)
      requires Valid()
      requires cls != HARD ==> tndx < TABLE_SIZE && slots[tndx].trig.counter < SOURCES
      requires cls == HARD ==> tndx < SOURCES
      modifies this
      ensures Valid()
      ensures View() == DisableInterrupts(old(View()), tndx, cls, c, stray)
    {
      var cntr: int;
      if cls != HARD {
        cntr := slots[tndx].trig.counter;
      } else if tndx <= COUNTERS {
        cntr := tndx;
      } else {
        cntr := -1;
      }
      var source;
      if cntr != -1 {
        if hard[cntr] - {c} != {} {
          return;
        }
        source := cntr;
        for i := 0 to TABLE_SIZE
          invariant View() == old(View())
          invariant forall j :: 0 <= j < i ==> !(slots[j].trig.counter == cntr && slots[j].clients - {c} != {})
        {
          if slots[i].trig.counter == cntr && slots[i].clients - {c} != {} {
            assert OthersOnCounter(slots[..], cntr, c);
            return;
          }
        }
        assert !OthersOnCounter(slots[..], cntr, c);
      } else {
        source := tndx;
      }
      var held := if tndx < SOURCES then hard[tndx] - {c} != {} else stray;
      if held {
        return;
      }
      interruptEnable := interruptEnable - {source};
      enableRegister := interruptEnable;
    }

    /** DisConnectOne for a table slot. */
    method DisconnectSlot(tndx: nat, cls: Class, c: Client, stray: bool)
      requires Valid() && tndx < TABLE_SIZE && cls != HARD && slots[tndx].trig.counter < SOURCES
      modifies this, slots
      ensures Valid()
      ensures View() == DetachSlot(old(View()), tndx, cls, c, stray)
      ensures forall i :: 0 <= i < TABLE_SIZE && i != tndx ==> slots[i] == old(slots[i])
    {
      hide TriggerToHard, ConfigToHard, DisableBus;
      ZeroPacked();
      ghost var before := slots[..];
      if c in slots[tndx].clients {
        slots[tndx] := slots[tndx].(clients := slots[tndx].clients - {c});
        ghost var s' := slots[tndx];
        assert slots[..] == before[tndx := s'];
        if slots[tndx].clients == {} {
          Disable(tndx, cls, c, stray);
          if slots[tndx].eqpClass == CTIM {
            slots[tndx] := slots[tndx].(hwTrig := TriggerToHard(ZERO_TRIGGER), hwConf := ConfigToHard(ZERO_CONFIG),
                                        eqpNum := 0, eqpClass := HARD);
          } else {
            slots[tndx] := slots[tndx].(hwConf := DisableBus(slots[tndx].hwConf));
          }
          assert slots[..] == before[tndx := s'][tndx := Vacated(s')];
        }
      }
    }

    /** DisConnectOne for a hardware source: it tests for any client, not for this one. */
    method DisconnectSource(src: nat, c: Client)
      requires Valid() && src < SOURCES
      modifies this, hard
      ensures Valid()
      ensures View() == DetachSource(old(View()), src, c)
    {
      if hard[src] != {} {
        hard[src] := hard[src] - {c};
        assert hard[..] == old(hard[..])[src := old(hard[src]) - {c}];
        if hard[src] == {} {
          Disable(src, HARD, c, false);
        }
      }
    }

    method DisconnectSources(c: Client)
      requires Valid()
      modifies this, hard
      ensures Valid()
      ensures View() == DetachSources(old(View()), c, SOURCES)
    {
      for i := 0 to SOURCES
        invariant Valid()
        invariant View() == DetachSources(old(View()), c, i)
      {
        DisconnectSource(i, c);
      }
    }

    /** DisConnect */
    method DisconnectFrom(eqpNum: nat, cls: Class, c: Client, stray: nat -> bool)
      requires Valid()
      modifies this, slots, hard
      ensures Valid()
      ensures View() == Disconnect(old(View()), eqpNum, cls, c, stray)
    {
      if cls == HARD {
        DisconnectSources(c);
        return;
      }
      for i := 0 to TABLE_SIZE
        invariant Valid()
        invariant View() == DetachObject(old(View()), eqpNum, cls, c, stray, i)
      {
        if slots[i].eqpNum == eqpNum && slots[i].eqpClass == cls {
          DisconnectSlot(i, cls, c, stray(i));
        }
      }
    }

    /** The part of DisConnectAll that deals with one module. */
    method DisconnectFromAll(c: Client, stray: nat -> bool)
      requires Valid()
      modifies this, slots, hard
      ensures Valid()
      ensures View() == DisconnectAll(old(View()), c, stray)
    {
      for i := 0 to TABLE_SIZE
        invariant Valid()
        invariant View() == DetachSlots(old(View()), c, stray, i)
      {
        if slots[i].eqpNum != 0 && slots[i].eqpClass != HARD {
          DisconnectSlot(i, slots[i].eqpClass, c, stray(i));
        }
      }
      DisconnectSources(c);
    }

    /** SET_ACTION */
    method WriteAction(number: nat, act: Action) returns (e: Errno)
      requires Valid()
      modifies slots
      ensures |View().slots| == TABLE_SIZE && (View(), e) == SetAction(old(View()), number, act)
    {
      hide TriggerToHard, ConfigToHard, OnZeroWithBus;
      if !(0 < number <= TABLE_SIZE) {
        return EINVAL;
      }
      var i := number - 1;
      var s := slots[i];
      if s.eqpClass == HARD {
        return EINVAL;
      }
      if s.eqpNum != 0 {
        if s.eqpNum != act.eqpNum || s.eqpClass != act.eqpClass || s.trig.counter != act.trig.counter {
          return EINVAL;
        }
      } else {
        s := s.(eqpNum := act.eqpNum, eqpClass := act.eqpClass, trig := s.trig.(counter := act.trig.counter));
      }
      s := s.(hwTrig := TriggerToHard(act.trig), trig := act.trig);
      var conf := act.conf.(onZero := OnZeroWithBus(act.conf.onZero, s.clients != {}));
      s := s.(hwConf := ConfigToHard(conf), conf := conf);
      slots[i] := s;
      return OK;
    }

    /** The search of CREATE_PTIM: one pass that counts the free slots since the last occupied one. */
    method FindRun(size: nat) returns (found: bool, start: nat)
      requires Valid()
      ensures var n := if size == 0 then 1 else size;
              FirstFit(slots[..], n, 0) == if found then Some(start) else None
    {
      ghost var n := if size == 0 then 1 else size;
      var run := 0;
      found, start := false, 0;
      for i := 0 to TABLE_SIZE
        invariant 0 <= run < n && run <= i
        invariant run > 0 ==> start == i - run
        invariant forall j :: i - run <= j < i ==> Free(slots[..][j])
        invariant run < i ==> !Free(slots[i - run - 1])
        invariant forall a :: 0 <= a < i - run ==> !RunFree(slots[..], a, n)
      {
        if slots[i].eqpNum == 0 {
          if run == 0 { start := i; }
          run := run + 1;
          if run >= size {
            assert RunFree(slots[..], start, n);
            return true, start;
          }
        } else {
          assert !Free(slots[..][i]);
          run := 0;
        }
      }
      forall a: nat ensures !RunFree(slots[..], a, n) {
      }
    }

    /** The marking loop of CREATE_PTIM. */
    method OccupyRun(start: nat, size: nat, eqpNum: nat, counter: nat)
      requires Valid() && start + size <= TABLE_SIZE && counter < COUNTERS
      modifies slots
      ensures Valid()
      ensures View() == Occupy(old(View()), start, size, eqpNum, counter)
    {
      ghost var before := slots[..];
      for i := start to start + size
        invariant forall j :: 0 <= j < TABLE_SIZE ==>
                    slots[j] == if start <= j < i then OccupySlot(before[j], eqpNum, counter) else before[j]
      {
        slots[i] := OccupySlot(slots[i], eqpNum, counter);
      }
      assert slots[..] == Occupy(old(View()), start, size, eqpNum, counter).slots;
    }

    /** The busy check of DESTROY_PTIM. */
    method CheckObject(eqpNum: nat) returns (e: Errno)
      requires Valid()
      ensures e == if ObjectBusy(View(), eqpNum) then EBUSY
                   else if FirstObject(slots[..], eqpNum, PTIM) < TABLE_SIZE then OK else EINVAL
    {
      ghost var first := FirstObject(slots[..], eqpNum, PTIM);
      var found := false;
      for i := 0 to TABLE_SIZE
        invariant found <==> first < i
        invariant forall j :: 0 <= j < i && IsObject(slots[..][j], eqpNum, PTIM) ==> slots[..][j].clients == {}
      {
        if slots[i].eqpNum == eqpNum && slots[i].eqpClass == PTIM {
          if slots[i].clients != {} {
            assert IsObject(View().slots[i], eqpNum, PTIM);
            return EBUSY;
          }
          found := true;
        }
      }
      e := if found then OK else EINVAL;
    }

    /** The clearing loop of DESTROY_PTIM. */
    method ReleaseObject(eqpNum: nat)
      requires Valid()
      modifies slots
      ensures Valid()
      ensures View() == Release(old(View()), eqpNum)
    {
      hide TriggerToHard, ConfigToHard;
      ZeroPacked();
      ghost var before := slots[..];
      for i := 0 to TABLE_SIZE
        invariant forall j :: 0 <= j < TABLE_SIZE ==>
                    slots[j] == if j < i && IsObject(before[j], eqpNum, PTIM) then ReleaseSlot(before[j]) else before[j]
      {
        if slots[i].eqpNum == eqpNum && slots[i].eqpClass == PTIM {
          slots[i] := slots[i].(eqpNum := 0, eqpClass := HARD, trig := ZERO_TRIGGER, conf := ZERO_CONFIG,
                                hwTrig := HwTrigger(0, 0), hwConf := ConfigToHard(ZERO_CONFIG));
        }
      }
      assert slots[..] == Release(old(View()), eqpNum).slots;
    }
  }

  lemma NoCounters(eqpNum: nat)
    ensures CountersOf([], eqpNum) == {}
  {
  }

  /** What a slot adds to the result of the connect loop. */
  lemma SlotAttached(slots: seq<Slot>, eqpNum: nat, c: Client, i: nat)
    requires i < |slots|
    ensures AttachAll(slots, eqpNum, c)[i] == if IsObject(slots[i], eqpNum, PTIM) then Attach(slots[i], c) else slots[i]
    ensures Attach(slots[i], c).trig == slots[i].trig
    ensures CountersOf(slots[..i + 1], eqpNum) ==
            CountersOf(slots[..i], eqpNum) + (if IsObject(slots[i], eqpNum, PTIM) then {slots[i].trig.counter} else {})
  {
    assert slots[..i + 1][..i] == slots[..i];
  }

  lemma FirstObjectIs(slots: seq<Slot>, eqpNum: nat, cls: Class, i: nat)
    requires i <= |slots|
    requires forall j :: 0 <= j < i ==> !IsObject(slots[j], eqpNum, cls)
    requires i < |slots| ==> IsObject(slots[i], eqpNum, cls)
    ensures FirstObject(slots, eqpNum, cls) == i
  {
    var r := FirstObject(slots, eqpNum, cls);
    assert !(r < i) && !(i < r);
  }

  lemma FirstFreeIs(slots: seq<Slot>, i: nat)
    requires i <= |slots|
    requires forall j :: 0 <= j < i ==> !Free(slots[j])
    requires i < |slots| ==> Free(slots[i])
    ensures FirstFree(slots) == i
  {
    var r := FirstFree(slots);
    assert !(r < i) && !(i < r);
  }
}
