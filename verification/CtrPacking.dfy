/** Packing of CTR triggers and counter configurations into the 32-bit words of the FPGA tables. */
module CtrPacking {
  import opened Bits

  const CONFIG_ON_ZERO: nat := 0xC000_0000
  const CONFIG_START: nat := 0x3800_0000
  const CONFIG_MODE: nat := 0x0600_0000
  const CONFIG_CLOCK: nat := 0x01C0_0000
  const CONFIG_PULSE_WIDTH: nat := 0x003F_FFFF

  const TRIG_CONDITION: nat := 0xC000_0000
  const TRIG_MACHINE: nat := 0x3800_0000
  const TRIG_COUNTER: nat := 0x0780_0000
  const TRIG_GROUP_NUMBER: nat := 0x007F_0000
  const TRIG_GROUP_VALUE: nat := 0x0000_FFFF

  const ON_ZERO_BUS: nat := 1      // bit 0 of OnZero: on reaching zero make a bus interrupt

  datatype Trigger = Trigger(
    ctim: nat, frame: nat, condition: nat, machine: nat, counter: nat, groupNumber: nat, groupValue: nat)

  datatype HwTrigger = HwTrigger(frame: nat, trigger: nat)

  datatype Config = Config(onZero: nat, start: nat, mode: nat, clock: nat, pulseWidth: nat, delay: nat)

  datatype HwConfig = HwConfig(config: nat, delay: nat)

  const ZERO_TRIGGER := Trigger(0, 0, 0, 0, 0, 0, 0)
  const ZERO_CONFIG := Config(0, 0, 0, 0, 0, 0)

  // ---------- moving a value to and from the position of a mask ----------

  /** Right shift of a 32-bit C int: the sign bit is copied. */
  function Sar(m: nat): nat { m / 2 + (if m >= 0x8000_0000 then 0x8000_0000 else 0) }

  ghost predicate Lowest(mask: nat, i: nat) {
    Bit(mask, i) && forall j: nat :: j < i ==> !Bit(mask, j)
  }

  /** The value at the mask's position, restricted to the mask. */
  function ToField(mask: nat, lo: nat, value: nat): nat { And(Shl(value, lo), mask) }

  /** Truncating the shifted value to 32 bits is invisible under a 32-bit mask. */
  lemma TruncationUnderMask(mask: nat, x: nat)
    requires mask < 0x1_0000_0000
    ensures And(Trunc(x, 32), mask) == And(x, mask)
  {
    Pow2Values();
    forall k: nat ensures Bit(And(Trunc(x, 32), mask), k) <==> Bit(And(x, mask), k) {
      BitAnd(Trunc(x, 32), mask, k);
      BitAnd(x, mask, k);
      BitTrunc(x, 32, k);
      if k >= 32 { BitBeyond(mask, 32, k); }
    }
    SameBits(And(Trunc(x, 32), mask), And(x, mask));
  }

  /** The part of the word under the mask, moved down. */
  function FromField(mask: nat, lo: nat, word: nat): nat { Shr(And(word, mask), lo) }

  lemma {:induction false} BitSar(m: nat, k: nat)
    requires m < 0x1_0000_0000
    ensures Sar(m) < 0x1_0000_0000
    ensures Bit(Sar(m), k) <==> Bit(m, k + 1) || (k == 31 && m >= 0x8000_0000)
  {
    Pow2Values();
    BitBeyond(m / 2, 31, if k >= 31 then k else 31);
    if m >= 0x8000_0000 { HighBit(m / 2, 31, k); }
  }

  lemma {:induction false} HighBit(a: nat, n: nat, k: nat)
    requires a < Pow2(n)
    ensures Bit(a + Pow2(n), k) <==> Bit(a, k) || k == n
    decreases n
  {
    if n == 0 {
      BitZero(k);
      BitPow2(0, k);
    } else if k > 0 {
      assert (a + Pow2(n)) / 2 == a / 2 + Pow2(n - 1);
      HighBit(a / 2, n - 1, k - 1);
    }
  }

  /** AutoShiftLeft: count the clear low bits of the mask, shift the value up by as many, and keep what
      the mask covers. An empty mask would shift by 32, which C leaves undefined. */
  method AutoShiftLeft(mask: nat, value: nat) returns (r: nat)
    requires 0 < mask < 0x1_0000_0000
    ensures forall lo: nat :: Lowest(mask, lo) ==> r == ToField(mask, lo, value)
    ensures exists lo: nat :: lo < 32 && Lowest(mask, lo)
  {
    var i, _ := CountClear(mask);
    r := And(Trunc(Shl(value, i), 32), mask);
    TruncationUnderMask(mask, Shl(value, i));
    forall lo: nat | Lowest(mask, lo) ensures lo == i {
      assert !(lo < i) && !(i < lo);
    }
  }

  /** AutoShiftRight: the mask itself has been shifted down, sign bit copied, and is applied last. */
  method AutoShiftRight(mask: nat, value: nat) returns (r: nat)
    requires 0 < mask < 0x1_0000_0000 && value < 0x1_0000_0000
    ensures forall lo: nat :: Lowest(mask, lo) ==> r == FromField(mask, lo, value)
    ensures exists lo: nat :: lo < 32 && Lowest(mask, lo)
  {
    var i, m := CountClear(mask);
    r := And(Shr(value, i), m);
    Pow2Values();
    forall k: nat ensures Bit(r, k) <==> Bit(FromField(mask, i, value), k) {
      BitAnd(Shr(value, i), m, k);
      BitShr(value, i, k);
      BitShr(And(value, mask), i, k);
      BitAnd(value, mask, k + i);
      if k + i >= 32 { BitBeyond(value, 32, k + i); }
    }
    SameBits(r, FromField(mask, i, value));
    forall lo: nat | Lowest(mask, lo) ensures lo == i {
      assert !(lo < i) && !(i < lo);
    }
  }

  /** m is the mask shifted down by i, up to what has come in at the top. */
  ghost predicate ShiftedDown(m: nat, mask: nat, i: nat) {
    m < 0x1_0000_0000 && forall k: nat :: k + i < 32 ==> (Bit(m, k) <==> Bit(mask, k + i))
  }

  lemma ShiftOnce(m: nat, mask: nat, i: nat)
    requires ShiftedDown(m, mask, i)
    ensures ShiftedDown(Sar(m), mask, i + 1)
  {
    BitSar(m, 0);
    forall k: nat | k + (i + 1) < 32 ensures Bit(Sar(m), k) <==> Bit(mask, k + (i + 1)) {
      BitSar(m, k);
      assert Bit(m, k + 1) <==> Bit(mask, k + 1 + i);
    }
  }

  lemma SomeBit(mask: nat)
    requires 0 < mask < 0x1_0000_0000
    ensures exists j: nat :: j < 32 && Bit(mask, j)
  {
    Pow2Values();
    if forall j: nat :: j < 32 ==> !Bit(mask, j) {
      forall k: nat ensures Bit(mask, k) <==> Bit(0, k) {
        BitZero(k);
        if k >= 32 { BitBeyond(mask, 32, k); }
      }
      SameBits(mask, 0);
    }
  }

  /** The loop the two functions share. */
  method CountClear(mask: nat) returns (i: nat, m: nat)
    requires 0 < mask < 0x1_0000_0000
    ensures i < 32 && Lowest(mask, i) && ShiftedDown(m, mask, i)
  {
    SomeBit(mask);
    i, m := 0, mask;
    while i < 32
      invariant i <= 32
      invariant ShiftedDown(m, mask, i)
      invariant forall j: nat :: j < i ==> !Bit(mask, j)
    {
      assert Bit(m, 0) <==> Bit(mask, 0 + i);
      if m % 2 == 1 { break; }
      ShiftOnce(m, mask, i);
      m := Sar(m);
      i := i + 1;
    }
  }

  // ---------- the masks are bit ranges ----------

  ghost predicate Covers(mask: nat, lo: nat, hi: nat) {
    forall k: nat :: Bit(mask, k) <==> lo <= k < hi
  }

  lemma CoversRange(mask: nat, lo: nat, hi: nat)
    requires lo < hi && mask == Pow2(hi) - Pow2(lo)
    ensures Covers(mask, lo, hi) && Lowest(mask, lo)
  {
    forall k: nat ensures Bit(mask, k) <==> lo <= k < hi { BitOnes(lo, hi, k); }
  }

  /** Each table of masks cuts the 32-bit word into consecutive fields. */
  lemma MasksPartitionWord()
    ensures Covers(CONFIG_PULSE_WIDTH, 0, 22) && Covers(CONFIG_CLOCK, 22, 25) && Covers(CONFIG_MODE, 25, 27)
    ensures Covers(CONFIG_START, 27, 30) && Covers(CONFIG_ON_ZERO, 30, 32)
    ensures Covers(TRIG_GROUP_VALUE, 0, 16) && Covers(TRIG_GROUP_NUMBER, 16, 23) && Covers(TRIG_COUNTER, 23, 27)
    ensures Covers(TRIG_MACHINE, 27, 30) && Covers(TRIG_CONDITION, 30, 32)
  {
    Pow2Values();
    CoversRange(CONFIG_PULSE_WIDTH, 0, 22);
    CoversRange(CONFIG_CLOCK, 22, 25);
    CoversRange(CONFIG_MODE, 25, 27);
    CoversRange(CONFIG_START, 27, 30);
    CoversRange(CONFIG_ON_ZERO, 30, 32);
    CoversRange(TRIG_GROUP_VALUE, 0, 16);
    CoversRange(TRIG_GROUP_NUMBER, 16, 23);
    CoversRange(TRIG_COUNTER, 23, 27);
    CoversRange(TRIG_MACHINE, 27, 30);
    CoversRange(TRIG_CONDITION, 30, 32);
  }

  lemma ToFieldBit(mask: nat, lo: nat, hi: nat, v: nat, k: nat)
    requires Covers(mask, lo, hi)
    ensures Bit(ToField(mask, lo, v), k) <==> lo <= k < hi && Bit(v, k - lo)
  {
    BitAnd(Shl(v, lo), mask, k);
    BitShl(v, lo, k);
  }

  lemma FromFieldBit(mask: nat, lo: nat, hi: nat, w: nat, k: nat)
    requires Covers(mask, lo, hi)
    ensures Bit(FromField(mask, lo, w), k) <==> k + lo < hi && Bit(w, k + lo)
  {
    BitShr(And(w, mask), lo, k);
    BitAnd(w, mask, k + lo);
  }

  // ---------- the packers ----------

  function TriggerToHard(t: Trigger): HwTrigger {
    HwTrigger(t.frame,
      Or(Or(Or(Or(
        ToField(TRIG_GROUP_VALUE, 0, t.groupValue),
        ToField(TRIG_CONDITION, 30, t.condition)),
        ToField(TRIG_MACHINE, 27, t.machine)),
        ToField(TRIG_COUNTER, 23, t.counter)),
        ToField(TRIG_GROUP_NUMBER, 16, t.groupNumber)))
  }

  /** The Ctim number is not in the hardware word; the driver keeps it beside the table. */
  function HardToTrigger(h: HwTrigger, ctim: nat): Trigger {
    Trigger(ctim, h.frame,
      FromField(TRIG_CONDITION, 30, h.trigger),
      FromField(TRIG_MACHINE, 27, h.trigger),
      FromField(TRIG_COUNTER, 23, h.trigger),
      FromField(TRIG_GROUP_NUMBER, 16, h.trigger),
      FromField(TRIG_GROUP_VALUE, 0, h.trigger))
  }

  function ConfigToHard(c: Config): HwConfig {
    HwConfig(
      Or(Or(Or(Or(
        ToField(CONFIG_PULSE_WIDTH, 0, c.pulseWidth),
        ToField(CONFIG_CLOCK, 22, c.clock)),
        ToField(CONFIG_MODE, 25, c.mode)),
        ToField(CONFIG_START, 27, c.start)),
        ToField(CONFIG_ON_ZERO, 30, c.onZero)),
      c.delay)
  }

  function HardToConfig(h: HwConfig): Config {
    Config(
      FromField(CONFIG_ON_ZERO, 30, h.config),
      FromField(CONFIG_START, 27, h.config),
      FromField(CONFIG_MODE, 25, h.config),
      FromField(CONFIG_CLOCK, 22, h.config),
      FromField(CONFIG_PULSE_WIDTH, 0, h.config),
      h.delay)
  }

  predicate TriggerInRange(t: Trigger) {
    t.condition < Pow2(2) && t.machine < Pow2(3) && t.counter < Pow2(4) && t.groupNumber < Pow2(7) &&
    t.groupValue < Pow2(16)
  }

  predicate ConfigInRange(c: Config) {
    c.onZero < Pow2(2) && c.start < Pow2(3) && c.mode < Pow2(2) && c.clock < Pow2(3) && c.pulseWidth < Pow2(22)
  }

  lemma PackedTriggerBit(t: Trigger, k: nat)
    ensures Bit(TriggerToHard(t).trigger, k) <==>
            if k < 16 then Bit(t.groupValue, k)
            else if k < 23 then Bit(t.groupNumber, k - 16)
            else if k < 27 then Bit(t.counter, k - 23)
            else if k < 30 then Bit(t.machine, k - 27)
            else k < 32 && Bit(t.condition, k - 30)
  {
    MasksPartitionWord();
    var a := ToField(TRIG_GROUP_VALUE, 0, t.groupValue);
    var b := ToField(TRIG_CONDITION, 30, t.condition);
    var c := ToField(TRIG_MACHINE, 27, t.machine);
    var d := ToField(TRIG_COUNTER, 23, t.counter);
    var e := ToField(TRIG_GROUP_NUMBER, 16, t.groupNumber);
    ToFieldBit(TRIG_GROUP_VALUE, 0, 16, t.groupValue, k);
    ToFieldBit(TRIG_CONDITION, 30, 32, t.condition, k);
    ToFieldBit(TRIG_MACHINE, 27, 30, t.machine, k);
    ToFieldBit(TRIG_COUNTER, 23, 27, t.counter, k);
    ToFieldBit(TRIG_GROUP_NUMBER, 16, 23, t.groupNumber, k);
    BitOr(a, b, k);
    BitOr(Or(a, b), c, k);
    BitOr(Or(Or(a, b), c), d, k);
    BitOr(Or(Or(Or(a, b), c), d), e, k);
  }

  lemma PackedConfigBit(c: Config, k: nat)
    ensures Bit(ConfigToHard(c).config, k) <==>
            if k < 22 then Bit(c.pulseWidth, k)
            else if k < 25 then Bit(c.clock, k - 22)
            else if k < 27 then Bit(c.mode, k - 25)
            else if k < 30 then Bit(c.start, k - 27)
            else k < 32 && Bit(c.onZero, k - 30)
  {
    MasksPartitionWord();
    var p := ToField(CONFIG_PULSE_WIDTH, 0, c.pulseWidth);
    var q := ToField(CONFIG_CLOCK, 22, c.clock);
    var r := ToField(CONFIG_MODE, 25, c.mode);
    var s := ToField(CONFIG_START, 27, c.start);
    var t := ToField(CONFIG_ON_ZERO, 30, c.onZero);
    ToFieldBit(CONFIG_PULSE_WIDTH, 0, 22, c.pulseWidth, k);
    ToFieldBit(CONFIG_CLOCK, 22, 25, c.clock, k);
    ToFieldBit(CONFIG_MODE, 25, 27, c.mode, k);
    ToFieldBit(CONFIG_START, 27, 30, c.start, k);
    ToFieldBit(CONFIG_ON_ZERO, 30, 32, c.onZero, k);
    BitOr(p, q, k);
    BitOr(Or(p, q), r, k);
    BitOr(Or(Or(p, q), r), s, k);
    BitOr(Or(Or(Or(p, q), r), s), t, k);
  }

  /** A field read back from a word is the field written into it, if the value fits. */
  lemma FieldReadBack(mask: nat, lo: nat, hi: nat, w: nat, v: nat)
    requires lo <= hi && Covers(mask, lo, hi) && v < Pow2(hi - lo)
    requires forall k: nat :: lo <= k < hi ==> (Bit(w, k) <==> Bit(v, k - lo))
    ensures FromField(mask, lo, w) == v
  {
    forall k: nat ensures Bit(FromField(mask, lo, w), k) <==> Bit(v, k) {
      FromFieldBit(mask, lo, hi, w, k);
      if k + lo < hi {
        assert Bit(w, k + lo) <==> Bit(v, k + lo - lo);
      } else {
        BitBeyond(v, hi - lo, k);
      }
    }
    SameBits(FromField(mask, lo, w), v);
  }

  ghost predicate TriggerLaidOut(t: Trigger, w: nat) {
    && (forall k: nat :: 0 <= k < 16 ==> (Bit(w, k) <==> Bit(t.groupValue, k - 0)))
    && (forall k: nat :: 16 <= k < 23 ==> (Bit(w, k) <==> Bit(t.groupNumber, k - 16)))
    && (forall k: nat :: 23 <= k < 27 ==> (Bit(w, k) <==> Bit(t.counter, k - 23)))
    && (forall k: nat :: 27 <= k < 30 ==> (Bit(w, k) <==> Bit(t.machine, k - 27)))
    && (forall k: nat :: 30 <= k < 32 ==> (Bit(w, k) <==> Bit(t.condition, k - 30)))
  }

  lemma UnpackLaidOutTrigger(t: Trigger, h: HwTrigger)
    requires TriggerInRange(t) && TriggerLaidOut(t, h.trigger) && h.frame == t.frame
    ensures HardToTrigger(h, t.ctim) == t
  {
    var w := h.trigger;
    MasksPartitionWord();
    FieldReadBack(TRIG_GROUP_VALUE, 0, 16, w, t.groupValue);
    FieldReadBack(TRIG_GROUP_NUMBER, 16, 23, w, t.groupNumber);
    FieldReadBack(TRIG_COUNTER, 23, 27, w, t.counter);
    FieldReadBack(TRIG_MACHINE, 27, 30, w, t.machine);
    FieldReadBack(TRIG_CONDITION, 30, 32, w, t.condition);
  }

  lemma TriggerSoftRoundTrip(t: Trigger)
    requires TriggerInRange(t)
    ensures HardToTrigger(TriggerToHard(t), t.ctim) == t
  {
    var h := TriggerToHard(t);
    assert TriggerLaidOut(t, h.trigger) by {
      forall k: nat { PackedTriggerBit(t, k); }
    }
    UnpackLaidOutTrigger(t, h);
  }

  ghost predicate ConfigLaidOut(c: Config, w: nat) {
    && (forall k: nat :: 0 <= k < 22 ==> (Bit(w, k) <==> Bit(c.pulseWidth, k - 0)))
    && (forall k: nat :: 22 <= k < 25 ==> (Bit(w, k) <==> Bit(c.clock, k - 22)))
    && (forall k: nat :: 25 <= k < 27 ==> (Bit(w, k) <==> Bit(c.mode, k - 25)))
    && (forall k: nat :: 27 <= k < 30 ==> (Bit(w, k) <==> Bit(c.start, k - 27)))
    && (forall k: nat :: 30 <= k < 32 ==> (Bit(w, k) <==> Bit(c.onZero, k - 30)))
  }

  lemma UnpackLaidOutConfig(c: Config, h: HwConfig)
    requires ConfigInRange(c) && ConfigLaidOut(c, h.config) && h.delay == c.delay
    ensures HardToConfig(h) == c
  {
    var w := h.config;
    MasksPartitionWord();
    FieldReadBack(CONFIG_PULSE_WIDTH, 0, 22, w, c.pulseWidth);
    FieldReadBack(CONFIG_CLOCK, 22, 25, w, c.clock);
    FieldReadBack(CONFIG_MODE, 25, 27, w, c.mode);
    FieldReadBack(CONFIG_START, 27, 30, w, c.start);
    FieldReadBack(CONFIG_ON_ZERO, 30, 32, w, c.onZero);
  }

  lemma ConfigSoftRoundTrip(c: Config)
    requires ConfigInRange(c)
    ensures HardToConfig(ConfigToHard(c)) == c
  {
    var h := ConfigToHard(c);
    assert ConfigLaidOut(c, h.config) by {
      forall k: nat { PackedConfigBit(c, k); }
    }
    UnpackLaidOutConfig(c, h);
  }

  lemma HardTriggerBits(h: HwTrigger, ctim: nat, k: nat)
    requires h.trigger < Pow2(32)
    ensures Bit(TriggerToHard(HardToTrigger(h, ctim)).trigger, k) <==> Bit(h.trigger, k)
  {
    var t := HardToTrigger(h, ctim);
    var w := h.trigger;
    PackedTriggerBit(t, k);
    MasksPartitionWord();
    if k >= 32 { BitBeyond(w, 32, k); }
    else if k >= 30 { FromFieldBit(TRIG_CONDITION, 30, 32, w, k - 30); }
    else if k >= 27 { FromFieldBit(TRIG_MACHINE, 27, 30, w, k - 27); }
    else if k >= 23 { FromFieldBit(TRIG_COUNTER, 23, 27, w, k - 23); }
    else if k >= 16 { FromFieldBit(TRIG_GROUP_NUMBER, 16, 23, w, k - 16); }
    else { FromFieldBit(TRIG_GROUP_VALUE, 0, 16, w, k); }
  }

  lemma HardConfigBits(h: HwConfig, k: nat)
    requires h.config < Pow2(32)
    ensures Bit(ConfigToHard(HardToConfig(h)).config, k) <==> Bit(h.config, k)
  {
    var c := HardToConfig(h);
    var w := h.config;
    PackedConfigBit(c, k);
    MasksPartitionWord();
    if k >= 32 { BitBeyond(w, 32, k); }
    else if k >= 30 { FromFieldBit(CONFIG_ON_ZERO, 30, 32, w, k - 30); }
    else if k >= 27 { FromFieldBit(CONFIG_START, 27, 30, w, k - 27); }
    else if k >= 25 { FromFieldBit(CONFIG_MODE, 25, 27, w, k - 25); }
    else if k >= 22 { FromFieldBit(CONFIG_CLOCK, 22, 25, w, k - 22); }
    else { FromFieldBit(CONFIG_PULSE_WIDTH, 0, 22, w, k); }
  }

  /** Unpacking and packing again is the identity on every 32-bit word: no bit is outside the fields. */
  lemma HardRoundTrip(h: HwTrigger, g: HwConfig, ctim: nat)
    requires h.trigger < 0x1_0000_0000 && g.config < 0x1_0000_0000
    ensures TriggerToHard(HardToTrigger(h, ctim)) == h
    ensures ConfigToHard(HardToConfig(g)) == g
  {
    Pow2Values();
    forall k: nat
      ensures Bit(TriggerToHard(HardToTrigger(h, ctim)).trigger, k) <==> Bit(h.trigger, k)
      ensures Bit(ConfigToHard(HardToConfig(g)).config, k) <==> Bit(g.config, k)
    {
      HardTriggerBits(h, ctim, k);
      HardConfigBits(g, k);
    }
    SameBits(TriggerToHard(HardToTrigger(h, ctim)).trigger, h.trigger);
    SameBits(ConfigToHard(HardToConfig(g)).config, g.config);
  }

  // ---------- the bus-interrupt bit ----------

  /** Where OnZero's BUS bit lands in the hardware word. */
  const BUS_POSITION: nat := 30

  const BUS_MASK: nat := 0x4000_0000

  lemma BusMask()
    ensures BUS_MASK == ToField(CONFIG_ON_ZERO, BUS_POSITION, ON_ZERO_BUS) == Pow2(BUS_POSITION)
  {
    Pow2Values();
    MasksPartitionWord();
    forall k: nat ensures Bit(ToField(CONFIG_ON_ZERO, 30, ON_ZERO_BUS), k) <==> Bit(Pow2(30), k) {
      ToFieldBit(CONFIG_ON_ZERO, 30, 32, ON_ZERO_BUS, k);
      BitPow2(30, k);
      if k >= 30 {
        assert Pow2(0) == 1;
        BitPow2(0, k - 30);
      }
    }
    SameBits(ToField(CONFIG_ON_ZERO, 30, ON_ZERO_BUS), Pow2(30));
  }

  predicate BusEnabled(h: HwConfig) { h.config / BUS_MASK % 2 == 1 }

  lemma BusEnabledBit(h: HwConfig)
    ensures BusEnabled(h) <==> Bit(h.config, BUS_POSITION)
  {
    Pow2Values();
    BitQuotient(h.config, BUS_POSITION);
  }

  function EnableBus(h: HwConfig): HwConfig { h.(config := Or(h.config, BUS_MASK)) }

  function DisableBus(h: HwConfig): HwConfig { h.(config := AndNot(h.config, BUS_MASK)) }

  /** Setting and clearing the BUS bit touches that bit only. */
  lemma BusBitOnly(h: HwConfig, k: nat)
    ensures Bit(EnableBus(h).config, k) <==> k == BUS_POSITION || Bit(h.config, k)
    ensures Bit(DisableBus(h).config, k) <==> k != BUS_POSITION && Bit(h.config, k)
    ensures BusEnabled(EnableBus(h)) && !BusEnabled(DisableBus(h))
  {
    BusBitSet(h, k);
    BusBitSet(h, BUS_POSITION);
    BusEnabledBit(EnableBus(h));
    BusEnabledBit(DisableBus(h));
  }

  lemma BusBitSet(h: HwConfig, k: nat)
    ensures Bit(EnableBus(h).config, k) <==> k == BUS_POSITION || Bit(h.config, k)
    ensures Bit(DisableBus(h).config, k) <==> k != BUS_POSITION && Bit(h.config, k)
  {
    Pow2Values();
    BitPow2(BUS_POSITION, k);
    BitOr(h.config, BUS_MASK, k);
    BitAndNot(h.config, BUS_MASK, k);
  }

  lemma {:induction false} NoBits(n: nat)
    requires forall k: nat :: !Bit(n, k)
    ensures n == 0
  {
    forall k: nat ensures Bit(n, k) <==> Bit(0, k) { BitZero(k); }
    SameBits(n, 0);
  }

  /** Zeros are packed as zeros. */
  lemma ZeroPacked()
    ensures TriggerToHard(ZERO_TRIGGER) == HwTrigger(0, 0) && ConfigToHard(ZERO_CONFIG) == HwConfig(0, 0)
  {
    hide Bit, TriggerToHard, ConfigToHard;
    InstancePacked(0, 0);
    PackedParts(ZERO_TRIGGER, ZERO_CONFIG);
    forall k: nat ensures !Bit(ConfigToHard(ZERO_CONFIG).config, k) {
      PackedConfigBit(ZERO_CONFIG, k);
      NoneOfZero(k);
    }
    NoBits(ConfigToHard(ZERO_CONFIG).config);
  }

  lemma NoneOfZero(k: nat)
    ensures !Bit(0, k) && (k >= 16 ==> !Bit(0, k - 16)) && (k >= 22 ==> !Bit(0, k - 22)) && (k >= 23 ==> !Bit(0, k - 23))
    ensures (k >= 25 ==> !Bit(0, k - 25)) && (k >= 27 ==> !Bit(0, k - 27)) && (k >= 30 ==> !Bit(0, k - 30))
  {
    hide Bit;
    forall j: nat ensures !Bit(0, j) { BitZero(j); }
  }

  /** A trigger that is only a frame, and a configuration that is only BUS. */
  lemma InstancePacked(ctim: nat, frame: nat)
    ensures TriggerToHard(Trigger(ctim, frame, 0, 0, 0, 0, 0)) == HwTrigger(frame, 0)
    ensures ConfigToHard(Config(ON_ZERO_BUS, 0, 0, 0, 0, 0)) == HwConfig(BUS_MASK, 0)
  {
    hide Bit, TriggerToHard, ConfigToHard;
    PackedParts(Trigger(ctim, frame, 0, 0, 0, 0, 0), Config(ON_ZERO_BUS, 0, 0, 0, 0, 0));
    var t, c := Trigger(ctim, frame, 0, 0, 0, 0, 0), Config(ON_ZERO_BUS, 0, 0, 0, 0, 0);
    forall k: nat ensures !Bit(TriggerToHard(t).trigger, k) {
      PackedTriggerBit(t, k);
      NoneOfZero(k);
    }
    NoBits(TriggerToHard(t).trigger);
    forall k: nat ensures Bit(ConfigToHard(c).config, k) <==> Bit(BUS_MASK, k) {
      PackedConfigBit(c, k);
      NoneOfZero(k);
      BusOnlyBit(k);
    }
    SameBits(ConfigToHard(c).config, BUS_MASK);
  }

  lemma PackedParts(t: Trigger, c: Config)
    ensures TriggerToHard(t).frame == t.frame && ConfigToHard(c).delay == c.delay
  {
  }

  lemma BusOnlyBit(k: nat)
    ensures Bit(BUS_MASK, k) <==> k == 30
    ensures k >= 30 ==> (Bit(ON_ZERO_BUS, k - 30) <==> k == 30)
  {
    Pow2Values();
    BitPow2(30, k);
    assert Pow2(0) == 1;
    if k >= 30 { BitPow2(0, k - 30); }
  }

  lemma PackedBusBit(c: Config)
    ensures BusEnabled(ConfigToHard(c)) <==> c.onZero % 2 == 1
  {
    PackedConfigBit(c, BUS_POSITION);
    BusEnabledBit(ConfigToHard(c));
  }

  /** The override of SET_ACTION on OnZero. */
  function OnZeroWithBus(onZero: nat, bus: bool): nat {
    if bus then Or(onZero, ON_ZERO_BUS) else AndNot(onZero, ON_ZERO_BUS)
  }

  lemma OnZeroOverride(onZero: nat, bus: bool)
    ensures OnZeroWithBus(onZero, bus) == onZero - onZero % 2 + (if bus then 1 else 0)
  {
    assert Or(onZero / 2, 0) == onZero / 2 && AndNot(onZero / 2, 0) == onZero / 2 by {
      forall k: nat
        ensures Bit(Or(onZero / 2, 0), k) <==> Bit(onZero / 2, k)
        ensures Bit(AndNot(onZero / 2, 0), k) <==> Bit(onZero / 2, k)
      {
        BitOr(onZero / 2, 0, k);
        BitAndNot(onZero / 2, 0, k);
        BitZero(k);
      }
      SameBits(Or(onZero / 2, 0), onZero / 2);
      SameBits(AndNot(onZero / 2, 0), onZero / 2);
    }
  }
}
