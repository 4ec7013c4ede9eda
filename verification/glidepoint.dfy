/** The current driver's `PinnacleTouch`: start-up, the configuration setters and
    getters, the report reader and AnyMeas mode, each an operation on the
    simulated chip. The data-ready pin is not simulated: whether one was given
    is part of the driver state, and its level is an argument. */
module Glidepoint {
  import opened Wrappers
  import opened Exceptions
  import opened Bits
  import opened Bytes
  import opened Sim
  import opened Era
  import opened Config
  import opened Reports
  import opened AnyMeas
  import opened Frames

  // The data modes.
  const RELATIVE: int := 0
  const ANYMEAS: int := 1
  const ABSOLUTE: int := 2

  // Extended-memory addresses the driver writes.
  const FINGER_STYLUS_ADDR: ExtAddr := 0x00EB
  const ADC_GAIN_ADDR: ExtAddr := 0x0187
  const RELOAD_TIMER_ADDR: ExtAddr := 0x019E
  const X_WIDE_Z_MIN_ADDR: ExtAddr := 0x0149
  const Y_WIDE_Z_MIN_ADDR: ExtAddr := 0x0168

  /** The identity bytes read from registers 0 and 1: firmware id 7, version 0x3A. */
  const FIRMWARE: seq<Byte> := [7, 0x3A]

  /** A driver instance: the chip it talks to, `_mode`, and whether a
      data-ready pin was given. */
  datatype Touch = Touch(chip: Chip, mode: int, hasDr: bool)

  // ---------------------------------------------------------------------------
  // Getters and one-bit setters

  /** `hard_configured`: whether register 0x1F reads non-zero. */
  method HardConfigured(c: Chip) returns (c': Chip, hw: bool)
    requires c.Valid()
    ensures c' == c.(trace := c.trace + [Read(HW_CONFIG)])
    ensures hw <==> c.regs[HW_CONFIG] != 0
  {
    var (c1, v) := ReadReg(c, HW_CONFIG);
    c', hw := c1, v != 0;
  }

  /** `available()`: the data-ready pin's level when there is one, otherwise
      bit 2 (SW_DR) of the status register. */
  method Available(t: Touch, level: bool) returns (c': Chip, ready: bool)
    requires t.chip.Valid()
    ensures t.hasDr ==> c' == t.chip && ready == level
    ensures !t.hasDr ==> c' == t.chip.(trace := t.chip.trace + [Read(STATUS)])
    ensures !t.hasDr ==> (ready <==> t.chip.regs[STATUS] / 4 % 2 == 1)
  {
    if t.hasDr {
      return t.chip, level;
    }
    var (c1, v) := ReadReg(t.chip, STATUS);
    BitBy(v, 2, 4);
    c', ready := c1, HasBit(v, 2);
  }

  /** A getter of one bit of register 3. */
  method ConfigBit(c: Chip, k: nat) returns (c': Chip, on: bool)
    requires c.Valid() && k < 8
    ensures c' == c.(trace := c.trace + [Read(SYS_CONFIG)])
    ensures on <==> Bit(c.regs[SYS_CONFIG], k) == 1
  {
    var (c1, v) := ReadReg(c, SYS_CONFIG);
    c', on := c1, HasBit(v, k);
  }

  /** A setter of one bit of register 3: read it, then write it back with bit
      `k` set to `on`. Bit `k` then reads back as `on` and every other bit is
      as it was. */
  method SetConfigBit(c: Chip, k: nat, on: bool) returns (c': Chip)
    requires c.Valid() && k < 8
    ensures c' == c.(regs := c.regs[SYS_CONFIG := WithBit(c.regs[SYS_CONFIG], k, on)],
                     trace := c.trace + [Read(SYS_CONFIG), Write(SYS_CONFIG, WithBit(c.regs[SYS_CONFIG], k, on))])
    ensures Bit(c'.regs[SYS_CONFIG], k) == B(on)
    ensures forall j: nat :: j != k ==> Bit(c'.regs[SYS_CONFIG], j) == Bit(c.regs[SYS_CONFIG], j)
  {
    var (c1, v) := ReadReg(c, SYS_CONFIG);
    c' := WriteReg(c1, SYS_CONFIG, WithBit(v, k, on));
    WithBitRoundTrip(v, k, on);
  }

  /** `allow_sleep`: bit 2 of register 3. */
  method AllowSleep(c: Chip) returns (c': Chip, on: bool)
    requires c.Valid()
    ensures c' == c.(trace := c.trace + [Read(SYS_CONFIG)])
    ensures on <==> Bit(c.regs[SYS_CONFIG], SLEEP_BIT) == 1
  {
    c', on := ConfigBit(c, SLEEP_BIT);
  }

  /** `allow_sleep = on`: only bit 2 of register 3 changes. */
  method SetAllowSleep(c: Chip, on: bool) returns (c': Chip)
    requires c.Valid()
    ensures c'.Valid() && c'.ext == c.ext
    ensures c'.trace == c.trace + [Read(SYS_CONFIG), Write(SYS_CONFIG, c'.regs[SYS_CONFIG])]
    ensures Bit(c'.regs[SYS_CONFIG], SLEEP_BIT) == B(on)
    ensures forall j: nat :: j != SLEEP_BIT ==> Bit(c'.regs[SYS_CONFIG], j) == Bit(c.regs[SYS_CONFIG], j)
    ensures forall r :: 0 <= r < 32 && r != SYS_CONFIG ==> c'.regs[r] == c.regs[r]
  {
    c' := SetConfigBit(c, SLEEP_BIT, on);
  }

  /** `shutdown`: bit 1 of register 3. */
  method Shutdown(c: Chip) returns (c': Chip, off: bool)
    requires c.Valid()
    ensures c' == c.(trace := c.trace + [Read(SYS_CONFIG)])
    ensures off <==> Bit(c.regs[SYS_CONFIG], SHUTDOWN_BIT) == 1
  {
    c', off := ConfigBit(c, SHUTDOWN_BIT);
  }

  /** `shutdown = off`: only bit 1 of register 3 changes. */
  method SetShutdown(c: Chip, off: bool) returns (c': Chip)
    requires c.Valid()
    ensures c'.Valid() && c'.ext == c.ext
    ensures c'.trace == c.trace + [Read(SYS_CONFIG), Write(SYS_CONFIG, c'.regs[SYS_CONFIG])]
    ensures Bit(c'.regs[SYS_CONFIG], SHUTDOWN_BIT) == B(off)
    ensures forall j: nat :: j != SHUTDOWN_BIT ==> Bit(c'.regs[SYS_CONFIG], j) == Bit(c.regs[SYS_CONFIG], j)
    ensures forall r :: 0 <= r < 32 && r != SYS_CONFIG ==> c'.regs[r] == c.regs[r]
  {
    c' := SetConfigBit(c, SHUTDOWN_BIT, off);
  }

  /** `sample_rate`: register 9 as it stands. */
  method SampleRate(c: Chip) returns (c': Chip, rate: Byte)
    requires c.Valid()
    ensures c' == c.(trace := c.trace + [Read(SAMPLE_RATE)])
    ensures rate == c.regs[SAMPLE_RATE]
  {
    var (c1, v) := ReadReg(c, SAMPLE_RATE);
    c', rate := c1, v;
  }

  // ---------------------------------------------------------------------------
  // Sample rate, finger/stylus detection, calibration, ADC gain

  /** The register file `sample_rate = val` leaves outside AnyMeas: register 6
      and register 9 set, the ERA registers left where the block write of the
      two reload-timer bytes stopped. */
  function SampleRateRegs(regs: seq<Byte>, val: int): (r: seq<Byte>)
    requires |regs| == 32
    ensures |r| == 32
  {
    Stepped(regs[FEED_CONFIG3 := Config3For(val)][ERA_VALUE := ReloadTimer(val)][ERA_CONTROL := 0],
            Offset(RELOAD_TIMER_ADDR, 2))[SAMPLE_RATE := RateRegister(val)]
  }

  /** The sample-rate setter changes no register besides the status, rate,
      FeedConfig3 and ERA registers. */
  lemma SampleRateKeeps(regs: seq<Byte>, val: int, i: int)
    requires |regs| == 32 && 0 <= i < 32
    requires i != STATUS && i != FEED_CONFIG3 && i != SAMPLE_RATE && !(ERA_VALUE <= i <= ERA_CONTROL)
    ensures SampleRateRegs(regs, val)[i] == regs[i]
  {
    var r1 := regs[FEED_CONFIG3 := Config3For(val)][ERA_VALUE := ReloadTimer(val)][ERA_CONTROL := 0];
    var a := Offset(RELOAD_TIMER_ADDR, 2);
    PointAtKeeps(r1, a, i);
  }

  /** `sample_rate = val`: outside AnyMeas, register 6 switches the palm and
      noise compensations (off for 200 and 300), both reload-timer bytes at
      0x19E and 0x19F receive the timer for the rate, and register 9 receives
      the rate, 0 for 200 and 300 and 100 for a rate it does not know. Register
      4 and every other extended address are left as they were, and the ERA
      block write runs with the feed off. In AnyMeas nothing happens. */
  method SetSampleRate(t: Touch, val: int) returns (t': Touch)
    requires t.chip.Valid()
    ensures t.mode == ANYMEAS ==> t' == t
    ensures t'.mode == t.mode && t'.hasDr == t.hasDr && t'.chip.Valid()
    ensures t.mode != ANYMEAS ==> t'.chip.regs == SampleRateRegs(t.chip.regs, val)
    ensures t.mode != ANYMEAS ==>
              t'.chip.regs[SAMPLE_RATE] == RateRegister(val) && t'.chip.regs[FEED_CONFIG3] == Config3For(val) &&
              t'.chip.regs[FEED_CONFIG1] == t.chip.regs[FEED_CONFIG1] && t'.chip.regs[STATUS] == 0
    ensures t.mode != ANYMEAS ==>
              t'.chip.ext == t.chip.ext[RELOAD_TIMER_ADDR := ReloadTimer(val)][RELOAD_TIMER_ADDR + 1 := ReloadTimer(val)]
    ensures t.mode != ANYMEAS ==> FeedKept(t.chip, t'.chip)
  {
    if t.mode == ANYMEAS {
      return t;
    }
    var c := t.chip;
    var rt := ReloadTimer(val);
    var c1 := WriteReg(c, FEED_CONFIG3, Config3For(val));
    var c2 := WriteExtTwice(c1, RELOAD_TIMER_ADDR, rt);
    var c3 := WriteReg(c2, SAMPLE_RATE, RateRegister(val));
    PlainKept(c, c1, [Write(FEED_CONFIG3, Config3For(val))]);
    PlainKept(c2, c3, [Write(SAMPLE_RATE, RateRegister(val))]);
    KeptTwice(c, c1, c2);
    KeptTwice(c, c2, c3);
    t' := t.(chip := c3);
  }

  /** The read-modify-write of extended address 0xEB in `detect_finger_stylus`. */
  method WriteFingerStylus(c: Chip, finger: bool, stylus: bool) returns (c': Chip)
    requires c.Valid()
    ensures c'.Valid() && c'.ext == c.ext[FINGER_STYLUS_ADDR := FingerStylus(c.Ext(FINGER_STYLUS_ADDR), finger, stylus)]
    ensures c'.regs[FEED_CONFIG1] == c.regs[FEED_CONFIG1]
    ensures FeedKept(c, c')
  {
    var c1, v := ReadExt(c, FINGER_STYLUS_ADDR);
    c' := WriteExt(c1, FINGER_STYLUS_ADDR, FingerStylus(v, finger, stylus));
    KeptTwice(c, c1, c');
  }

  /** `detect_finger_stylus(finger, stylus, rate)`: the finger and stylus bits
      asked for are set at extended address 0xEB, its other bits kept, then the
      sample rate is set (which AnyMeas mode ignores). */
  method DetectFingerStylus(t: Touch, finger: bool, stylus: bool, rate: int) returns (t': Touch)
    requires t.chip.Valid()
    ensures t'.mode == t.mode && t'.hasDr == t.hasDr && t'.chip.Valid()
    ensures var fs := FingerStylus(t.chip.Ext(FINGER_STYLUS_ADDR), finger, stylus);
            t'.chip.ext == if t.mode == ANYMEAS then t.chip.ext[FINGER_STYLUS_ADDR := fs]
                           else t.chip.ext[FINGER_STYLUS_ADDR := fs][RELOAD_TIMER_ADDR := ReloadTimer(rate)]
                                          [RELOAD_TIMER_ADDR + 1 := ReloadTimer(rate)]
    ensures t.mode != ANYMEAS ==>
              t'.chip.regs[SAMPLE_RATE] == RateRegister(rate) && t'.chip.regs[FEED_CONFIG3] == Config3For(rate)
    ensures t'.chip.regs[FEED_CONFIG1] == t.chip.regs[FEED_CONFIG1]
    ensures FeedKept(t.chip, t'.chip)
  {
    var c1 := WriteFingerStylus(t.chip, finger, stylus);
    t' := SetSampleRate(t.(chip := c1), rate);
    if t.mode != ANYMEAS {
      KeptTwice(t.chip, c1, t'.chip);
    }
  }

  /** `calibrate(run, options)`: outside AnyMeas, register 7 receives the
      options with bit 0 set when a calibration is to run; the chip clears bit
      0 when it has finished, which the driver waits for before clearing the
      status register. Either way register 7 ends holding exactly the options.
      In AnyMeas nothing happens. */
  method Calibrate(t: Touch, run: bool, o: CalibrationOptions) returns (t': Touch)
    requires t.chip.Valid()
    ensures t.mode == ANYMEAS ==> t' == t
    ensures t'.mode == t.mode && t'.hasDr == t.hasDr && t'.chip.Valid()
    ensures t.mode != ANYMEAS ==> UnpackCalibration(t'.chip.regs[CAL_CONFIG]) == (o, false)
    ensures t.mode != ANYMEAS && !run ==>
              t'.chip == t.chip.(regs := t.chip.regs[CAL_CONFIG := PackCalibration(o, false)],
                                 trace := t.chip.trace + [Write(CAL_CONFIG, PackCalibration(o, false))])
    ensures t.mode != ANYMEAS && run ==>
              t'.chip == t.chip.(regs := t.chip.regs[CAL_CONFIG := PackCalibration(o, false)][STATUS := 0],
                                 trace := t.chip.trace + [Write(CAL_CONFIG, PackCalibration(o, true)), Read(CAL_CONFIG), Write(STATUS, 0)])
  {
    if t.mode == ANYMEAS {
      return t;
    }
    CalibrationRoundTrip(o, false);
    var c1 := WriteReg(t.chip, CAL_CONFIG, PackCalibration(o, run));
    if !run {
      return t.(chip := c1);
    }
    var (c2, busy) := ReadReg(c1, CAL_CONFIG);
    CalibrationFinished(o, busy);
    t' := t.(chip := ClearStatusFlags(c2));
  }

  /** `set_adc_gain(s)`: a sensitivity outside 0..3 raises ValueError before
      any bus access; otherwise bits 6..7 of extended address 0x187 become `s`
      and its other bits, every other address and register 4 are kept. */
  method SetAdcGain(c: Chip, s: int) returns (c': Chip, err: Option<Exception>)
    requires c.Valid()
    ensures err.Some? <==> !(0 <= s < 4)
    ensures err.Some? ==> err == Some(ValueError) && c' == c
    ensures err.None? ==> c'.Valid() && c'.ext == c.ext[ADC_GAIN_ADDR := c'.Ext(ADC_GAIN_ADDR)]
    ensures err.None? ==> c'.Ext(ADC_GAIN_ADDR) / 64 == s && c'.Ext(ADC_GAIN_ADDR) % 64 == c.Ext(ADC_GAIN_ADDR) % 64
    ensures err.None? ==> c'.regs == EraRegs(c.regs, c'.Ext(ADC_GAIN_ADDR), ADC_GAIN_ADDR)
    ensures err.None? ==> FeedKept(c, c')
  {
    if !(0 <= s < 4) {
      return c, Some(ValueError);
    }
    var c1, v := ReadExt(c, ADC_GAIN_ADDR);
    c' := WriteExt(c1, ADC_GAIN_ADDR, AdcGain(v, s));
    KeptTwice(c, c1, c');
    EraRegsTwice(c.regs, v, ADC_GAIN_ADDR, AdcGain(v, s), ADC_GAIN_ADDR);
    err := None;
  }

  /** `tune_edge_sensitivity(x, y)`: the two wide-Z thresholds stored at
      extended addresses 0x149 and 0x168, truncated to a byte as the bus
      transfers them. */
  method TuneEdgeSensitivity(c: Chip, x: int, y: int) returns (c': Chip)
    requires c.Valid()
    ensures c'.Valid()
    ensures c'.ext == c.ext[X_WIDE_Z_MIN_ADDR := LowByte(x)][Y_WIDE_Z_MIN_ADDR := LowByte(y)]
    ensures c'.regs == EraRegs(c.regs, LowByte(y), Y_WIDE_Z_MIN_ADDR)
    ensures FeedKept(c, c')
  {
    var c1 := WriteExt(c, X_WIDE_Z_MIN_ADDR, LowByte(x));
    c' := WriteExt(c1, Y_WIDE_Z_MIN_ADDR, LowByte(y));
    KeptTwice(c, c1, c');
    EraRegsTwice(c.regs, LowByte(x), X_WIDE_Z_MIN_ADDR, LowByte(y), Y_WIDE_Z_MIN_ADDR);
  }

  // ---------------------------------------------------------------------------
  // An ERA write over SPI with a value that is not a byte

  /** `_era_write(reg, value)` over SPI, as written, for any int `value`: the
      feed state is saved and the feed switched off, then `_rap_write(0x1B,
      value)` builds the frame `bytes([0x9B, value])`, which raises ValueError
      for a value outside 0..255. The exception leaves memory untouched and
      skips the restore, so register 4 keeps its feed bit cleared. */
  method SpiEraWrite(c: Chip, a: ExtAddr, v: int) returns (c': Chip, err: Option<Exception>)
    requires c.Valid()
    ensures c'.Valid()
    ensures err.Some? <==> !(0 <= v < 256)
    ensures err.Some? ==> err == Some(ValueError) && c'.ext == c.ext &&
                          c'.regs == c.regs[FEED_CONFIG1 := WithFeed(c.regs[FEED_CONFIG1], false)]
    ensures err.None? ==> c'.ext == c.ext[a := v] && c'.regs == EraRegs(c.regs, v, a) && FeedKept(c, c')
  {
    var c1, _ := PauseFeed(c);
    var frame := SpiWriteFrame(ERA_VALUE, v);
    if frame.Failure? {
      return c1, Some(frame.error);
    }
    c' := WriteExt(c, a, v);
    err := None;
  }

  /** The SPI ERA write as evidently intended: the feed put back whether or
      not the value fits in a byte, so register 4 always ends as it started. */
  method SpiEraWriteFixed(c: Chip, a: ExtAddr, v: int) returns (c': Chip, err: Option<Exception>)
    requires c.Valid()
    ensures c'.Valid()
    ensures err.Some? <==> !(0 <= v < 256)
    ensures err.Some? ==> err == Some(ValueError) && c'.ext == c.ext && c'.regs == c.regs
    ensures err.None? ==> c'.ext == c.ext[a := v] && c'.regs == EraRegs(c.regs, v, a)
    ensures c'.regs[FEED_CONFIG1] == c.regs[FEED_CONFIG1] && FeedKept(c, c')
  {
    var c1, _ := PauseFeed(c);
    var frame := SpiWriteFrame(ERA_VALUE, v);
    if frame.Failure? {
      c' := ResumeFeed(c1, c.regs[FEED_CONFIG1]);
      BracketKept(c, c', []);
      return c', Some(frame.error);
    }
    c' := WriteExt(c, a, v);
    err := None;
  }

  /** `tune_edge_sensitivity(x, y)` over SPI, as written: a threshold outside
      0..255 raises ValueError inside its ERA write, after the thresholds
      before it were stored, and the feed stays off. */
  method SpiTuneEdgeSensitivity(c: Chip, x: int, y: int) returns (c': Chip, err: Option<Exception>)
    requires c.Valid()
    ensures c'.Valid()
    ensures err.Some? <==> !(0 <= x < 256 && 0 <= y < 256)
    ensures err.Some? ==> err == Some(ValueError) && c'.regs[FEED_CONFIG1] == WithFeed(c.regs[FEED_CONFIG1], false)
    ensures !(0 <= x < 256) ==> c'.ext == c.ext
    ensures 0 <= x < 256 && !(0 <= y < 256) ==> c'.ext == c.ext[X_WIDE_Z_MIN_ADDR := x]
    ensures err.None? ==> c'.ext == c.ext[X_WIDE_Z_MIN_ADDR := x][Y_WIDE_Z_MIN_ADDR := y] && FeedKept(c, c')
  {
    var c1;
    c1, err := SpiEraWrite(c, X_WIDE_Z_MIN_ADDR, x);
    if err.Some? {
      return c1, err;
    }
    c', err := SpiEraWrite(c1, Y_WIDE_Z_MIN_ADDR, y);
    if err.None? {
      KeptTwice(c, c1, c');
    }
  }

  /** With the feed on, `tune_edge_sensitivity(300, 3)` over SPI raises
      ValueError and leaves the feed off. */
  method TuneLeavesFeedOff(c: Chip) returns (c': Chip, err: Option<Exception>)
    requires c.Valid() && c.regs[FEED_CONFIG1] % 2 == 1
    ensures c'.Valid() && err == Some(ValueError) && c'.regs[FEED_CONFIG1] % 2 == 0
  {
    c', err := SpiTuneEdgeSensitivity(c, 300, 3);
  }

  /** `tune_edge_sensitivity(x, y)` over SPI as evidently intended: the same
      stores and the same ValueError, but register 4 always ends as it started. */
  method SpiTuneEdgeSensitivityFixed(c: Chip, x: int, y: int) returns (c': Chip, err: Option<Exception>)
    requires c.Valid()
    ensures c'.Valid()
    ensures err.Some? <==> !(0 <= x < 256 && 0 <= y < 256)
    ensures err.Some? ==> err == Some(ValueError)
    ensures !(0 <= x < 256) ==> c'.ext == c.ext
    ensures 0 <= x < 256 && !(0 <= y < 256) ==> c'.ext == c.ext[X_WIDE_Z_MIN_ADDR := x]
    ensures err.None? ==> c'.ext == c.ext[X_WIDE_Z_MIN_ADDR := x][Y_WIDE_Z_MIN_ADDR := y]
    ensures c'.regs[FEED_CONFIG1] == c.regs[FEED_CONFIG1] && FeedKept(c, c')
  {
    var c1;
    c1, err := SpiEraWriteFixed(c, X_WIDE_Z_MIN_ADDR, x);
    if err.Some? {
      return c1, err;
    }
    c', err := SpiEraWriteFixed(c1, Y_WIDE_Z_MIN_ADDR, y);
    KeptTwice(c, c1, c');
  }

  // ---------------------------------------------------------------------------
  // Relative and Absolute mode settings, reports

  /** `relative_mode_config(...)`: in Relative mode register 5 receives the
      options, every one of which can be read back from it; in any other mode
      nothing happens. */
  method RelativeModeConfig(t: Touch, o: RelativeOptions) returns (t': Touch)
    requires t.chip.Valid()
    ensures t.mode != RELATIVE ==> t' == t
    ensures t.mode == RELATIVE ==>
              t' == t.(chip := t.chip.(regs := t.chip.regs[FEED_CONFIG2 := PackRelative(o)],
                                       trace := t.chip.trace + [Write(FEED_CONFIG2, PackRelative(o))]))
    ensures t.mode == RELATIVE ==> UnpackRelative(t'.chip.regs[FEED_CONFIG2]) == o
  {
    if t.mode == RELATIVE {
      RelativeRoundTrip(o);
      t' := t.(chip := WriteReg(t.chip, FEED_CONFIG2, PackRelative(o)));
    } else {
      t' := t;
    }
  }

  /** `absolute_mode_config(z_idle_count, invert_x, invert_y)`: in Absolute
      mode register 0x0A receives the idle-packet count clamped to 0..255, and
      register 4 gets the two invert bits (7 for Y, 6 for X) with its low six
      bits, the feed and mode bits among them, kept; in any other mode nothing
      happens. */
  method AbsoluteModeConfig(t: Touch, zIdle: int, invertX: bool, invertY: bool) returns (t': Touch)
    requires t.chip.Valid()
    ensures t.mode != ABSOLUTE ==> t' == t
    ensures t.mode == ABSOLUTE ==>
              var r4 := AbsoluteConfig1(t.chip.regs[FEED_CONFIG1], invertX, invertY);
              t' == t.(chip := t.chip.(regs := t.chip.regs[Z_IDLE := Clamp(zIdle, 0, 255)][FEED_CONFIG1 := r4],
                                       trace := t.chip.trace + [Write(Z_IDLE, Clamp(zIdle, 0, 255)), Read(FEED_CONFIG1), Write(FEED_CONFIG1, r4)]))
    ensures t.mode == ABSOLUTE ==>
              t'.chip.regs[FEED_CONFIG1] % 64 == t.chip.regs[FEED_CONFIG1] % 64 &&
              t'.chip.regs[FEED_CONFIG1] / 128 == B(invertY) && t'.chip.regs[FEED_CONFIG1] / 64 % 2 == B(invertX)
    ensures t.mode == ABSOLUTE && 0 <= zIdle < 256 ==> t'.chip.regs[Z_IDLE] == zIdle
  {
    if t.mode == ABSOLUTE {
      var c1 := WriteReg(t.chip, Z_IDLE, Clamp(zIdle, 0, 255));
      var (c2, prev) := ReadReg(c1, FEED_CONFIG1);
      t' := t.(chip := WriteReg(c2, FEED_CONFIG1, AbsoluteConfig1(prev, invertX, invertY)));
    } else {
      t' := t;
    }
  }

  /** `read()`: in AnyMeas mode nothing. In Absolute mode the six packet bytes
      from register 0x12, decoded to buttons, X, Y and Z; in Relative mode the
      four packet bytes with the button byte cut to its three button bits.
      Either way the status register is cleared afterwards. */
  method ReadReport(t: Touch) returns (c': Chip, r: Option<seq<int>>)
    requires t.chip.Valid()
    ensures t.mode == ANYMEAS ==> c' == t.chip && r == None
    ensures t.mode == ABSOLUTE ==>
              r == Some(AbsoluteReport(t.chip.regs[PACKET_BYTE_0..PACKET_BYTE_0 + 6])) &&
              c' == t.chip.(regs := t.chip.regs[STATUS := 0],
                            trace := t.chip.trace + ReadEvents(PACKET_BYTE_0, 6) + [Write(STATUS, 0)])
    ensures t.mode == RELATIVE ==>
              r == Some(RelativeReport(t.chip.regs[PACKET_BYTE_0..PACKET_BYTE_0 + 4])) &&
              c' == t.chip.(regs := t.chip.regs[STATUS := 0],
                            trace := t.chip.trace + ReadEvents(PACKET_BYTE_0, 4) + [Write(STATUS, 0)])
    ensures t.mode != ANYMEAS && t.mode != ABSOLUTE && t.mode != RELATIVE ==>
              r == None && c' == ClearStatusFlags(t.chip)
  {
    if t.mode == ANYMEAS {
      return t.chip, None;
    }
    var c := t.chip;
    r := None;
    if t.mode == ABSOLUTE {
      var raw;
      c, raw := ReadRegs(c, PACKET_BYTE_0, 6);
      r := Some(AbsoluteReport(raw));
    } else if t.mode == RELATIVE {
      var raw;
      c, raw := ReadRegs(c, PACKET_BYTE_0, 4);
      r := Some(RelativeReport(raw));
    }
    c' := ClearStatusFlags(c);
  }

  // ---------------------------------------------------------------------------
  // AnyMeas mode

  /** The eight zero bytes that reset the toggle and polarity registers. */
  const ZEROS: seq<Byte> := [0, 0, 0, 0, 0, 0, 0, 0]

  /** Values that already fit in a byte cross the bus unchanged. */
  lemma LowBytesSmall(vs: seq<int>)
    requires forall i :: 0 <= i < |vs| ==> 0 <= vs[i] < 256
    ensures LowBytes(vs) == vs
  {
  }

  /** The register file `anymeas_mode_config` leaves: the ten configuration
      bytes in registers 5..14, zeros in the toggle/polarity registers
      0x13..0x1A, the status register clear, every other register kept. */
  function AnymeasRegs(regs: seq<Byte>, cfg: seq<Byte>): (r: seq<Byte>)
    requires |regs| == 32 && |cfg| == 10
    ensures |r| == 32 && r[FEED_CONFIG2..FEED_CONFIG2 + 10] == cfg && r[PACKET_BYTE_1..PACKET_BYTE_1 + 8] == ZEROS
    ensures r[STATUS] == 0
    ensures forall i :: (0 <= i < 32 && i != STATUS && !(FEED_CONFIG2 <= i < FEED_CONFIG2 + 10) &&
                         !(PACKET_BYTE_1 <= i < PACKET_BYTE_1 + 8)) ==> r[i] == regs[i]
  {
    var r1 := regs[..FEED_CONFIG2] + cfg + regs[FEED_CONFIG2 + 10..];
    var r2 := r1[..PACKET_BYTE_1] + ZEROS + r1[PACKET_BYTE_1 + 8..];
    assert r2[FEED_CONFIG2..FEED_CONFIG2 + 10] == r1[FEED_CONFIG2..FEED_CONFIG2 + 10] == cfg;
    r2[STATUS := 0]
  }

  /** `anymeas_mode_config(gain, frequency, sample_length, mux_ctrl,
      apperture_width, ctrl_pwr_cnt)`: in AnyMeas mode the ten configuration
      bytes go to registers 5..14, eight zeros to 0x13..0x1A, and the status
      register is cleared; in any other mode nothing happens. */
  method AnymeasModeConfig(t: Touch, gain: int, freq: int, bits: int, mux: int, ns: int, ctrl: int) returns (t': Touch)
    requires t.chip.Valid()
    ensures t.mode != ANYMEAS ==> t' == t
    ensures t.mode == ANYMEAS ==>
              var cfg := LowBytes(AnymeasConfig(gain, freq, bits, mux, ns, ctrl));
              t' == t.(chip := t.chip.(regs := AnymeasRegs(t.chip.regs, cfg),
                                       trace := t.chip.trace + WriteEvents(FEED_CONFIG2, cfg) + WriteEvents(PACKET_BYTE_1, ZEROS)
                                                + [Write(STATUS, 0)]))
  {
    if t.mode != ANYMEAS {
      return t;
    }
    var cfg := LowBytes(AnymeasConfig(gain, freq, bits, mux, ns, ctrl));
    var c1 := WriteRegs(t.chip, FEED_CONFIG2, cfg);
    var c2 := WriteRegs(c1, PACKET_BYTE_1, ZEROS);
    var c3 := ClearStatusFlags(c2);
    assert c3.regs == AnymeasRegs(t.chip.regs, cfg);
    Assoc(t.chip.trace, WriteEvents(FEED_CONFIG2, cfg), WriteEvents(PACKET_BYTE_1, ZEROS));
    t' := t.(chip := c3);
  }

  /** With its default arguments `anymeas_mode_config` writes the template
      configuration itself. */
  lemma AnymeasDefaultRegs(regs: seq<Byte>)
    requires |regs| == 32
    ensures LowBytes(AnymeasConfig(GAIN_200, FREQ_0, 512, MUX_PNP, 500, 1)) == TEMPLATE
    ensures AnymeasRegs(regs, LowBytes(AnymeasConfig(GAIN_200, FREQ_0, 512, MUX_PNP, 500, 1)))[FEED_CONFIG2..FEED_CONFIG2 + 10] == TEMPLATE
  {
    AnymeasDefaults();
    LowBytesSmall(TEMPLATE);
  }

  /** The register file after the eight toggle/polarity bytes are written
      from register 0x13: those eight replaced, the rest kept. */
  function ToggleRegs(regs: seq<Byte>, v: seq<Byte>): (r: seq<Byte>)
    requires |regs| == 32 && |v| == 8
    ensures |r| == 32 && r[PACKET_BYTE_1..PACKET_BYTE_1 + 8] == v
    ensures forall i :: (0 <= i < 32 && !(PACKET_BYTE_1 <= i < PACKET_BYTE_1 + 8)) ==> r[i] == regs[i]
  {
    regs[..PACKET_BYTE_1] + v + regs[PACKET_BYTE_1 + 8..]
  }

  /** The chip once a measurement has been started from `c`: the toggle and
      polarity bytes in registers 0x13..0x1A, both AnyMeas flags raised in
      register 3, and the accesses that did it. */
  function Started(c: Chip, toggle: int, polarity: int): (c': Chip)
    requires c.Valid()
  {
    var v := LowBytes(ToggleVector(toggle, polarity));
    var sys := StartMeasureFlags(c.regs[SYS_CONFIG]);
    c.(regs := ToggleRegs(c.regs, v)[SYS_CONFIG := sys],
       trace := c.trace + WriteEvents(PACKET_BYTE_1, v) + [Read(SYS_CONFIG), Write(SYS_CONFIG, sys)])
  }

  /** The chip once the two result bytes have been read and the status
      register cleared. */
  function ResultTaken(c: Chip): (c': Chip)
    requires c.Valid()
  {
    c.(regs := c.regs[STATUS := 0], trace := c.trace + ReadEvents(ADC_RESULT, 2) + [Write(STATUS, 0)])
  }

  /** `start_measure_adc(bits_to_toggle, toggle_polarity)`: in AnyMeas mode the
      toggle mask and then the polarity mask go to registers 0x13..0x1A, most
      significant byte first, and register 3 gets both AnyMeas flags (bits 3
      and 4) set, its other bits kept, which starts the measurement. In any
      other mode nothing happens. */
  method StartMeasureAdc(t: Touch, toggle: int, polarity: int) returns (c': Chip)
    requires t.chip.Valid()
    ensures t.mode != ANYMEAS ==> c' == t.chip
    ensures t.mode == ANYMEAS ==> c' == Started(t.chip, toggle, polarity)
    ensures t.mode == ANYMEAS ==> c'.regs[PACKET_BYTE_1..PACKET_BYTE_1 + 8] == ToggleVector(toggle, polarity)
    ensures t.mode == ANYMEAS ==>
              FromBigEndian(c'.regs[PACKET_BYTE_1..PACKET_BYTE_1 + 4]) == toggle % 0x1_0000_0000 &&
              FromBigEndian(c'.regs[PACKET_BYTE_1 + 4..PACKET_BYTE_1 + 8]) == polarity % 0x1_0000_0000
    ensures t.mode == ANYMEAS ==>
              c'.regs[SYS_CONFIG] / 8 % 4 == 3 && c'.regs[SYS_CONFIG] % 8 == t.chip.regs[SYS_CONFIG] % 8 &&
              c'.regs[SYS_CONFIG] / 32 == t.chip.regs[SYS_CONFIG] / 32
  {
    if t.mode != ANYMEAS {
      return t.chip;
    }
    var v := ToggleVector(toggle, polarity);
    var c1 := WriteToggles(t.chip, v);
    var (c2, prev) := ReadReg(c1, SYS_CONFIG);
    c' := WriteReg(c2, SYS_CONFIG, StartMeasureFlags(prev));
    AnymeasFlagsKept(prev);
    assert c'.regs[PACKET_BYTE_1..PACKET_BYTE_1 + 8] == v;
    assert c'.regs[PACKET_BYTE_1..PACKET_BYTE_1 + 4] == v[..4];
    assert c'.regs[PACKET_BYTE_1 + 4..PACKET_BYTE_1 + 8] == v[4..];
  }

  /** The block write of the toggle and polarity bytes. */
  method WriteToggles(c: Chip, v: seq<int>) returns (c': Chip)
    requires c.Valid() && |v| == 8 && forall i :: 0 <= i < 8 ==> 0 <= v[i] < 256
    ensures c' == c.(regs := ToggleRegs(c.regs, LowBytes(v)), trace := c.trace + WriteEvents(PACKET_BYTE_1, LowBytes(v)))
    ensures c'.regs[PACKET_BYTE_1..PACKET_BYTE_1 + 8] == v
  {
    LowBytesSmall(v);
    c' := WriteRegs(c, PACKET_BYTE_1, LowBytes(v));
  }

  /** `get_measure_adc()` with the data-ready pin at `level`: outside AnyMeas,
      or while a data-ready pin is low, nothing; otherwise the two result
      bytes from register 0x11, then the status register cleared. */
  method GetMeasureAdc(t: Touch, level: bool) returns (c': Chip, r: Option<seq<int>>)
    requires t.chip.Valid()
    ensures t.mode != ANYMEAS || (t.hasDr && !level) ==> c' == t.chip && r == None
    ensures t.mode == ANYMEAS && !(t.hasDr && !level) ==>
              r == Some(t.chip.regs[ADC_RESULT..ADC_RESULT + 2]) &&
              c' == t.chip.(regs := t.chip.regs[STATUS := 0],
                            trace := t.chip.trace + ReadEvents(ADC_RESULT, 2) + [Write(STATUS, 0)])
  {
    if t.mode != ANYMEAS || (t.hasDr && !level) {
      return t.chip, None;
    }
    var c1, raw := ReadRegs(t.chip, ADC_RESULT, 2);
    c' := ClearStatusFlags(c1);
    r := Some(raw);
  }

  /** Whether poll `i` of `get_measure_adc` finds a result. */
  predicate Ready(t: Touch, level: bool) {
    t.mode == ANYMEAS && !(t.hasDr && !level)
  }

  /** `measure_adc(bits_to_toggle, toggle_polarity)` as written: start the
      measurement, then call `get_measure_adc` until it returns something.
      The pin levels the successive polls see are `levels`; the model stops
      when they run out. Outside AnyMeas no poll ever returns anything, so the
      loop uses up every level it is given: the call never returns. In AnyMeas
      it returns the result registers at the first poll that finds the data
      ready. */
  method MeasureAdc(t: Touch, toggle: int, polarity: int, levels: seq<bool>) returns (t': Touch, r: Option<seq<int>>, polls: nat)
    requires t.chip.Valid()
    ensures t'.mode == t.mode && t'.hasDr == t.hasDr && t'.chip.Valid()
    ensures t.mode != ANYMEAS ==> t' == t && r == None && polls == |levels|
    ensures r.Some? <==> exists i :: 0 <= i < |levels| && Ready(t, levels[i])
    ensures r.None? ==> polls == |levels|
    ensures r.Some? ==> 0 < polls <= |levels| && Ready(t, levels[polls - 1]) &&
                        (forall i :: 0 <= i < polls - 1 ==> !Ready(t, levels[i])) &&
                        r == Some(t.chip.regs[ADC_RESULT..ADC_RESULT + 2]) && t'.chip.regs[STATUS] == 0
    ensures t.mode == ANYMEAS ==>
              t'.chip.regs[PACKET_BYTE_1..PACKET_BYTE_1 + 8] == ToggleVector(toggle, polarity) &&
              t'.chip.regs[SYS_CONFIG] == StartMeasureFlags(t.chip.regs[SYS_CONFIG])
    ensures t.mode == ANYMEAS ==>
              t'.chip == if r.Some? then ResultTaken(Started(t.chip, toggle, polarity)) else Started(t.chip, toggle, polarity)
  {
    var c := StartMeasureAdc(t, toggle, polarity);
    assert c.regs[ADC_RESULT..ADC_RESULT + 2] == t.chip.regs[ADC_RESULT..ADC_RESULT + 2];
    t', r, polls := AwaitMeasure(t.(chip := c), levels);
    if r.Some? {
      assert t'.chip.regs[PACKET_BYTE_1..PACKET_BYTE_1 + 8] == c.regs[PACKET_BYTE_1..PACKET_BYTE_1 + 8];
    }
  }

  /** The loop of `measure_adc`: `get_measure_adc` called once per level until
      it returns something. The polls that find nothing leave the chip alone;
      the first that finds the data ready reads the result and clears the
      status register, and the loop ends there. */
  method AwaitMeasure(t: Touch, levels: seq<bool>) returns (t': Touch, r: Option<seq<int>>, polls: nat)
    requires t.chip.Valid()
    ensures r.None? ==> t' == t && polls == |levels| && forall i :: 0 <= i < |levels| ==> !Ready(t, levels[i])
    ensures r.Some? ==> 0 < polls <= |levels| && Ready(t, levels[polls - 1]) &&
                        (forall i :: 0 <= i < polls - 1 ==> !Ready(t, levels[i])) &&
                        r == Some(t.chip.regs[ADC_RESULT..ADC_RESULT + 2]) &&
                        t' == t.(chip := ResultTaken(t.chip))
  {
    t' := t;
    r := None;
    polls := 0;
    while r.None? && polls < |levels|
      invariant polls <= |levels|
      invariant r.None? ==> t' == t && forall i :: 0 <= i < polls ==> !Ready(t, levels[i])
      invariant r.Some? ==> 0 < polls && Ready(t, levels[polls - 1]) &&
                            (forall i :: 0 <= i < polls - 1 ==> !Ready(t, levels[i])) &&
                            r == Some(t.chip.regs[ADC_RESULT..ADC_RESULT + 2]) &&
                            t' == t.(chip := ResultTaken(t.chip))
      decreases |levels| - polls
    {
      var c1;
      c1, r := GetMeasureAdc(t', levels[polls]);
      t' := t'.(chip := c1);
      polls := polls + 1;
    }
  }

  /** `measure_adc` as its documentation describes it: outside AnyMeas it
      returns nothing at once, without touching the chip. */
  method MeasureAdcFixed(t: Touch, toggle: int, polarity: int, levels: seq<bool>) returns (t': Touch, r: Option<seq<int>>, polls: nat)
    requires t.chip.Valid()
    ensures t'.mode == t.mode && t'.hasDr == t.hasDr && t'.chip.Valid()
    ensures t.mode != ANYMEAS ==> t' == t && r == None && polls == 0
    ensures t.mode == ANYMEAS ==> (r.Some? <==> exists i :: 0 <= i < |levels| && Ready(t, levels[i]))
    ensures t.mode == ANYMEAS ==>
              t'.chip == if r.Some? then ResultTaken(Started(t.chip, toggle, polarity)) else Started(t.chip, toggle, polarity)
    ensures r.Some? ==> 0 < polls <= |levels| && Ready(t, levels[polls - 1]) &&
                        (forall i :: 0 <= i < polls - 1 ==> !Ready(t, levels[i])) &&
                        r == Some(t.chip.regs[ADC_RESULT..ADC_RESULT + 2])
  {
    if t.mode != ANYMEAS {
      return t, None, 0;
    }
    t', r, polls := MeasureAdc(t, toggle, polarity, levels);
  }

  // ---------------------------------------------------------------------------
  // Data mode and start-up

  /** Whether `mode` is one of the three data modes. */
  predicate IsMode(mode: int) {
    mode == RELATIVE || mode == ANYMEAS || mode == ABSOLUTE
  }

  /** The AnyMeas configuration `anymeas_mode_config()` writes with its
      default arguments. */
  function DefaultAnymeasConfig(): (cfg: seq<Byte>)
    ensures cfg == TEMPLATE
  {
    AnymeasDefaults();
    LowBytesSmall(TEMPLATE);
    LowBytes(AnymeasConfig(GAIN_200, FREQ_0, 512, MUX_PNP, 500, 1))
  }

  /** The register file after `data_mode` leaves AnyMeas for Relative or
      Absolute mode: the AnyMeas flags of register 3 cleared, the feed and
      mode bits in register 4, taps off in register 5, every compensation on in
      register 7, 30 idle packets in register 0x0A. */
  function LeaveAnymeasRegs(regs: seq<Byte>, mode: int): (r: seq<Byte>)
    requires |regs| == 32 && (mode == RELATIVE || mode == ABSOLUTE)
    ensures |r| == 32 && r[SYS_CONFIG] / 8 % 4 == 0 && r[FEED_CONFIG1] == mode + 1
    ensures UnpackRelative(r[FEED_CONFIG2]) == RelativeOptions(false, false, true, true, false)
    ensures UnpackCalibration(r[CAL_CONFIG]) == (CalibrationOptions(true, true, true, true), false)
    ensures forall i :: 0 <= i < 32 && i !in {SYS_CONFIG, FEED_CONFIG1, FEED_CONFIG2, CAL_CONFIG, Z_IDLE} ==> r[i] == regs[i]
  {
    AnymeasFlagsKept(regs[SYS_CONFIG]);
    regs[SYS_CONFIG := ClearAnymeasFlags(regs[SYS_CONFIG])][FEED_CONFIG1 := FeedMode(mode)][FEED_CONFIG2 := 2]
        [CAL_CONFIG := 0x1E][Z_IDLE := 30]
  }

  /** The writes of `data_mode = mode` that leave AnyMeas, as written:
      registers 3..5 in one block, then `sample_rate = 100` while the driver
      is still in AnyMeas mode, which therefore does nothing, then registers 7
      and 0x0A. The sample rate is left as it was. */
  method LeaveAnymeas(c: Chip, mode: int, hasDr: bool) returns (c': Chip)
    requires c.Valid() && (mode == RELATIVE || mode == ABSOLUTE)
    ensures c' == c.(regs := LeaveAnymeasRegs(c.regs, mode),
                     trace := c.trace + WriteEvents(SYS_CONFIG, [ClearAnymeasFlags(c.regs[SYS_CONFIG]), FeedMode(mode), 2])
                              + [Write(CAL_CONFIG, 0x1E), Write(Z_IDLE, 30)])
    ensures c'.regs[SAMPLE_RATE] == c.regs[SAMPLE_RATE] && c'.ext == c.ext
  {
    var c2 := WriteRegs(c, SYS_CONFIG, [ClearAnymeasFlags(c.regs[SYS_CONFIG]), FeedMode(mode), 2]);
    var t3 := SetSampleRate(Touch(c2, ANYMEAS, hasDr), 100);
    var c4 := WriteReg(t3.chip, CAL_CONFIG, 0x1E);
    c' := WriteReg(c4, Z_IDLE, 30);
    Assoc(c.trace, WriteEvents(SYS_CONFIG, [ClearAnymeasFlags(c.regs[SYS_CONFIG]), FeedMode(mode), 2]), [Write(CAL_CONFIG, 0x1E)]);
  }

  /** `sample_rate = 100` outside AnyMeas, seen from registers 3..5, which it
      leaves alone. */
  method ResetSampleRate(c: Chip, mode: int, hasDr: bool) returns (c': Chip)
    requires c.Valid() && mode != ANYMEAS
    ensures c'.Valid()
    ensures c'.regs[SYS_CONFIG] == c.regs[SYS_CONFIG] && c'.regs[FEED_CONFIG1] == c.regs[FEED_CONFIG1]
    ensures c'.regs[FEED_CONFIG2] == c.regs[FEED_CONFIG2]
    ensures c'.regs[SAMPLE_RATE] == 100 && c'.regs[FEED_CONFIG3] == Config3For(100)
    ensures c'.ext == c.ext[RELOAD_TIMER_ADDR := ReloadTimer(100)][RELOAD_TIMER_ADDR + 1 := ReloadTimer(100)]
  {
    var t := SetSampleRate(Touch(c, mode, hasDr), 100);
    SampleRateKeeps(c.regs, 100, SYS_CONFIG);
    SampleRateKeeps(c.regs, 100, FEED_CONFIG1);
    SampleRateKeeps(c.regs, 100, FEED_CONFIG2);
    c' := t.chip;
  }

  /** The block write of registers 3..5 that leaves AnyMeas. */
  method WriteLeaveBlock(c: Chip, mode: int) returns (c': Chip)
    requires c.Valid() && (mode == RELATIVE || mode == ABSOLUTE)
    ensures c'.Valid() && c'.ext == c.ext
    ensures c'.regs[SYS_CONFIG] == ClearAnymeasFlags(c.regs[SYS_CONFIG])
    ensures c'.regs[FEED_CONFIG1] == FeedMode(mode) && c'.regs[FEED_CONFIG2] == 2
  {
    c' := WriteRegs(c, SYS_CONFIG, [ClearAnymeasFlags(c.regs[SYS_CONFIG]), FeedMode(mode), 2]);
  }

  /** The same writes with `sample_rate = 100` applied in the new mode, as the
      setter evidently intends: registers 3, 4, 5, 7 and 0x0A as `LeaveAnymeas`
      leaves them, and the sample rate back at 100 with its compensations and
      reload timer. */
  method LeaveAnymeasFixed(c: Chip, mode: int, hasDr: bool) returns (c': Chip)
    requires c.Valid() && (mode == RELATIVE || mode == ABSOLUTE)
    ensures c'.Valid()
    ensures c'.regs[SYS_CONFIG] == ClearAnymeasFlags(c.regs[SYS_CONFIG]) && c'.regs[FEED_CONFIG1] == mode + 1
    ensures UnpackRelative(c'.regs[FEED_CONFIG2]) == RelativeOptions(false, false, true, true, false)
    ensures UnpackCalibration(c'.regs[CAL_CONFIG]) == (CalibrationOptions(true, true, true, true), false)
    ensures c'.regs[Z_IDLE] == 30
    ensures c'.regs[SAMPLE_RATE] == 100 && c'.regs[FEED_CONFIG3] == Config3For(100)
    ensures c'.ext == c.ext[RELOAD_TIMER_ADDR := ReloadTimer(100)][RELOAD_TIMER_ADDR + 1 := ReloadTimer(100)]
  {
    var c2 := WriteLeaveBlock(c, mode);
    var c3 := ResetSampleRate(c2, mode, hasDr);
    var c4 := WriteReg(c3, CAL_CONFIG, 0x1E);
    c' := WriteReg(c4, Z_IDLE, 30);
    LeaveValues(c.regs, mode);
  }

  /** What registers 4, 5 and 7 hold once AnyMeas is left. */
  lemma LeaveValues(regs: seq<Byte>, mode: int)
    requires |regs| == 32 && (mode == RELATIVE || mode == ABSOLUTE)
    ensures FeedMode(mode) == mode + 1
    ensures UnpackRelative(2) == RelativeOptions(false, false, true, true, false)
    ensures UnpackCalibration(0x1E) == (CalibrationOptions(true, true, true, true), false)
  {
    var r := LeaveAnymeasRegs(regs, mode);
  }

  // ---------------------------------------------------------------------------
  // data_mode

  /** The register file entering AnyMeas from AnyMeas leaves: the AnyMeas
      flags of register 3 set to "tracking off", then the default
      configuration written. */
  function ReenterRegs(regs: seq<Byte>): (r: seq<Byte>)
    requires |regs| == 32
    ensures |r| == 32 && r[SYS_CONFIG] == EnterAnymeasFlags(regs[SYS_CONFIG])
    ensures r[FEED_CONFIG2..FEED_CONFIG2 + 10] == TEMPLATE && r[STATUS] == 0
  {
    AnymeasRegs(regs[SYS_CONFIG := EnterAnymeasFlags(regs[SYS_CONFIG])], DefaultAnymeasConfig())
  }

  /** `data_mode = mode` for Relative or Absolute mode, as written: from
      AnyMeas the leaving writes (which keep the sample rate), otherwise only
      register 4. Register 3 is read first either way. */
  method SwitchTracking(t: Touch, mode: int) returns (t': Touch)
    requires t.chip.Valid() && (mode == RELATIVE || mode == ABSOLUTE)
    ensures t'.chip.Valid() && t'.mode == mode && t'.hasDr == t.hasDr
    ensures t.mode != ANYMEAS ==>
              t'.chip == t.chip.(regs := t.chip.regs[FEED_CONFIG1 := mode + 1],
                                 trace := t.chip.trace + [Read(SYS_CONFIG), Write(FEED_CONFIG1, mode + 1)])
    ensures t.mode == ANYMEAS ==>
              t'.chip.regs == LeaveAnymeasRegs(t.chip.regs, mode) && t'.chip.ext == t.chip.ext
  {
    var (c1, _) := ReadReg(t.chip, SYS_CONFIG);
    var c2;
    if t.mode == ANYMEAS {
      c2 := LeaveAnymeas(c1, mode, t.hasDr);
    } else {
      c2 := WriteReg(c1, FEED_CONFIG1, FeedMode(mode));
    }
    t' := Touch(c2, mode, t.hasDr);
  }

  /** `data_mode = ANYMEAS`, as written: without a data-ready pin an
      AttributeError after the read of register 3; otherwise register 3 gets
      the "tracking off" flags, and the configuration is written only when the
      driver was already in AnyMeas, since `_mode` changes after the call. */
  method SwitchAnymeas(t: Touch) returns (t': Touch, err: Option<Exception>)
    requires t.chip.Valid()
    ensures err.Some? <==> !t.hasDr
    ensures err.Some? ==> err == Some(AttributeError) && t' == t.(chip := t.chip.(trace := t.chip.trace + [Read(SYS_CONFIG)]))
    ensures err.None? ==> t'.chip.Valid() && t'.mode == ANYMEAS && t'.hasDr && t'.chip.ext == t.chip.ext
    ensures err.None? && t.mode != ANYMEAS ==>
              var sys := EnterAnymeasFlags(t.chip.regs[SYS_CONFIG]);
              t'.chip == t.chip.(regs := t.chip.regs[SYS_CONFIG := sys],
                                 trace := t.chip.trace + [Read(SYS_CONFIG), Write(SYS_CONFIG, sys)])
    ensures err.None? && t.mode == ANYMEAS ==> t'.chip.regs == ReenterRegs(t.chip.regs)
  {
    var (c1, v) := ReadReg(t.chip, SYS_CONFIG);
    if !t.hasDr {
      return t.(chip := c1), Some(AttributeError);
    }
    var c2 := WriteReg(c1, SYS_CONFIG, EnterAnymeasFlags(v));
    var t3 := AnymeasModeConfig(Touch(c2, t.mode, true), GAIN_200, FREQ_0, 512, MUX_PNP, 500, 1);
    AnymeasDefaultRegs(c2.regs);
    t', err := Touch(t3.chip, ANYMEAS, true), None;
  }

  /** The `data_mode` setter, as written: a ValueError for a value that is
      not a mode, before any bus access; otherwise register 3 is read, the
      mode's registers are written and `_mode` becomes the new mode. */
  method SetDataMode(t: Touch, mode: int) returns (t': Touch, err: Option<Exception>)
    requires t.chip.Valid()
    ensures err == Some(ValueError) <==> !IsMode(mode)
    ensures err == Some(AttributeError) <==> mode == ANYMEAS && !t.hasDr
    ensures err.Some? ==> t'.mode == t.mode && t'.chip.regs == t.chip.regs && t'.chip.ext == t.chip.ext
    ensures err.None? ==> t'.chip.Valid() && t'.mode == mode && t'.hasDr == t.hasDr
    ensures err.None? && mode != ANYMEAS && t.mode != ANYMEAS ==>
              t'.chip.regs == t.chip.regs[FEED_CONFIG1 := mode + 1] && t'.chip.ext == t.chip.ext
    ensures err.None? && mode != ANYMEAS && t.mode == ANYMEAS ==>
              t'.chip.regs == LeaveAnymeasRegs(t.chip.regs, mode) && t'.chip.ext == t.chip.ext
    ensures err.None? && mode == ANYMEAS && t.mode != ANYMEAS ==>
              t'.chip.regs == t.chip.regs[SYS_CONFIG := EnterAnymeasFlags(t.chip.regs[SYS_CONFIG])]
    ensures err.None? && mode == ANYMEAS && t.mode == ANYMEAS ==> t'.chip.regs == ReenterRegs(t.chip.regs)
  {
    if !IsMode(mode) {
      return t, Some(ValueError);
    }
    if mode == ANYMEAS {
      t', err := SwitchAnymeas(t);
    } else {
      t' := SwitchTracking(t, mode);
      err := None;
    }
  }

  /** `data_mode = mode` with `_mode` set before the mode's configuration is
      written, as the setter evidently intends: leaving AnyMeas also restores
      the sample rate of 100, and entering AnyMeas always writes the default
      configuration. */
  method SetDataModeFixed(t: Touch, mode: int) returns (t': Touch, err: Option<Exception>)
    requires t.chip.Valid()
    ensures err == Some(ValueError) <==> !IsMode(mode)
    ensures err == Some(AttributeError) <==> mode == ANYMEAS && !t.hasDr
    ensures err.Some? ==> t'.mode == t.mode && t'.chip.regs == t.chip.regs && t'.chip.ext == t.chip.ext
    ensures err.None? ==> t'.chip.Valid() && t'.mode == mode && t'.hasDr == t.hasDr
    ensures err.None? && mode != ANYMEAS ==> t'.chip.regs[FEED_CONFIG1] == mode + 1
    ensures err.None? && mode != ANYMEAS && t.mode == ANYMEAS ==>
              t'.chip.regs[SAMPLE_RATE] == 100 && t'.chip.regs[FEED_CONFIG3] == 0 &&
              t'.chip.Ext(RELOAD_TIMER_ADDR) == 0x13 && t'.chip.Ext(RELOAD_TIMER_ADDR + 1) == 0x13
    ensures err.None? && mode == ANYMEAS ==> t'.chip.regs == ReenterRegs(t.chip.regs)
  {
    if !IsMode(mode) {
      return t, Some(ValueError);
    }
    var (c1, v) := ReadReg(t.chip, SYS_CONFIG);
    if mode == ANYMEAS {
      if !t.hasDr {
        return t.(chip := c1), Some(AttributeError);
      }
      var c2 := WriteReg(c1, SYS_CONFIG, EnterAnymeasFlags(v));
      var t3 := AnymeasModeConfig(Touch(c2, ANYMEAS, true), GAIN_200, FREQ_0, 512, MUX_PNP, 500, 1);
      AnymeasDefaultRegs(c2.regs);
      return t3, None;
    }
    var c2;
    if t.mode == ANYMEAS {
      c2 := LeaveAnymeasFixed(c1, mode, t.hasDr);
    } else {
      c2 := WriteReg(c1, FEED_CONFIG1, FeedMode(mode));
    }
    t', err := Touch(c2, mode, t.hasDr), None;
  }

  // ---------------------------------------------------------------------------
  // Start-up

  /** Register 0x0A and the block of registers 3..5 as the constructors write
      them: 30 idle packets; feed on in Relative mode with taps off. */
  method WriteStartBlock(c: Chip) returns (c': Chip)
    requires c.Valid()
    ensures c'.Valid() && c'.ext == c.ext
    ensures c'.regs[SYS_CONFIG] == 0 && c'.regs[FEED_CONFIG1] == 1 && c'.regs[FEED_CONFIG2] == 2
    ensures c'.regs[Z_IDLE] == 30
    ensures c'.regs[SAMPLE_RATE] == c.regs[SAMPLE_RATE] && c'.regs[FEED_CONFIG3] == c.regs[FEED_CONFIG3]
    ensures c'.regs[CAL_CONFIG] == c.regs[CAL_CONFIG]
  {
    var c1 := WriteReg(c, Z_IDLE, 30);
    c' := WriteRegs(c1, SYS_CONFIG, [0, 1, 2]);
  }

  /** The writes of the constructor after `detect_finger_stylus`: 30 idle
      packets, registers 3..5 in one block, and ADC gain 0. The sample-rate
      and calibration registers are left as they were. */
  method PowerOnWrites(c: Chip) returns (c': Chip)
    requires c.Valid()
    ensures c'.Valid()
    ensures c'.regs[SYS_CONFIG] == 0 && c'.regs[FEED_CONFIG1] == 1 && c'.regs[FEED_CONFIG2] == 2
    ensures c'.regs[Z_IDLE] == 30
    ensures c'.regs[SAMPLE_RATE] == c.regs[SAMPLE_RATE] && c'.regs[FEED_CONFIG3] == c.regs[FEED_CONFIG3]
    ensures c'.regs[CAL_CONFIG] == c.regs[CAL_CONFIG] && c'.regs[STATUS] == 0
    ensures c'.ext == c.ext[ADC_GAIN_ADDR := c'.Ext(ADC_GAIN_ADDR)]
    ensures c'.Ext(ADC_GAIN_ADDR) / 64 == 0 && c'.Ext(ADC_GAIN_ADDR) % 64 == c.Ext(ADC_GAIN_ADDR) % 64
  {
    var c2 := WriteStartBlock(c);
    var c3, _ := SetAdcGain(c2, 0);
    var g := c3.Ext(ADC_GAIN_ADDR);
    EraRegsKeeps(c2.regs, g, ADC_GAIN_ADDR, SYS_CONFIG);
    EraRegsKeeps(c2.regs, g, ADC_GAIN_ADDR, FEED_CONFIG1);
    EraRegsKeeps(c2.regs, g, ADC_GAIN_ADDR, FEED_CONFIG2);
    EraRegsKeeps(c2.regs, g, ADC_GAIN_ADDR, FEED_CONFIG3);
    EraRegsKeeps(c2.regs, g, ADC_GAIN_ADDR, SAMPLE_RATE);
    EraRegsKeeps(c2.regs, g, ADC_GAIN_ADDR, Z_IDLE);
    EraRegsKeeps(c2.regs, g, ADC_GAIN_ADDR, CAL_CONFIG);
    c' := c3;
  }

  /** The extended memory the constructor leaves: both detection bits set at
      0xEB, the reload timer for 100 Hz at 0x19E and 0x19F, ADC gain 0 in the
      top bits of 0x187 with its other bits kept, every other address kept. */
  predicate StartedMemory(m: map<ExtAddr, Byte>, m': map<ExtAddr, Byte>) {
    var gain := Get(m', ADC_GAIN_ADDR);
    m' == m[FINGER_STYLUS_ADDR := FingerStylus(Get(m, FINGER_STYLUS_ADDR), true, true)]
           [RELOAD_TIMER_ADDR := 0x13][RELOAD_TIMER_ADDR + 1 := 0x13][ADC_GAIN_ADDR := gain] &&
    gain / 64 == 0 && gain % 64 == Get(m, ADC_GAIN_ADDR) % 64
  }

  /** The constructor `PinnacleTouch(dr_pin)`: the identity bytes in registers
      0 and 1 must read 7 and 0x3A, otherwise a RuntimeError; then, in
      Relative mode, both detections on at 100 Hz, 30 idle packets, registers
      3..5 at 0, 1, 2 (feed on, taps off), ADC gain 0, and a calibration run
      with every compensation on. */
  method Init(c: Chip, hasDr: bool) returns (t: Touch, err: Option<Exception>)
    requires c.Valid()
    ensures err.Some? <==> c.regs[..2] != FIRMWARE
    ensures err.Some? ==> err == Some(RuntimeError) && t.chip == c.(trace := c.trace + ReadEvents(0, 2))
    ensures err.None? ==> t.mode == RELATIVE && t.hasDr == hasDr && t.chip.Valid()
    ensures err.None? ==>
              t.chip.regs[SYS_CONFIG] == 0 && t.chip.regs[FEED_CONFIG1] == 1 && t.chip.regs[Z_IDLE] == 30 &&
              UnpackRelative(t.chip.regs[FEED_CONFIG2]) == RelativeOptions(false, false, true, true, false)
    ensures err.None? ==>
              t.chip.regs[SAMPLE_RATE] == 100 && t.chip.regs[FEED_CONFIG3] == 0 && t.chip.regs[STATUS] == 0
    ensures err.None? ==>
              UnpackCalibration(t.chip.regs[CAL_CONFIG]) == (CalibrationOptions(true, true, true, true), false)
    ensures err.None? ==> StartedMemory(c.ext, t.chip.ext)
  {
    var c1, id := ReadRegs(c, 0, 2);
    if id != FIRMWARE {
      return Touch(c1, RELATIVE, hasDr), Some(RuntimeError);
    }
    var t2 := DetectFingerStylus(Touch(c1, RELATIVE, hasDr), true, true, 100);
    var c3 := PowerOnWrites(t2.chip);
    var t4 := Calibrate(Touch(c3, RELATIVE, hasDr), true, CalibrationOptions(true, true, true, true));
    LeaveValues(c.regs, RELATIVE);
    t, err := t4, None;
  }
}
