/** The lite driver's `PinnacleTouch`, a reduced driver for boards with little
    memory: no AnyMeas mode, no calibration and no checks of the mode before a
    setting is applied. Its feed control and ERA transactions are the current
    driver's and are modelled there; its hardware-configuration getter reads
    register 0x1F as the current driver's does. */
module Lite {
  import opened Wrappers
  import opened Exceptions
  import opened Bits
  import opened Bytes
  import opened Sim
  import opened Era
  import opened Config
  import opened Reports
  import Glidepoint
  import Legacy

  type Touch = Glidepoint.Touch

  const RELATIVE: int := Glidepoint.RELATIVE
  const ABSOLUTE: int := Glidepoint.ABSOLUTE

  /** The standard rates and 0, the values register 9 can receive. */
  const RATE_VALUES: set<int> := {0, 10, 20, 40, 60, 80, 100}

  // ---------------------------------------------------------------------------
  // Sample rate

  /** The two single-byte ERA writes of the reload timer, at 414 (0x19E) and
      415 (0x19F). */
  method WriteReloadTimer(c: Chip, rt: Byte) returns (c': Chip)
    requires c.Valid()
    ensures c'.Valid()
    ensures c'.ext == c.ext[Glidepoint.RELOAD_TIMER_ADDR := rt][Glidepoint.RELOAD_TIMER_ADDR + 1 := rt]
    ensures c'.regs == EraRegs(c.regs, rt, Glidepoint.RELOAD_TIMER_ADDR + 1)
    ensures FeedKept(c, c')
  {
    var c1 := WriteExt(c, 414, rt);
    c' := WriteExt(c1, 415, rt);
    KeptTwice(c, c1, c');
    EraRegsTwice(c.regs, rt, 414, rt, 415);
  }

  /** `sample_rate = val`, applied whatever the mode: register 6 switches the
      palm and noise compensations (off for 200 and 300), both reload-timer
      bytes receive the timer for the rate, and register 9 receives the rate,
      0 for 200 and 300 and 100 for a rate it does not know. Registers other
      than the status, rate, FeedConfig3 and ERA registers are kept. */
  method SetSampleRate(c: Chip, val: int) returns (c': Chip)
    requires c.Valid()
    ensures c'.Valid()
    ensures c'.regs[SAMPLE_RATE] == RateRegister(val) && c'.regs[SAMPLE_RATE] in RATE_VALUES
    ensures c'.regs[FEED_CONFIG3] == Config3For(val) && c'.regs[STATUS] == 0
    ensures c'.ext == c.ext[Glidepoint.RELOAD_TIMER_ADDR := ReloadTimer(val)][Glidepoint.RELOAD_TIMER_ADDR + 1 := ReloadTimer(val)]
    ensures forall i :: 0 <= i < 32 && i != STATUS && i != FEED_CONFIG3 && i != SAMPLE_RATE && !(ERA_VALUE <= i <= ERA_CONTROL) ==>
              c'.regs[i] == c.regs[i]
    ensures FeedKept(c, c')
  {
    var rt := ReloadTimer(val);
    var c1 := WriteReg(c, FEED_CONFIG3, Config3For(val));
    var c2 := WriteReloadTimer(c1, rt);
    c' := WriteReg(c2, SAMPLE_RATE, RateRegister(val));
    forall i | 0 <= i < 32 && i != STATUS && i != FEED_CONFIG3 && i != SAMPLE_RATE && !(ERA_VALUE <= i <= ERA_CONTROL)
      ensures c'.regs[i] == c.regs[i]
    {
      EraRegsKeeps(c1.regs, rt, Glidepoint.RELOAD_TIMER_ADDR + 1, i);
    }
    PlainKept(c, c1, [Write(FEED_CONFIG3, Config3For(val))]);
    PlainKept(c2, c', [Write(SAMPLE_RATE, RateRegister(val))]);
    KeptTwice(c, c1, c2);
    KeptTwice(c, c2, c');
  }

  /** Outside AnyMeas the lite setter leaves the rate, FeedConfig3 and feed
      registers and the extended memory as the current driver's setter does,
      which writes the timer with one auto-incrementing transfer. */
  method SampleRateAgrees(c: Chip, val: int, mode: int, hasDr: bool) returns (c1: Chip, c2: Chip)
    requires c.Valid() && mode != Glidepoint.ANYMEAS
    ensures c1.Valid() && c2.Valid()
    ensures c1.ext == c2.ext
    ensures c1.regs[SAMPLE_RATE] == c2.regs[SAMPLE_RATE] && c1.regs[FEED_CONFIG3] == c2.regs[FEED_CONFIG3]
    ensures c1.regs[FEED_CONFIG1] == c2.regs[FEED_CONFIG1] == c.regs[FEED_CONFIG1]
  {
    c1 := SetSampleRate(c, val);
    var t2 := Glidepoint.SetSampleRate(Glidepoint.Touch(c, mode, hasDr), val);
    c2 := t2.chip;
  }

  // ---------------------------------------------------------------------------
  // Start-up and data mode

  /** The constructor: the identity bytes in registers 0 and 1 must read 7 and
      58, otherwise a RuntimeError; then, in Relative mode, the sample rate set
      to 100, 30 idle packets, registers 3..5 at 0, 1, 2 (feed on, taps off)
      and the status register cleared. Register 7 and every extended address
      but the reload timer are left alone. */
  method Init(c: Chip, hasDr: bool) returns (t: Touch, err: Option<Exception>)
    requires c.Valid()
    ensures err.Some? <==> c.regs[..2] != [7, 58]
    ensures err.Some? ==> err == Some(RuntimeError) && t.chip == c.(trace := c.trace + ReadEvents(0, 2))
    ensures err.None? ==> t.mode == RELATIVE && t.hasDr == hasDr && t.chip.Valid()
    ensures err.None? ==>
              t.chip.regs[SYS_CONFIG] == 0 && t.chip.regs[FEED_CONFIG1] == 1 && t.chip.regs[Z_IDLE] == 30 &&
              UnpackRelative(t.chip.regs[FEED_CONFIG2]) == RelativeOptions(false, false, true, true, false)
    ensures err.None? ==>
              t.chip.regs[SAMPLE_RATE] == 100 && t.chip.regs[FEED_CONFIG3] == 0 && t.chip.regs[STATUS] == 0
    ensures err.None? ==> t.chip.regs[CAL_CONFIG] == c.regs[CAL_CONFIG]
    ensures err.None? ==> t.chip.ext == c.ext[Glidepoint.RELOAD_TIMER_ADDR := 0x13][Glidepoint.RELOAD_TIMER_ADDR + 1 := 0x13]
  {
    var c1, id := ReadRegs(c, 0, 2);
    if id != [7, 58] {
      return Glidepoint.Touch(c1, RELATIVE, hasDr), Some(RuntimeError);
    }
    var c2 := SetSampleRate(c1, 100);
    var c3 := Glidepoint.WriteStartBlock(c2);
    var c4 := ClearStatusFlags(c3);
    Glidepoint.LeaveValues(c.regs, RELATIVE);
    t, err := Glidepoint.Touch(c4, RELATIVE, hasDr), None;
  }

  /** `_mode = bool(mode) * 2`: any non-zero value selects Absolute mode. */
  function DataMode(mode: int): (m: int)
    ensures m == RELATIVE || m == ABSOLUTE
    ensures m == RELATIVE <==> mode == 0
  {
    B(mode != 0) * 2
  }

  /** The driver's two modes are kept as they are; AnyMeas (1), which the lite
      driver lacks, and every other non-zero value become Absolute, and a
      second application changes nothing. */
  lemma DataModeValues(mode: int)
    ensures DataMode(RELATIVE) == RELATIVE && DataMode(ABSOLUTE) == ABSOLUTE
    ensures DataMode(Glidepoint.ANYMEAS) == ABSOLUTE
    ensures DataMode(DataMode(mode)) == DataMode(mode)
  {
  }

  /** The `data_mode` setter: `_mode` becomes Relative or Absolute and
      register 4 receives the feed bit and the mode bit, with no check of the
      value and no read of the register. */
  method SetDataMode(t: Touch, mode: int) returns (t': Touch)
    requires t.chip.Valid()
    ensures t'.mode == DataMode(mode) && t'.hasDr == t.hasDr
    ensures t'.chip == t.chip.(regs := t.chip.regs[FEED_CONFIG1 := t'.mode + 1],
                               trace := t.chip.trace + [Write(FEED_CONFIG1, t'.mode + 1)])
    ensures t'.chip.regs[FEED_CONFIG1] % 2 == 1 && (t'.chip.regs[FEED_CONFIG1] / 2 == 1 <==> mode != 0)
  {
    var m := DataMode(mode);
    t' := Glidepoint.Touch(WriteReg(t.chip, FEED_CONFIG1, FeedMode(m)), m, t.hasDr);
  }

  // ---------------------------------------------------------------------------
  // Settings, reports

  /** `relative_mode_config(rotate90, taps, secondary_tap, glide_extend,
      intellimouse)`: register 5 receives the options whatever the mode, and
      every option can be read back from it. */
  method RelativeModeConfig(t: Touch, o: RelativeOptions) returns (t': Touch)
    requires t.chip.Valid()
    ensures t'.chip.Valid()
    ensures t' == t.(chip := t.chip.(regs := t.chip.regs[FEED_CONFIG2 := PackRelative(o)],
                                     trace := t.chip.trace + [Write(FEED_CONFIG2, PackRelative(o))]))
    ensures UnpackRelative(t'.chip.regs[FEED_CONFIG2]) == o
  {
    RelativeRoundTrip(o);
    t' := t.(chip := WriteReg(t.chip, FEED_CONFIG2, PackRelative(o)));
  }

  /** `absolute_mode_config(z_idle_count, invert_x, invert_y)`, applied
      whatever the mode: register 0x0A receives the count clamped to 0..255,
      and register 4 keeps its low six bits and gets the two invert bits. */
  method AbsoluteModeConfig(t: Touch, zIdle: int, invertX: bool, invertY: bool) returns (t': Touch)
    requires t.chip.Valid()
    ensures var r4 := AbsoluteConfig1(t.chip.regs[FEED_CONFIG1], invertX, invertY);
            t' == t.(chip := t.chip.(regs := t.chip.regs[Z_IDLE := Clamp(zIdle, 0, 255)][FEED_CONFIG1 := r4],
                                     trace := t.chip.trace + [Write(Z_IDLE, Clamp(zIdle, 0, 255)), Read(FEED_CONFIG1), Write(FEED_CONFIG1, r4)]))
    ensures t'.chip.regs[FEED_CONFIG1] % 64 == t.chip.regs[FEED_CONFIG1] % 64 &&
            t'.chip.regs[FEED_CONFIG1] / 128 == B(invertY) && t'.chip.regs[FEED_CONFIG1] / 64 % 2 == B(invertX)
    ensures 0 <= zIdle < 256 ==> t'.chip.regs[Z_IDLE] == zIdle
  {
    var c1 := WriteReg(t.chip, Z_IDLE, Clamp(zIdle, 0, 255));
    var (c2, prev) := ReadReg(c1, FEED_CONFIG1);
    var config1 := Or(And(prev, 63), Shl(B(invertY), 7));
    AbsoluteConfig1Sum(prev, B(invertX), B(invertY));
    t' := t.(chip := WriteReg(c2, FEED_CONFIG1, Or(config1, Shl(B(invertX), 6))));
    assert t'.chip.regs[FEED_CONFIG1] == AbsoluteConfig1(prev, invertX, invertY);
  }

  /** In Absolute mode the lite setting leaves the chip exactly as the current
      driver's does. */
  method AbsoluteAgrees(t: Touch, zIdle: int, invertX: bool, invertY: bool) returns (t1: Touch, t2: Touch)
    requires t.chip.Valid() && t.mode == ABSOLUTE
    ensures t1 == t2
  {
    t1 := AbsoluteModeConfig(t, zIdle, invertX, invertY);
    t2 := Glidepoint.AbsoluteModeConfig(t, zIdle, invertX, invertY);
  }

  /** `report(only_new)`: when a packet is due (as in the legacy driver), the
      six bytes decoded as the current driver decodes them when the mode is
      non-zero, the four Relative bytes otherwise, then the status register
      cleared; when none is due, nothing beyond the test. */
  method Report(t: Touch, onlyNew: bool, level: bool) returns (c': Chip, r: Option<seq<int>>)
    requires t.chip.Valid()
    ensures !Legacy.ReportDue(t, onlyNew, level) ==>
              r == None && c' == t.chip.(trace := t.chip.trace + Legacy.Polled(t, onlyNew))
    ensures t.mode != RELATIVE && Legacy.ReportDue(t, onlyNew, level) ==>
              r == Some(AbsoluteReport(t.chip.regs[PACKET_BYTE_0..PACKET_BYTE_0 + 6])) &&
              c' == t.chip.(regs := t.chip.regs[STATUS := 0],
                            trace := t.chip.trace + Legacy.Polled(t, onlyNew) + ReadEvents(PACKET_BYTE_0, 6) + [Write(STATUS, 0)])
    ensures t.mode == RELATIVE && Legacy.ReportDue(t, onlyNew, level) ==>
              r == Some(RelativeReport(t.chip.regs[PACKET_BYTE_0..PACKET_BYTE_0 + 4])) &&
              c' == t.chip.(regs := t.chip.regs[STATUS := 0],
                            trace := t.chip.trace + Legacy.Polled(t, onlyNew) + ReadEvents(PACKET_BYTE_0, 4) + [Write(STATUS, 0)])
  {
    var c, due := Legacy.Poll(t, onlyNew, level);
    if !due {
      return c, None;
    }
    var raw;
    if t.mode != RELATIVE {
      c, raw := ReadRegs(c, PACKET_BYTE_0, 6);
      r := Some(AbsoluteReport(raw));
    } else {
      c, raw := ReadRegs(c, PACKET_BYTE_0, 4);
      r := Some(RelativeReport(raw));
    }
    c' := ClearStatusFlags(c);
  }

  /** In either of its modes, `report(only_new=False)` gives the current
      driver's `read()`: the same values and the same accesses. */
  method ReportAgrees(t: Touch, level: bool) returns (c1: Chip, r1: Option<seq<int>>, c2: Chip, r2: Option<seq<int>>)
    requires t.chip.Valid() && (t.mode == RELATIVE || t.mode == ABSOLUTE)
    ensures c1 == c2 && r1 == r2 && r1.Some?
  {
    c1, r1 := Report(t, false, level);
    c2, r2 := Glidepoint.ReadReport(t);
  }

  // ---------------------------------------------------------------------------
  // Power settings

  /** `allow_sleep = is_enabled`: bit 2 of register 3 becomes the truth value
      of `is_enabled` (`bool(is_enabled)`), every other bit is kept. */
  method SetAllowSleep(c: Chip, isEnabled: int) returns (c': Chip)
    requires c.Valid()
    ensures c'.Valid() && c'.ext == c.ext
    ensures c'.trace == c.trace + [Read(SYS_CONFIG), Write(SYS_CONFIG, c'.regs[SYS_CONFIG])]
    ensures Bit(c'.regs[SYS_CONFIG], SLEEP_BIT) == B(isEnabled != 0)
    ensures forall j: nat :: j != SLEEP_BIT ==> Bit(c'.regs[SYS_CONFIG], j) == Bit(c.regs[SYS_CONFIG], j)
    ensures forall r :: 0 <= r < 32 && r != SYS_CONFIG ==> c'.regs[r] == c.regs[r]
  {
    c' := Glidepoint.SetConfigBit(c, SLEEP_BIT, isEnabled != 0);
  }

  /** `shutdown = is_off`: bit 1 of register 3 becomes the truth value of
      `is_off`, every other bit is kept. */
  method SetShutdown(c: Chip, isOff: int) returns (c': Chip)
    requires c.Valid()
    ensures c'.Valid() && c'.ext == c.ext
    ensures c'.trace == c.trace + [Read(SYS_CONFIG), Write(SYS_CONFIG, c'.regs[SYS_CONFIG])]
    ensures Bit(c'.regs[SYS_CONFIG], SHUTDOWN_BIT) == B(isOff != 0)
    ensures forall j: nat :: j != SHUTDOWN_BIT ==> Bit(c'.regs[SYS_CONFIG], j) == Bit(c.regs[SYS_CONFIG], j)
    ensures forall r :: 0 <= r < 32 && r != SYS_CONFIG ==> c'.regs[r] == c.regs[r]
  {
    c' := Glidepoint.SetConfigBit(c, SHUTDOWN_BIT, isOff != 0);
  }
}
