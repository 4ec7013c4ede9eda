/** The legacy single-file driver's `PinnacleTouch`, where it differs from the
    current driver: start-up, the data-mode setter, the two tracking-mode
    settings (which it applies in any mode), the report reader, the ADC
    measurement and the calibration-matrix setter. Its sample rate, finger and
    stylus detection, calibration, ADC gain, edge tuning, AnyMeas settings and
    ERA transactions are the current driver's and are modelled there. */
module Legacy {
  import opened Wrappers
  import opened Exceptions
  import opened Bits
  import opened Bytes
  import opened Sim
  import opened Era
  import opened Config
  import opened Reports
  import opened AnyMeas
  import opened Matrix
  import Glidepoint

  type Touch = Glidepoint.Touch

  const RELATIVE: int := Glidepoint.RELATIVE
  const ANYMEAS: int := Glidepoint.ANYMEAS
  const ABSOLUTE: int := Glidepoint.ABSOLUTE

  /** The byte the legacy driver writes to register 7, whose comment promises
      every compensation: 14 sets the track-error, NERD and background
      compensations but leaves tap compensation off, unlike the current
      driver's 0x1E. */
  const LEGACY_CALIBRATION: Byte := 14

  lemma LegacyCalibrationBits()
    ensures UnpackCalibration(LEGACY_CALIBRATION) == (CalibrationOptions(false, true, true, true), false)
    ensures PackCalibration(CalibrationOptions(false, true, true, true), false) == LEGACY_CALIBRATION
    ensures PackCalibration(CalibrationOptions(true, true, true, true), false) != LEGACY_CALIBRATION
  {
    CalibrationRoundTrip(CalibrationOptions(false, true, true, true), false);
  }

  // ---------------------------------------------------------------------------
  // Start-up

  /** The constructor: the identity bytes in registers 0 and 1 must read 7 and
      0x3A, otherwise an OSError; then, in Relative mode, the status register
      cleared, both detections on at 100 Hz, register 7 at 14, 30 idle packets,
      registers 3..5 at 0, 1, 2 and ADC gain 0. No calibration is run. */
  method Init(c: Chip, hasDr: bool) returns (t: Touch, err: Option<Exception>)
    requires c.Valid()
    ensures err.Some? <==> c.regs[..2] != Glidepoint.FIRMWARE
    ensures err.Some? ==> err == Some(OSError) && t.chip == c.(trace := c.trace + ReadEvents(0, 2))
    ensures err.None? ==> t.mode == RELATIVE && t.hasDr == hasDr && t.chip.Valid()
    ensures err.None? ==>
              t.chip.regs[SYS_CONFIG] == 0 && t.chip.regs[FEED_CONFIG1] == 1 && t.chip.regs[Z_IDLE] == 30 &&
              UnpackRelative(t.chip.regs[FEED_CONFIG2]) == RelativeOptions(false, false, true, true, false)
    ensures err.None? ==>
              t.chip.regs[SAMPLE_RATE] == 100 && t.chip.regs[FEED_CONFIG3] == 0 && t.chip.regs[STATUS] == 0
    ensures err.None? ==>
              UnpackCalibration(t.chip.regs[CAL_CONFIG]) == (CalibrationOptions(false, true, true, true), false)
    ensures err.None? ==> Glidepoint.StartedMemory(c.ext, t.chip.ext)
  {
    var c1, id := ReadRegs(c, 0, 2);
    if id != Glidepoint.FIRMWARE {
      return Glidepoint.Touch(c1, RELATIVE, hasDr), Some(OSError);
    }
    var c2 := ClearStatusFlags(c1);
    var c3 := PowerOn(c2);
    t, err := Glidepoint.Touch(c3, RELATIVE, hasDr), None;
  }

  /** The constructor's writes after the identity check: both detections on
      at 100 Hz, the legacy calibration options, then the start-up block and
      ADC gain 0. */
  method PowerOn(c: Chip) returns (c': Chip)
    requires c.Valid()
    ensures c'.Valid()
    ensures c'.regs[SYS_CONFIG] == 0 && c'.regs[FEED_CONFIG1] == 1 && c'.regs[Z_IDLE] == 30 &&
            UnpackRelative(c'.regs[FEED_CONFIG2]) == RelativeOptions(false, false, true, true, false)
    ensures c'.regs[SAMPLE_RATE] == 100 && c'.regs[FEED_CONFIG3] == 0 && c'.regs[STATUS] == 0
    ensures UnpackCalibration(c'.regs[CAL_CONFIG]) == (CalibrationOptions(false, true, true, true), false)
    ensures Glidepoint.StartedMemory(c.ext, c'.ext)
  {
    var t1 := Glidepoint.DetectFingerStylus(Glidepoint.Touch(c, RELATIVE, false), true, true, 100);
    var c2 := WriteReg(t1.chip, CAL_CONFIG, LEGACY_CALIBRATION);
    c' := Glidepoint.PowerOnWrites(c2);
    LegacyCalibrationBits();
    Glidepoint.LeaveValues(c.regs, RELATIVE);
  }

  // ---------------------------------------------------------------------------
  // data_mode

  /** The `data_mode` setter, as written. A value that is not a mode raises a
      ValueError. For Relative or Absolute, `_mode` is set before the test for
      leaving AnyMeas, so that test never holds: only register 4 is written,
      and leaving AnyMeas keeps register 3's AnyMeas flags. For AnyMeas,
      without a data-ready pin an AttributeError; with one, `_mode` becomes
      AnyMeas and the read of `_sys_config`, an attribute never assigned,
      raises an AttributeError before any bus access. */
  method SetDataMode(t: Touch, mode: int) returns (t': Touch, err: Option<Exception>)
    requires t.chip.Valid()
    ensures err == Some(ValueError) <==> !Glidepoint.IsMode(mode)
    ensures err == Some(AttributeError) <==> mode == ANYMEAS
    ensures !Glidepoint.IsMode(mode) || (mode == ANYMEAS && !t.hasDr) ==> t' == t
    ensures mode == ANYMEAS && t.hasDr ==> t' == t.(mode := ANYMEAS)
    ensures mode == RELATIVE || mode == ABSOLUTE ==>
              err.None? &&
              t' == t.(mode := mode, chip := t.chip.(regs := t.chip.regs[FEED_CONFIG1 := mode + 1],
                                                     trace := t.chip.trace + [Write(FEED_CONFIG1, mode + 1)]))
    ensures (mode == RELATIVE || mode == ABSOLUTE) && t.mode == ANYMEAS ==>
              t'.chip.regs[SYS_CONFIG] == t.chip.regs[SYS_CONFIG]
  {
    if !Glidepoint.IsMode(mode) {
      return t, Some(ValueError);
    }
    if mode == ANYMEAS {
      if !t.hasDr {
        return t, Some(AttributeError);
      }
      return t.(mode := ANYMEAS), Some(AttributeError);
    }
    t' := t.(mode := mode, chip := WriteReg(t.chip, FEED_CONFIG1, FeedMode(mode)));
    err := None;
  }

  /** The writes that leave AnyMeas, with `sample_rate = 100` applied in the
      new mode: register 3 read for its flags, registers 3..5 in one block, the
      sample rate reset, register 7 at 14 and 30 idle packets. */
  method LeaveAnymeas(c: Chip, mode: int, hasDr: bool) returns (c': Chip)
    requires c.Valid() && (mode == RELATIVE || mode == ABSOLUTE)
    ensures c'.Valid()
    ensures c'.regs[SYS_CONFIG] == ClearAnymeasFlags(c.regs[SYS_CONFIG]) && c'.regs[FEED_CONFIG1] == mode + 1
    ensures UnpackRelative(c'.regs[FEED_CONFIG2]) == RelativeOptions(false, false, true, true, false)
    ensures UnpackCalibration(c'.regs[CAL_CONFIG]) == (CalibrationOptions(false, true, true, true), false)
    ensures c'.regs[Z_IDLE] == 30
    ensures c'.regs[SAMPLE_RATE] == 100 && c'.regs[FEED_CONFIG3] == Config3For(100)
    ensures c'.ext == c.ext[Glidepoint.RELOAD_TIMER_ADDR := ReloadTimer(100)][Glidepoint.RELOAD_TIMER_ADDR + 1 := ReloadTimer(100)]
  {
    var (c1, _) := ReadReg(c, SYS_CONFIG);
    var c2 := Glidepoint.WriteLeaveBlock(c1, mode);
    var c3 := Glidepoint.ResetSampleRate(c2, mode, hasDr);
    var c4 := WriteReg(c3, CAL_CONFIG, LEGACY_CALIBRATION);
    c' := WriteReg(c4, Z_IDLE, 30);
    LegacyCalibrationBits();
    Glidepoint.LeaveValues(c.regs, mode);
  }

  /** The setter as evidently intended: the test for leaving AnyMeas looks at
      the mode being left, so leaving AnyMeas clears register 3's AnyMeas
      flags and restores the tracking settings and the sample rate; entering
      AnyMeas reads register 3 for the flags to change and then writes the
      default AnyMeas configuration. */
  method SetDataModeFixed(t: Touch, mode: int) returns (t': Touch, err: Option<Exception>)
    requires t.chip.Valid()
    ensures err == Some(ValueError) <==> !Glidepoint.IsMode(mode)
    ensures err == Some(AttributeError) <==> mode == ANYMEAS && !t.hasDr
    ensures err.Some? ==> t' == t
    ensures err.None? ==> t'.chip.Valid() && t'.mode == mode && t'.hasDr == t.hasDr
    ensures err.None? && mode != ANYMEAS && t.mode != ANYMEAS ==>
              t'.chip == t.chip.(regs := t.chip.regs[FEED_CONFIG1 := mode + 1],
                                 trace := t.chip.trace + [Write(FEED_CONFIG1, mode + 1)])
    ensures err.None? && mode != ANYMEAS && t.mode == ANYMEAS ==>
              t'.chip.regs[SYS_CONFIG] / 8 % 4 == 0 && t'.chip.regs[FEED_CONFIG1] == mode + 1 &&
              t'.chip.regs[SAMPLE_RATE] == 100 && t'.chip.regs[FEED_CONFIG3] == 0 &&
              UnpackCalibration(t'.chip.regs[CAL_CONFIG]) == (CalibrationOptions(false, true, true, true), false)
    ensures err.None? && mode == ANYMEAS ==> t'.chip.regs == Glidepoint.ReenterRegs(t.chip.regs)
  {
    if !Glidepoint.IsMode(mode) {
      return t, Some(ValueError);
    }
    if mode == ANYMEAS {
      if !t.hasDr {
        return t, Some(AttributeError);
      }
      var (c1, v) := ReadReg(t.chip, SYS_CONFIG);
      var c2 := WriteReg(c1, SYS_CONFIG, EnterAnymeasFlags(v));
      var t3 := Glidepoint.AnymeasModeConfig(Glidepoint.Touch(c2, ANYMEAS, true), GAIN_200, FREQ_0, 512, MUX_PNP,
                                             500, 1);
      Glidepoint.AnymeasDefaultRegs(c2.regs);
      return t3, None;
    }
    if t.mode == ANYMEAS {
      var c := LeaveAnymeas(t.chip, mode, t.hasDr);
      AnymeasFlagsKept(t.chip.regs[SYS_CONFIG]);
      t' := Glidepoint.Touch(c, mode, t.hasDr);
    } else {
      t' := t.(mode := mode, chip := WriteReg(t.chip, FEED_CONFIG1, FeedMode(mode)));
    }
    err := None;
  }

  // ---------------------------------------------------------------------------
  // Relative and Absolute mode settings, reports

  /** `relative_mode_config(rotate90, glide_extend, secondary_tap, taps,
      intellimouse)`: register 5 receives the options, whatever the mode, and
      every option can be read back from it. */
  method RelativeModeConfig(t: Touch, o: RelativeOptions) returns (t': Touch)
    requires t.chip.Valid()
    ensures t' == t.(chip := t.chip.(regs := t.chip.regs[FEED_CONFIG2 := LegacyPackRelative(o)],
                                     trace := t.chip.trace + [Write(FEED_CONFIG2, LegacyPackRelative(o))]))
    ensures UnpackRelative(t'.chip.regs[FEED_CONFIG2]) == o
  {
    RelativeRoundTrip(o);
    t' := t.(chip := WriteReg(t.chip, FEED_CONFIG2, LegacyPackRelative(o)));
  }

  /** In Relative mode the legacy setting leaves the chip exactly as the
      current driver's does. */
  method RelativeAgrees(t: Touch, o: RelativeOptions) returns (t1: Touch, t2: Touch)
    requires t.chip.Valid() && t.mode == RELATIVE
    ensures t1 == t2
  {
    t1 := RelativeModeConfig(t, o);
    t2 := Glidepoint.RelativeModeConfig(t, o);
    RelativeRoundTrip(o);
  }

  /** `absolute_mode_config(z_idle_count, invert_x, invert_y)`: register 0x0A
      receives the idle-packet count clamped to 0..255 and register 4 the two
      invert bits with its low six bits kept, whatever the mode. */
  method AbsoluteModeConfig(t: Touch, zIdle: int, invertX: bool, invertY: bool) returns (t': Touch)
    requires t.chip.Valid()
    ensures var r4 := AbsoluteConfig1(t.chip.regs[FEED_CONFIG1], invertX, invertY);
            t' == t.(chip := t.chip.(regs := t.chip.regs[Z_IDLE := Clamp(zIdle, 0, 255)][FEED_CONFIG1 := r4],
                                     trace := t.chip.trace + [Write(Z_IDLE, Clamp(zIdle, 0, 255)), Read(FEED_CONFIG1), Write(FEED_CONFIG1, r4)]))
    ensures t'.chip.regs[FEED_CONFIG1] % 64 == t.chip.regs[FEED_CONFIG1] % 64 &&
            t'.chip.regs[FEED_CONFIG1] / 128 == B(invertY) && t'.chip.regs[FEED_CONFIG1] / 64 % 2 == B(invertX)
  {
    var c1 := WriteReg(t.chip, Z_IDLE, Clamp(zIdle, 0, 255));
    var (c2, prev) := ReadReg(c1, FEED_CONFIG1);
    t' := t.(chip := WriteReg(c2, FEED_CONFIG1, AbsoluteConfig1(prev, invertX, invertY)));
  }

  /** Whether `report(only_new)` reads a packet: always when `only_new` is
      false; otherwise when the data-ready pin is high or, without a pin, when
      bit 2 (SW_DR) of the status register is set. */
  predicate ReportDue(t: Touch, onlyNew: bool, level: bool)
    requires t.chip.Valid()
  {
    !onlyNew || (if t.hasDr then level else t.chip.regs[STATUS] / 4 % 2 == 1)
  }

  /** The accesses of that test: one read of the status register when there
      is no pin to look at. */
  function Polled(t: Touch, onlyNew: bool): seq<Access> {
    if onlyNew && !t.hasDr then [Read(STATUS)] else []
  }

  /** The data-ready test at the head of `report`. */
  method Poll(t: Touch, onlyNew: bool, level: bool) returns (c': Chip, due: bool)
    requires t.chip.Valid()
    ensures c' == t.chip.(trace := t.chip.trace + Polled(t, onlyNew))
    ensures due == ReportDue(t, onlyNew, level)
  {
    if !onlyNew {
      return t.chip, true;
    }
    c', due := Glidepoint.Available(t, level);
  }

  /** `report(only_new)`: in AnyMeas mode nothing. Otherwise, when a packet is
      due, the six Absolute bytes (decoded with the legacy clamp) or the four
      Relative bytes are read and the status register cleared; when none is
      due, nothing is read and the flags stay as they are. */
  method Report(t: Touch, onlyNew: bool, level: bool) returns (c': Chip, r: Option<seq<int>>)
    requires t.chip.Valid()
    ensures t.mode == ANYMEAS ==> c' == t.chip && r == None
    ensures t.mode != ANYMEAS && !ReportDue(t, onlyNew, level) ==>
              r == None && c' == t.chip.(trace := t.chip.trace + Polled(t, onlyNew))
    ensures t.mode == ABSOLUTE && ReportDue(t, onlyNew, level) ==>
              r == Some(LegacyAbsoluteReport(t.chip.regs[PACKET_BYTE_0..PACKET_BYTE_0 + 6])) &&
              c' == t.chip.(regs := t.chip.regs[STATUS := 0],
                            trace := t.chip.trace + Polled(t, onlyNew) + ReadEvents(PACKET_BYTE_0, 6) + [Write(STATUS, 0)])
    ensures t.mode == RELATIVE && ReportDue(t, onlyNew, level) ==>
              r == Some(RelativeReport(t.chip.regs[PACKET_BYTE_0..PACKET_BYTE_0 + 4])) &&
              c' == t.chip.(regs := t.chip.regs[STATUS := 0],
                            trace := t.chip.trace + Polled(t, onlyNew) + ReadEvents(PACKET_BYTE_0, 4) + [Write(STATUS, 0)])
    ensures !Glidepoint.IsMode(t.mode) && ReportDue(t, onlyNew, level) ==>
              r == None && c' == t.chip.(regs := t.chip.regs[STATUS := 0],
                                         trace := t.chip.trace + Polled(t, onlyNew) + [Write(STATUS, 0)])
  {
    if t.mode == ANYMEAS {
      return t.chip, None;
    }
    var c, due := Poll(t, onlyNew, level);
    if !due {
      return c, None;
    }
    r := None;
    if t.mode == ABSOLUTE {
      var raw;
      c, raw := ReadRegs(c, PACKET_BYTE_0, 6);
      r := Some(LegacyAbsoluteReport(raw));
    } else if t.mode == RELATIVE {
      var raw;
      c, raw := ReadRegs(c, PACKET_BYTE_0, 4);
      r := Some(LegacyRelativeReport(raw));
    }
    c' := ClearStatusFlags(c);
  }

  /** `report(only_new=False)` in Relative mode gives the current driver's
      `read()`: the same bytes and the same accesses. */
  method RelativeReportAgrees(t: Touch, level: bool) returns (c1: Chip, r1: Option<seq<int>>, c2: Chip, r2: Option<seq<int>>)
    requires t.chip.Valid() && t.mode == RELATIVE
    ensures c1 == c2 && r1 == r2 && r1.Some?
  {
    c1, r1 := Report(t, false, level);
    c2, r2 := Glidepoint.ReadReport(t);
  }

  // ---------------------------------------------------------------------------
  // AnyMeas measurement

  /** `measure_adc(bits_to_toggle, toggle_polarity)`: outside AnyMeas nothing.
      In AnyMeas the measurement is started as in the current driver, then
      the data-ready pin is polled (without one, reading its level raises an
      AttributeError); at the first poll that finds it high the two result
      bytes are read and the status register cleared. The pin levels the
      polls see are `levels`; when they run out the model stops without a
      result. */
  method MeasureAdc(t: Touch, toggle: int, polarity: int, levels: seq<bool>)
      returns (t': Touch, r: Option<seq<int>>, polls: nat, err: Option<Exception>)
    requires t.chip.Valid()
    ensures t'.mode == t.mode && t'.hasDr == t.hasDr && t'.chip.Valid()
    ensures t.mode != ANYMEAS ==> t' == t && r == None && polls == 0 && err == None
    ensures err.Some? <==> t.mode == ANYMEAS && !t.hasDr
    ensures err.Some? ==> err == Some(AttributeError) && r == None
    ensures t.mode == ANYMEAS && t.hasDr ==> (r.Some? <==> exists i :: 0 <= i < |levels| && levels[i])
    ensures r.None? && t.mode == ANYMEAS && t.hasDr ==> polls == |levels|
    ensures r.Some? ==> 0 < polls <= |levels| && levels[polls - 1] && (forall i :: 0 <= i < polls - 1 ==> !levels[i]) &&
                        r == Some(t.chip.regs[ADC_RESULT..ADC_RESULT + 2]) && t'.chip.regs[STATUS] == 0
    ensures t.mode == ANYMEAS ==>
              t'.chip.regs[PACKET_BYTE_1..PACKET_BYTE_1 + 8] == ToggleVector(toggle, polarity) &&
              t'.chip.regs[SYS_CONFIG] == StartMeasureFlags(t.chip.regs[SYS_CONFIG])
    ensures t.mode == ANYMEAS ==>
              t'.chip == if r.Some? then Glidepoint.ResultTaken(Glidepoint.Started(t.chip, toggle, polarity))
                         else Glidepoint.Started(t.chip, toggle, polarity)
  {
    if t.mode != ANYMEAS {
      return t, None, 0, None;
    }
    var c := Glidepoint.StartMeasureAdc(t, toggle, polarity);
    t' := t.(chip := c);
    if !t.hasDr {
      return t', None, 0, Some(AttributeError);
    }
    err := None;
    assert c.regs[ADC_RESULT..ADC_RESULT + 2] == t.chip.regs[ADC_RESULT..ADC_RESULT + 2];
    t', r, polls := PollResult(t', levels);
  }

  /** The polling half of `measure_adc`: the pin is polled until it reads high,
      then the two result bytes are read and the status register cleared; when
      the levels run out nothing has been read or written. */
  method PollResult(t: Touch, levels: seq<bool>) returns (t': Touch, r: Option<seq<int>>, polls: nat)
    requires t.chip.Valid()
    ensures r.None? ==> t' == t && polls == |levels| && forall i :: 0 <= i < |levels| ==> !levels[i]
    ensures r.Some? ==> 0 < polls <= |levels| && levels[polls - 1] && (forall i :: 0 <= i < polls - 1 ==> !levels[i]) &&
                        r == Some(t.chip.regs[ADC_RESULT..ADC_RESULT + 2]) &&
                        t' == t.(chip := Glidepoint.ResultTaken(t.chip))
  {
    polls := 0;
    while polls < |levels| && !levels[polls]
      invariant polls <= |levels|
      invariant forall i :: 0 <= i < polls ==> !levels[i]
    {
      polls := polls + 1;
    }
    if polls == |levels| {
      return t, None, polls;
    }
    polls := polls + 1;
    var c1, raw := ReadRegs(t.chip, ADC_RESULT, 2);
    t' := t.(chip := ClearStatusFlags(c1));
    r := Some(raw);
  }

  /** With a data-ready pin in AnyMeas mode the legacy measurement and the
      current driver's find the same result after the same number of polls,
      and leave the chip in the same state with the same accesses recorded. */
  method MeasureAgrees(t: Touch, toggle: int, polarity: int, levels: seq<bool>)
      returns (t1: Touch, r1: Option<seq<int>>, p1: nat, t2: Touch, r2: Option<seq<int>>, p2: nat)
    requires t.chip.Valid() && t.mode == ANYMEAS && t.hasDr
    ensures t1 == t2 && r1 == r2 && p1 == p2
  {
    var err;
    t1, r1, p1, err := MeasureAdc(t, toggle, polarity, levels);
    t2, r2, p2 := Glidepoint.MeasureAdc(t, toggle, polarity, levels);
    assert forall i :: 0 <= i < |levels| ==> (Glidepoint.Ready(t, levels[i]) <==> levels[i]);
  }

  // ---------------------------------------------------------------------------
  // Calibration matrix

  /** The `calibration_matrix` setter, as written: the feed state saved and
      the feed switched off, the current driver's loop, then the feed put
      back. A `struct.error` from an entry outside the short range skips the
      restore, so the feed is left off. A list shorter than 46 is padded in
      place, which leaves `m'` as the current driver's padding does. */
  method SetCalibrationMatrix(c: Chip, m: seq<int>) returns (c': Chip, err: Option<Exception>, m': seq<int>)
    requires c.Valid()
    ensures m' == Padded(m)
    ensures c'.Valid() && c'.ext == Store(c.ext, MATRIX_ADDR, PackShorts(Padded(m)[..MATRIX_LEN][..ShortPrefix(Padded(m)[..MATRIX_LEN])]))
    ensures err.Some? <==> ShortPrefix(Padded(m)[..MATRIX_LEN]) < MATRIX_LEN
    ensures err.Some? ==> err == Some(StructError) && c'.regs[FEED_CONFIG1] == WithFeed(c.regs[FEED_CONFIG1], false)
    ensures err.None? ==> c'.regs[FEED_CONFIG1] == c.regs[FEED_CONFIG1] && FeedKept(c, c')
  {
    var c1, _ := PauseFeed(c);
    var c2;
    c2, err, m' := Matrix.SetCalibrationMatrix(c1, m);
    if err.Some? {
      return c2, err, m';
    }
    c' := ResumeFeed(c2, c.regs[FEED_CONFIG1]);
    PausedKept(c, c1, c2, c');
  }

  /** The setter as evidently intended: the feed put back whether or not an
      entry fails, so register 4 always ends as it started. */
  method SetCalibrationMatrixFixed(c: Chip, m: seq<int>) returns (c': Chip, err: Option<Exception>, m': seq<int>)
    requires c.Valid()
    ensures m' == Padded(m)
    ensures c'.Valid() && c'.ext == Store(c.ext, MATRIX_ADDR, PackShorts(Padded(m)[..MATRIX_LEN][..ShortPrefix(Padded(m)[..MATRIX_LEN])]))
    ensures err.Some? <==> ShortPrefix(Padded(m)[..MATRIX_LEN]) < MATRIX_LEN
    ensures err.Some? ==> err == Some(StructError)
    ensures c'.regs[FEED_CONFIG1] == c.regs[FEED_CONFIG1] && FeedKept(c, c')
  {
    var c1, _ := PauseFeed(c);
    var c2;
    c2, err, m' := Matrix.SetCalibrationMatrix(c1, m);
    c' := ResumeFeed(c2, c.regs[FEED_CONFIG1]);
    PausedKept(c, c1, c2, c');
  }
}
