/** The configuration bytes the driver packs into the chip's registers one bit
    at a time, the read-modify-writes that change a single bit of a register,
    and the sample-rate table. Every function computes its byte with Python's
    `|`, `&` and `<<`, as the driver does; its contract says which bits carry
    what. */
module Config {
  import opened Bits
  import opened Bytes

  // ---------------------------------------------------------------------------
  // Relative mode: register 5 (FeedConfig2)

  /** The options of `relative_mode_config`. */
  datatype RelativeOptions = RelativeOptions(rotate90: bool, taps: bool, secondaryTap: bool,
                                             glideExtend: bool, intellimouse: bool)

  /** The bit layout of register 5: bit 7 swaps the axes, bits 4, 2 and 1
      switch glide-extend, the secondary tap and taps OFF, bit 0 adds the
      scroll byte. */
  function RelativeBits(o: RelativeOptions): int {
    128 * B(o.rotate90) + 16 * B(!o.glideExtend) + 4 * B(!o.secondaryTap) + 2 * B(!o.taps) + B(o.intellimouse)
  }

  /** Register 5 as the current and lite drivers pack it:
      `(rotate90 << 7) | ((not glide_extend) << 4)`, then
      `|= ((not secondary_tap) << 2) | ((not taps) << 1)`, then `| intellimouse`. */
  function PackRelative(o: RelativeOptions): (b: Byte)
    ensures b == RelativeBits(o)
  {
    PackRelativeSum(B(o.rotate90), B(!o.glideExtend), B(!o.secondaryTap), B(!o.taps), B(o.intellimouse));
    Or(Or(Or(Shl(B(o.rotate90), 7), Shl(B(!o.glideExtend), 4)),
          Or(Shl(B(!o.secondaryTap), 2), Shl(B(!o.taps), 1))),
       B(o.intellimouse))
  }

  /** Register 5 as the legacy driver packs it, one `|` after another:
      `rotate90 << 7 | (not glide_extend) << 4 | (not secondary_tap) << 2 | (not taps) << 1 | intellimouse`. */
  function LegacyPackRelative(o: RelativeOptions): (b: Byte)
    ensures b == RelativeBits(o)
  {
    LegacyPackRelativeSum(B(o.rotate90), B(!o.glideExtend), B(!o.secondaryTap), B(!o.taps), B(o.intellimouse));
    Or(Or(Or(Or(Shl(B(o.rotate90), 7), Shl(B(!o.glideExtend), 4)), Shl(B(!o.secondaryTap), 2)),
          Shl(B(!o.taps), 1)),
       B(o.intellimouse))
  }

  lemma PackRelativeSum(r: int, g: int, s: int, t: int, i: int)
    requires 0 <= r <= 1 && 0 <= g <= 1 && 0 <= s <= 1 && 0 <= t <= 1 && 0 <= i <= 1
    ensures Or(Or(Or(Shl(r, 7), Shl(g, 4)), Or(Shl(s, 2), Shl(t, 1))), i) == 128 * r + 16 * g + 4 * s + 2 * t + i
  {
    Pow2Values();
    ShlBy(r, 7, 128);
    ShlBy(g, 4, 16);
    ShlBy(s, 2, 4);
    ShlBy(t, 1, 2);
    var a := Or(Shl(r, 7), Shl(g, 4));
    OrAdd(Shl(r, 7), Shl(g, 4), 7, 128, r);
    var b := Or(Shl(s, 2), Shl(t, 1));
    OrAdd(Shl(s, 2), Shl(t, 1), 2, 4, s);
    OrAdd(a, b, 4, 16, 8 * r + g);
    OrAdd(Or(a, b), i, 1, 2, 64 * r + 8 * g + 2 * s + t);
  }

  lemma LegacyPackRelativeSum(r: int, g: int, s: int, t: int, i: int)
    requires 0 <= r <= 1 && 0 <= g <= 1 && 0 <= s <= 1 && 0 <= t <= 1 && 0 <= i <= 1
    ensures Or(Or(Or(Or(Shl(r, 7), Shl(g, 4)), Shl(s, 2)), Shl(t, 1)), i) == 128 * r + 16 * g + 4 * s + 2 * t + i
  {
    Pow2Values();
    ShlBy(r, 7, 128);
    ShlBy(g, 4, 16);
    ShlBy(s, 2, 4);
    ShlBy(t, 1, 2);
    var a := Or(Shl(r, 7), Shl(g, 4));
    OrAdd(Shl(r, 7), Shl(g, 4), 7, 128, r);
    var b := Or(a, Shl(s, 2));
    OrAdd(a, Shl(s, 2), 4, 16, 8 * r + g);
    var c := Or(b, Shl(t, 1));
    OrAdd(b, Shl(t, 1), 2, 4, 32 * r + 4 * g + s);
    OrAdd(c, i, 1, 2, 64 * r + 8 * g + 2 * s + t);
  }

  /** The options read back out of register 5. */
  function UnpackRelative(b: Byte): RelativeOptions {
    RelativeOptions(b / 128 % 2 == 1, b / 2 % 2 == 0, b / 4 % 2 == 0, b / 16 % 2 == 0, b % 2 == 1)
  }

  /** Packing loses no option, and both drivers pack the same byte. */
  lemma RelativeRoundTrip(o: RelativeOptions)
    ensures UnpackRelative(PackRelative(o)) == o
    ensures LegacyPackRelative(o) == PackRelative(o)
  {
    var r, g, s, t, i := B(o.rotate90), B(!o.glideExtend), B(!o.secondaryTap), B(!o.taps), B(o.intellimouse);
    var b := PackRelative(o);
    assert b == 128 * r + 16 * g + 4 * s + 2 * t + i;
    UnpackRelativeBits(r, g, s, t, i);
    assert UnpackRelative(b) == RelativeOptions(r == 1, t == 0, s == 0, g == 0, i == 1);
  }

  lemma UnpackRelativeBits(r: int, g: int, s: int, t: int, i: int)
    requires 0 <= r <= 1 && 0 <= g <= 1 && 0 <= s <= 1 && 0 <= t <= 1 && 0 <= i <= 1
    ensures UnpackRelative(128 * r + 16 * g + 4 * s + 2 * t + i) == RelativeOptions(r == 1, t == 0, s == 0, g == 0, i == 1)
  {
    var b := 128 * r + 16 * g + 4 * s + 2 * t + i;
    DigitIs(b, 1, 64 * r + 8 * g + 2 * s + t, i, 0);
    DigitIs(b, 2, 32 * r + 4 * g + s, t, i);
    DigitIs(b, 4, 16 * r + 2 * g, s, 2 * t + i);
    DigitIs(b, 16, 4 * r, g, 4 * s + 2 * t + i);
    DigitIs(b, 128, 0, r, 16 * g + 4 * s + 2 * t + i);
  }

  /** The current driver's defaults write 0, the legacy driver's (taps off) 2,
      and rotate90 with every feature off and the scroll byte on writes 0b10010111. */
  lemma RelativeExamples()
    ensures PackRelative(RelativeOptions(false, true, true, true, false)) == 0
    ensures LegacyPackRelative(RelativeOptions(false, false, true, true, false)) == 0x02
    ensures PackRelative(RelativeOptions(true, false, false, false, true)) == 0x97
  {
  }

  /** Register 4 as the data-mode setters write it, `1 | mode` for Relative
      (0) or Absolute (2): bit 0 switches the feed on and bit 1 selects
      Absolute. */
  function FeedMode(mode: int): (b: Byte)
    requires mode == 0 || mode == 2
    ensures b == mode + 1 && b % 2 == 1 && b / 2 == mode / 2
  {
    assert Pow2(1) == 2;
    OrAdd(mode, 1, 1, 2, mode / 2);
    Or(1, mode)
  }

  // ---------------------------------------------------------------------------
  // Absolute mode: register 4 (FeedConfig1)

  /** Register 4 after `absolute_mode_config`:
      `(prev & 0x3F) | (invert_y << 7) | (invert_x << 6)`. Bits 0..5 (the feed
      and data-mode bits among them) are kept; bit 7 inverts Y, bit 6 inverts X. */
  function AbsoluteConfig1(prev: Byte, invertX: bool, invertY: bool): (b: Byte)
    ensures b % 64 == prev % 64
    ensures b / 128 == B(invertY) && (b / 64) % 2 == B(invertX)
  {
    var x, y := B(invertX), B(invertY);
    AbsoluteConfig1Sum(prev, x, y);
    DivUnique(prev % 64 + 64 * x + 128 * y, 64, 2 * y + x, prev % 64);
    DivUnique(prev % 64 + 64 * x + 128 * y, 128, y, prev % 64 + 64 * x);
    DivUnique(2 * y + x, 2, y, x);
    Or(Or(And(prev, 0x3F), Shl(B(invertY), 7)), Shl(B(invertX), 6))
  }

  lemma AbsoluteConfig1Sum(prev: Byte, x: int, y: int)
    requires 0 <= x <= 1 && 0 <= y <= 1
    ensures Or(Or(And(prev, 0x3F), Shl(y, 7)), Shl(x, 6)) == prev % 64 + 64 * x + 128 * y
  {
    Pow2Values();
    MaskBy(prev, 6, 0x3F);
    ShlBy(x, 6, 64);
    ShlBy(y, 7, 128);
    OrAdd(Shl(y, 7), And(prev, 0x3F), 7, 128, y);
    OrAbove(prev % 64, Shl(y, 7), Shl(x, 6), 6, 64, 2 * y, x);
    OrAdd(Shl(y, 7), Shl(x, 6), 7, 128, y);
  }

  // ---------------------------------------------------------------------------
  // One bit of a register

  /** Bit 2 of register 3 (SysConfig1) lets the chip sleep. */
  const SLEEP_BIT: nat := 2
  /** Bit 1 of register 3 powers the chip down. */
  const SHUTDOWN_BIT: nat := 1

  /** The setters of `allow_sleep` and `shutdown`: `(prev & mask) | (on << k)`
      with `mask` the byte lacking bit `k` (0xFB for bit 2, 0xFD for bit 1). */
  function WithBit(prev: Byte, k: nat, on: bool): (b: Byte)
    requires k < 8
    ensures b == SetBit(prev, k, B(on))
  {
    assert Pow2(8) == 256;
    MaskedSet(prev, 8, k, B(on));
    SetBitRange(prev, 8, k, B(on));
    Or(And(prev, 0xFF - Pow2(k)), Shl(B(on), k))
  }

  /** The getters: `bool(value & (1 << k))`. */
  function HasBit(v: Byte, k: nat): (on: bool)
    ensures on <==> Bit(v, k) == 1
  {
    AndPow2(v, k);
    And(v, Pow2(k)) != 0
  }

  /** A setter followed by its getter reads back what was set, and no other
      bit of the register has changed. */
  lemma WithBitRoundTrip(prev: Byte, k: nat, on: bool)
    requires k < 8
    ensures HasBit(WithBit(prev, k, on), k) == on
    ensures forall j: nat :: j != k ==> Bit(WithBit(prev, k, on), j) == Bit(prev, j)
  {
    SetBitBits(prev, k, B(on), k);
    forall j: nat | j != k
      ensures Bit(WithBit(prev, k, on), j) == Bit(prev, j)
    {
      SetBitBits(prev, k, B(on), j);
    }
  }

  // ---------------------------------------------------------------------------
  // Extended-memory settings

  /** `x` with bit `k` set when `on`, unchanged otherwise. */
  function Raise(x: int, k: nat, on: bool): int {
    if on then SetBit(x, k, 1) else x
  }

  /** `detect_finger_stylus`: `prev | ((enable_stylus << 2) | enable_finger)` at
      extended address 0xEB; bit 0 enables finger detection, bit 2 the stylus. */
  function FingerStylus(prev: Byte, finger: bool, stylus: bool): (b: Byte)
    ensures b == Raise(Raise(prev, 2, stylus), 0, finger)
  {
    FingerStylusOr(prev, finger, stylus);
    Or(prev, Or(Shl(B(stylus), 2), B(finger)))
  }

  lemma FingerStylusOr(prev: Byte, finger: bool, stylus: bool)
    ensures 0 <= Raise(Raise(prev, 2, stylus), 0, finger) < 256
    ensures Or(prev, Or(Shl(B(stylus), 2), B(finger))) == Raise(Raise(prev, 2, stylus), 0, finger)
  {
    assert Pow2(0) == 1 && Pow2(2) == 4 && Pow2(8) == 256;
    OrShifted(B(finger), B(stylus), 2);
    var s := Raise(prev, 2, stylus);
    if stylus {
      SetBitRange(prev, 8, 2, 1);
      OrBit(prev, 2);
    } else {
      OrZero(prev);
    }
    if finger {
      SetBitRange(s, 8, 0, 1);
      if stylus {
        OrFive(prev);
      } else {
        OrBit(prev, 0);
      }
    }
  }

  /** `x | 5` sets bits 2 and 0. */
  lemma OrFive(x: int)
    ensures Or(x, 5) == SetBit(SetBit(x, 2, 1), 0, 1)
  {
    OrFiveHalf(x);
    SetFiveHalf(x);
  }

  lemma OrFiveHalf(x: int)
    ensures Or(x, 5) == 2 * SetBit(x / 2, 1, 1) + 1
  {
    assert Pow2(1) == 2;
    OrStep(x, 5);
    OrBit(x / 2, 1);
  }

  lemma SetFiveHalf(x: int)
    ensures SetBit(SetBit(x, 2, 1), 0, 1) == 2 * SetBit(x / 2, 1, 1) + 1
  {
    SetBitHalf(x, 2, 1);
    var y := SetBit(x, 2, 1);
    DivUnique(y, 2, SetBit(x / 2, 1, 1), x % 2);
  }

  /** Finger and stylus detection only switch features on: the bits asked for
      end up set and every other bit is kept. */
  lemma FingerStylusBits(prev: Byte, finger: bool, stylus: bool, j: nat)
    ensures Bit(FingerStylus(prev, finger, stylus), j) ==
            if (j == 0 && finger) || (j == 2 && stylus) then 1 else Bit(prev, j)
  {
    var s := Raise(prev, 2, stylus);
    if stylus {
      SetBitBits(prev, 2, 1, j);
      SetBitBits(prev, 2, 1, 0);
    }
    if finger {
      SetBitBits(s, 0, 1, j);
    }
  }

  /** `set_adc_gain(s)`: `prev & 0x3F | (s << 6)` at extended address 0x187; the
      gain sits in bits 6..7 and the rest is kept. */
  function AdcGain(prev: Byte, s: int): (b: Byte)
    requires 0 <= s < 4
    ensures b % 64 == prev % 64 && b / 64 == s
  {
    AdcGainSum(prev, s);
    DivUnique(prev % 64 + 64 * s, 64, s, prev % 64);
    Or(And(prev, 0x3F), Shl(s, 6))
  }

  lemma AdcGainSum(prev: Byte, s: int)
    requires 0 <= s < 4
    ensures Or(And(prev, 0x3F), Shl(s, 6)) == prev % 64 + 64 * s
  {
    Pow2Values();
    MaskBy(prev, 6, 0x3F);
    ShlBy(s, 6, 64);
    OrAdd(Shl(s, 6), And(prev, 0x3F), 6, 64, s);
  }

  // ---------------------------------------------------------------------------
  // Calibration: register 7 (CalConfig1)

  /** The options of `calibrate`. */
  datatype CalibrationOptions = CalibrationOptions(tap: bool, trackError: bool, nerd: bool, background: bool)

  /** Register 7 as `calibrate(run, ...)` writes it:
      `(tap << 4) | (track_error << 3) | (nerd << 2) | (background << 1) | run`.
      Bit 0 starts a calibration; bits 1..4 enable its compensations. */
  function PackCalibration(o: CalibrationOptions, run: bool): (b: Byte)
    ensures b == 16 * B(o.tap) + 8 * B(o.trackError) + 4 * B(o.nerd) + 2 * B(o.background) + B(run)
  {
    PackCalibrationSum(B(o.tap), B(o.trackError), B(o.nerd), B(o.background), B(run));
    Or(Or(Or(Or(Shl(B(o.tap), 4), Shl(B(o.trackError), 3)), Shl(B(o.nerd), 2)), Shl(B(o.background), 1)), B(run))
  }

  lemma PackCalibrationSum(t: int, e: int, n: int, g: int, r: int)
    requires 0 <= t <= 1 && 0 <= e <= 1 && 0 <= n <= 1 && 0 <= g <= 1 && 0 <= r <= 1
    ensures Or(Or(Or(Or(Shl(t, 4), Shl(e, 3)), Shl(n, 2)), Shl(g, 1)), r) == 16 * t + 8 * e + 4 * n + 2 * g + r
  {
    Pow2Values();
    ShlBy(t, 4, 16);
    ShlBy(e, 3, 8);
    ShlBy(n, 2, 4);
    ShlBy(g, 1, 2);
    var a := Or(Shl(t, 4), Shl(e, 3));
    OrAdd(Shl(t, 4), Shl(e, 3), 4, 16, t);
    var b := Or(a, Shl(n, 2));
    OrAdd(a, Shl(n, 2), 3, 8, 2 * t + e);
    var c := Or(b, Shl(g, 1));
    OrAdd(b, Shl(g, 1), 2, 4, 4 * t + 2 * e + n);
    OrAdd(c, r, 1, 2, 8 * t + 4 * e + 2 * n + g);
  }

  /** The options read back out of register 7. */
  function UnpackCalibration(b: Byte): (CalibrationOptions, bool) {
    (CalibrationOptions(b / 16 % 2 == 1, b / 8 % 2 == 1, b / 4 % 2 == 1, b / 2 % 2 == 1), b % 2 == 1)
  }

  /** Packing the calibration options loses none of them. */
  lemma CalibrationRoundTrip(o: CalibrationOptions, run: bool)
    ensures UnpackCalibration(PackCalibration(o, run)) == (o, run)
  {
    var t, e, n, g, r := B(o.tap), B(o.trackError), B(o.nerd), B(o.background), B(run);
    var b := PackCalibration(o, run);
    assert b == 16 * t + 8 * e + 4 * n + 2 * g + r;
    UnpackCalibrationBits(t, e, n, g, r);
    assert UnpackCalibration(b) == (CalibrationOptions(t == 1, e == 1, n == 1, g == 1), r == 1);
  }

  /** Register 7 once the chip has cleared the run bit of a calibration it was
      started with holds exactly the options. */
  lemma CalibrationFinished(o: CalibrationOptions, v: Byte)
    requires v % 2 == 0 && v / 2 == PackCalibration(o, true) / 2
    ensures v == PackCalibration(o, false)
  {
    var h := 8 * B(o.tap) + 4 * B(o.trackError) + 2 * B(o.nerd) + B(o.background);
    DivUnique(PackCalibration(o, true), 2, h, 1);
    DivUnique(PackCalibration(o, false), 2, h, 0);
  }

  lemma UnpackCalibrationBits(t: int, e: int, n: int, g: int, r: int)
    requires 0 <= t <= 1 && 0 <= e <= 1 && 0 <= n <= 1 && 0 <= g <= 1 && 0 <= r <= 1
    ensures UnpackCalibration(16 * t + 8 * e + 4 * n + 2 * g + r) ==
            (CalibrationOptions(t == 1, e == 1, n == 1, g == 1), r == 1)
  {
    var b := 16 * t + 8 * e + 4 * n + 2 * g + r;
    DigitIs(b, 1, 8 * t + 4 * e + 2 * n + g, r, 0);
    DigitIs(b, 2, 4 * t + 2 * e + n, g, r);
    DigitIs(b, 4, 2 * t + e, n, 2 * g + r);
    DigitIs(b, 8, t, e, 4 * n + 2 * g + r);
    DigitIs(b, 16, 0, t, 8 * e + 4 * n + 2 * g + r);
  }

  // ---------------------------------------------------------------------------
  // Sample rate

  /** The rates register 9 takes as they are. */
  const RATES: set<int> := {100, 80, 60, 40, 20, 10}

  /** Register 9 as the `sample_rate` setter writes it: 0 for the stylus rates
      200 and 300, a standard rate as it is, 100 for anything else. */
  function RateRegister(val: int): (r: Byte)
    ensures r == 0 || r in RATES
    ensures val in RATES ==> r == val
    ensures (val == 200 || val == 300) ==> r == 0
    ensures val !in RATES && val != 200 && val != 300 ==> r == 100
  {
    if val == 200 || val == 300 then 0 else if val in RATES then val else 100
  }

  /** Register 6 (FeedConfig3): 10 (palm and noise compensation off) for the
      stylus rates, 0 otherwise. */
  function Config3For(val: int): (r: Byte)
    ensures (r == 10) == (val == 200 || val == 300) && (r == 0 || r == 10)
  {
    if val == 200 || val == 300 then 10 else 0
  }

  /** The reload-timer byte stored at extended addresses 0x19E and 0x19F: 6 for
      300, 9 for 200, 0x13 for every other rate. */
  function ReloadTimer(val: int): (r: Byte)
    ensures (r == 6) == (val == 300) && (r == 9) == (val == 200)
    ensures r == 6 || r == 9 || r == 0x13
  {
    if val == 300 then 6 else if val == 200 then 9 else 0x13
  }

  /** Reading register 9 back and writing that value again: a standard rate
      stays, but a stylus rate reads back as 0, which writes back as 100. */
  lemma RateReadBack(val: int)
    ensures val in RATES ==> RateRegister(RateRegister(val)) == val
    ensures (val == 200 || val == 300) ==> RateRegister(val) == 0 && RateRegister(RateRegister(val)) == 100
    ensures RateRegister(RateRegister(RateRegister(val))) == RateRegister(RateRegister(val))
  {
  }

  // ---------------------------------------------------------------------------
  // The AnyMeas flags: bits 3 and 4 of register 3 (SysConfig1)

  // The masks, named so that the solver does not expand `&` and `|` on them bit by bit.
  const KEEP_NON_ANYMEAS: int := 0xE7
  const TRACKING_OFF: int := 0x08
  const ANYMEAS_FLAGS: int := 0x18

  /** `prev & 0xE7`: register 3 with both AnyMeas flags cleared and every other
      bit kept. */
  function ClearAnymeasFlags(prev: Byte): (b: Byte)
    ensures b == prev % 8 + 32 * (prev / 32)
  {
    ClearAnymeasAnd(prev, KEEP_NON_ANYMEAS);
    FlagsBound(prev, 0);
    And(prev, KEEP_NON_ANYMEAS)
  }

  lemma ClearAnymeasAnd(x: Byte, m: int)
    requires m == 0xE7
    ensures And(x, m) == x % 8 + 32 * (x / 32)
  {
    AndSplitBy(x, m, 3, 8);
    assert m % 8 == 7 && m / 8 == 28;
    LowKept(x % 8);
    MiddleCleared(x / 8);
    assert x / 8 / 4 == x / 32;
  }

  /** `lo & 7` keeps a value below 8. */
  lemma LowKept(lo: int)
    requires 0 <= lo < 8
    ensures And(lo, 7) == lo
  {
    MaskBy(lo, 3, 7);
    DivUnique(lo, 8, 0, lo);
  }

  /** `y & 0x1C` on a value below 32 clears its two low bits. */
  lemma MiddleCleared(y: int)
    requires 0 <= y < 32
    ensures And(y, 28) == 4 * (y / 4)
  {
    AndSplitBy(y, 28, 2, 4);
    AndZero(y % 4);
    MaskBy(y / 4, 3, 7);
    DivUnique(y / 4, 8, 0, y / 4);
  }

  /** A byte with its flags replaced by `f` is still a byte. */
  lemma FlagsBound(x: Byte, f: int)
    requires 0 <= f < 4
    ensures 0 <= x % 8 + 8 * f + 32 * (x / 32) < 256
  {
  }

  /** `(prev & 0xE7) | 0x08`, written when entering AnyMeas: bit 3 set (tracking
      off), bit 4 clear, every other bit kept. */
  function EnterAnymeasFlags(prev: Byte): (b: Byte)
    ensures b == prev % 8 + 8 + 32 * (prev / 32)
  {
    var sys := ClearAnymeasFlags(prev);
    ClearedFlags(prev);
    DivUnique(sys / 8, 4, prev / 32, 0);
    EnterAnymeasOr(sys, TRACKING_OFF);
    FlagsBound(prev, 1);
    Or(sys, TRACKING_OFF)
  }

  /** Clearing the flags leaves a multiple of 32 above the three low bits. */
  lemma ClearedFlags(prev: Byte)
    ensures ClearAnymeasFlags(prev) % 8 == prev % 8
    ensures ClearAnymeasFlags(prev) / 8 == 4 * (prev / 32)
  {
    DivUnique(prev % 8 + 32 * (prev / 32), 8, 4 * (prev / 32), prev % 8);
  }

  lemma EnterAnymeasOr(sys: Byte, m: int)
    requires sys / 8 % 4 == 0 && m == 0x08
    ensures Or(sys, m) == sys + 8
  {
    OrSplitBy(sys, m, 3, 8);
    assert m % 8 == 0 && m / 8 == 1;
    OrZero(sys % 8);
    OrOne(sys / 8);
  }

  /** `y | 1` on a multiple of 4 adds one. */
  lemma OrOne(y: int)
    requires y % 4 == 0
    ensures Or(y, 1) == y + 1
  {
    OrAdd(y, 1, 2, 4, y / 4);
  }

  /** `prev | 0x18`, written to start a measurement: both flags set, every other
      bit kept. */
  function StartMeasureFlags(prev: Byte): (b: Byte)
    ensures b == prev % 8 + 24 + 32 * (prev / 32)
  {
    StartMeasureOr(prev, ANYMEAS_FLAGS);
    FlagsBound(prev, 3);
    Or(prev, ANYMEAS_FLAGS)
  }

  lemma StartMeasureOr(x: Byte, m: int)
    requires m == 0x18
    ensures Or(x, m) == x % 8 + 24 + 32 * (x / 32)
  {
    OrSplitBy(x, m, 3, 8);
    assert m % 8 == 0 && m / 8 == 3;
    OrZero(x % 8);
    OrThree(x / 8);
    assert x / 8 / 4 == x / 32;
  }

  /** `y | 3` sets the two low bits. */
  lemma OrThree(y: int)
    requires y >= 0
    ensures Or(y, 3) == 4 * (y / 4) + 3
  {
    OrSplitBy(y, 3, 2, 4);
    OrOnes(y % 4, 2);
    OrZero(y / 4);
  }

  /** What the three register-3 writes do to the flags: clearing leaves `00`,
      entering AnyMeas `01`, starting a measurement `11`, and none of them
      touches bits 0..2 or 5..7. */
  lemma AnymeasFlagsKept(prev: Byte)
    ensures var b := ClearAnymeasFlags(prev); b % 8 == prev % 8 && b / 8 % 4 == 0 && b / 32 == prev / 32
    ensures var b := EnterAnymeasFlags(prev); b % 8 == prev % 8 && b / 8 % 4 == 1 && b / 32 == prev / 32
    ensures var b := StartMeasureFlags(prev); b % 8 == prev % 8 && b / 8 % 4 == 3 && b / 32 == prev / 32
  {
    var lo, hi := prev % 8, prev / 32;
    FlagsField(lo, hi, 0);
    FlagsField(lo, hi, 1);
    FlagsField(lo, hi, 3);
  }

  /** The three fields of a byte built from bits 0..2, the two flags and bits
      5..7 read back as they were put in. */
  lemma FlagsField(lo: int, hi: int, f: int)
    requires 0 <= lo < 8 && 0 <= f < 4 && hi >= 0
    ensures var x := lo + 8 * f + 32 * hi; x % 8 == lo && x / 8 % 4 == f && x / 32 == hi
  {
    var x := lo + 8 * f + 32 * hi;
    DivUnique(x, 8, f + 4 * hi, lo);
    DivUnique(f + 4 * hi, 4, hi, f);
    DivUnique(x, 32, hi, lo + 8 * f);
  }
}
