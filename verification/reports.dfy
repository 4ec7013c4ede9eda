/** The data packets the chip reports in its two tracking modes, decoded as the
    drivers decode them from the bytes of registers 0x12.. . */
module Reports {
  import opened Bits
  import opened Bytes

  /** Python's `del s[i]`. */
  function Without(s: seq<int>, i: nat): (r: seq<int>)
    requires i < |s|
    ensures |r| == |s| - 1
    ensures forall k :: 0 <= k < i ==> r[k] == s[k]
    ensures forall k :: i <= k < |r| ==> r[k] == s[k + 1]
  {
    s[..i] + s[i + 1..]
  }

  // ---------------------------------------------------------------------------
  // Absolute mode

  /** `(b4 & 0xF0)` keeps the high nibble of a byte. */
  lemma HighNibble(x: Byte)
    ensures And(x, 0xF0) == 16 * (x / 16)
  {
    Pow2Values();
    AndShiftedBy(x, 15, 4, 16, 0xF0);
    MaskBy(x / 16, 4, 15);
    DivUnique(x / 16, 16, 0, x / 16);
  }

  /** The X field: `b2 | ((b4 & 0x0F) << 8)` puts the low nibble of byte 4 above byte 2. */
  lemma XField(lo: Byte, b4: Byte)
    ensures Or(lo, Shl(And(b4, 0x0F), 8)) == lo + 256 * (b4 % 16)
    ensures Or(Shl(And(b4, 0x0F), 8), lo) == lo + 256 * (b4 % 16)
  {
    Pow2Values();
    MaskBy(b4, 4, 0x0F);
    ShlBy(And(b4, 0x0F), 8, 256);
    OrAdd(Shl(And(b4, 0x0F), 8), lo, 8, 256, And(b4, 0x0F));
  }

  /** The Y field: `b3 | ((b4 & 0xF0) << 4)` puts the high nibble of byte 4 above byte 3. */
  lemma YField(lo: Byte, b4: Byte)
    ensures Or(lo, Shl(And(b4, 0xF0), 4)) == lo + 256 * (b4 / 16)
    ensures Or(Shl(And(b4, 0xF0), 4), lo) == lo + 256 * (b4 / 16)
  {
    Pow2Values();
    HighNibble(b4);
    ShlBy(And(b4, 0xF0), 4, 16);
    OrAdd(Shl(And(b4, 0xF0), 4), lo, 8, 256, b4 / 16);
  }

  /** A byte widened by a nibble is a twelve-bit value. */
  lemma Widen(lo: Byte, n: int)
    requires 0 <= n < 16
    ensures 0 <= lo + 256 * n < 4096
  {
  }

  /** Buttons and Z: `b & 0x3F` keeps the low six bits. */
  lemma SixBits(b: Byte)
    ensures And(b, 0x3F) == b % 64
  {
    Pow2Values();
    MaskBy(b, 6, 0x3F);
  }

  /** The current and lite drivers' absolute decode of the six packet bytes:
      mask byte 0 (buttons) and byte 5 (Z) to six bits, widen bytes 2 and 3 (X
      and Y) with the two nibbles of byte 4, then drop bytes 4 and 1. The result
      is `[buttons, x, y, z]` with X and Y twelve bits wide. */
  function AbsoluteReport(raw: seq<Byte>): (r: seq<int>)
    requires |raw| == 6
    ensures r == [raw[0] as int % 64, raw[2] as int + 256 * (raw[4] as int % 16), raw[3] as int + 256 * (raw[4] as int / 16), raw[5] as int % 64]
    ensures 0 <= r[0] < 64 && 0 <= r[1] < 4096 && 0 <= r[2] < 4096 && 0 <= r[3] < 64
  {
    SixBits(raw[0]);
    SixBits(raw[5]);
    XField(raw[2], raw[4]);
    YField(raw[3], raw[4]);
    Widen(raw[2], raw[4] % 16);
    Widen(raw[3], raw[4] / 16);
    var v0: seq<int> := raw;
    var v1 := v0[0 := And(v0[0], 0x3F)];
    var v2 := v1[2 := Or(v1[2], Shl(And(v1[4], 0x0F), 8))];
    var v3 := v2[3 := Or(v2[3], Shl(And(v2[4], 0xF0), 4))];
    var v4 := v3[5 := And(v3[5], 0x3F)];
    DropUnused(v4);
    Without(Without(v4, 4), 1)
  }

  /** `del vals[4], vals[1]` leaves bytes 0, 2, 3 and 5. */
  lemma DropUnused(v: seq<int>)
    requires |v| == 6
    ensures Without(Without(v, 4), 1) == [v[0], v[2], v[3], v[5]]
  {
  }

  /** The six bytes the chip sends for a touch: buttons, an unused byte, the low
      bytes of X and Y, their high nibbles packed into one byte, and Z. */
  function AbsolutePacket(buttons: int, x: int, y: int, z: int): (raw: seq<Byte>)
    requires 0 <= buttons < 64 && 0 <= x < 4096 && 0 <= y < 4096 && 0 <= z < 64
    ensures |raw| == 6
  {
    [buttons, 0, x % 256, y % 256, x / 256 + 16 * (y / 256), z]
  }

  /** A twelve-bit value is its low byte plus its high nibble times 256. */
  lemma Split(x: int)
    requires 0 <= x < 4096
    ensures x % 256 + 256 * (x / 256) == x && 0 <= x / 256 < 16
  {
  }

  /** Decoding a packet gives back the touch it encodes. */
  lemma AbsoluteRoundTrip(buttons: int, x: int, y: int, z: int)
    requires 0 <= buttons < 64 && 0 <= x < 4096 && 0 <= y < 4096 && 0 <= z < 64
    ensures AbsoluteReport(AbsolutePacket(buttons, x, y, z)) == [buttons, x, y, z]
  {
    var p := AbsolutePacket(buttons, x, y, z);
    Split(x);
    Split(y);
    DivUnique(p[4], 16, y / 256, x / 256);
    DivUnique(buttons, 64, 0, buttons);
    DivUnique(z, 64, 0, z);
    var r := AbsoluteReport(p);
    assert r == [p[0] as int % 64, p[2] as int + 256 * (p[4] as int % 16), p[3] as int + 256 * (p[4] as int / 16), p[5] as int % 64];
  }

  /** Re-encoding a decoded packet gives back the bytes it came from, except the
      unused byte 1 and the top two bits of the buttons and Z bytes, which the
      decode drops. */
  lemma AbsoluteReencode(raw: seq<Byte>)
    requires |raw| == 6
    ensures var r := AbsoluteReport(raw);
            AbsolutePacket(r[0], r[1], r[2], r[3]) == raw[0 := raw[0] % 64][1 := 0][5 := raw[5] % 64]
  {
    var r := AbsoluteReport(raw);
    DivUnique(r[1], 256, raw[4] % 16, raw[2]);
    DivUnique(r[2], 256, raw[4] / 16, raw[3]);
    DivUnique(raw[4], 16, raw[4] / 16, raw[4] % 16);
  }

  // ---------------------------------------------------------------------------
  // Relative mode

  /** The relative decode of the four packet bytes: `b0 & 7` keeps the three
      button bits; X, Y and the scroll byte pass through as sent. */
  function RelativeReport(raw: seq<Byte>): (r: seq<Byte>)
    requires |raw| == 4
    ensures |r| == 4 && r[0] == raw[0] % 8 && r[1..] == raw[1..]
  {
    assert Pow2(3) == 8;
    MaskBy(raw[0], 3, 7);
    raw[0 := And(raw[0], 7)]
  }

  /** Decoding an already decoded packet changes nothing more. */
  lemma RelativeIdempotent(raw: seq<Byte>)
    requires |raw| == 4
    ensures RelativeReport(RelativeReport(raw)) == RelativeReport(raw)
  {
    var r := RelativeReport(raw);
    DivUnique(r[0], 8, 0, r[0]);
    assert RelativeReport(r)[0] == r[0];
  }

  /** The legacy driver's relative decode builds the same four bytes as a new
      buffer: `bytearray([b0 & 7, b1, b2]) + bytes([b3])`. */
  function LegacyRelativeReport(raw: seq<Byte>): (r: seq<Byte>)
    requires |raw| == 4
    ensures r == RelativeReport(raw)
  {
    assert Pow2(3) == 8;
    MaskBy(raw[0], 3, 7);
    [And(raw[0], 7), raw[1], raw[2]] + [raw[3]]
  }

  // ---------------------------------------------------------------------------
  // The legacy driver's clamp

  /** The legacy driver's absolute fields before its clamp:
      `[b0 & 0x3F, ((b4 & 0x0F) << 8) | b2, ((b4 & 0xF0) << 4) | b3, b5 & 0x3F]`.
      They are the current driver's fields. */
  function LegacyAbsoluteFields(raw: seq<Byte>): (r: seq<int>)
    requires |raw| == 6
    ensures r == AbsoluteReport(raw)
  {
    SixBits(raw[0]);
    SixBits(raw[5]);
    XField(raw[2], raw[4]);
    YField(raw[3], raw[4]);
    [And(raw[0], 0x3F), Or(Shl(And(raw[4], 0x0F), 8), raw[2]),
     Or(Shl(And(raw[4], 0xF0), 4), raw[3]), And(raw[5], 0x3F)]
  }

  /** The legacy absolute report as written: X becomes `min(128, max(1920, x))`
      and Y `min(64, max(1472, y))`. The outer `min` always wins, so every
      touch reports X = 128 and Y = 64. */
  function LegacyAbsoluteReport(raw: seq<Byte>): (r: seq<int>)
    requires |raw| == 6
    ensures |r| == 4 && r[0] == raw[0] % 64 && r[3] == raw[5] % 64
    ensures r[1] == 128 && r[2] == 64
  {
    var v := LegacyAbsoluteFields(raw);
    var v1 := v[1 := Min(128, Max(1920, v[1]))];
    v1[2 := Min(64, Max(1472, v1[2]))]
  }

  /** Every touch away from the corner (128, 64), such as X = 1000 and Y = 700
      in the middle of the pad, reads back as that corner. */
  lemma LegacyClampLosesPosition(buttons: int, x: int, y: int, z: int)
    requires 0 <= buttons < 64 && 0 <= x < 4096 && 0 <= y < 4096 && 0 <= z < 64
    requires x != 128 || y != 64
    ensures AbsoluteReport(AbsolutePacket(buttons, x, y, z))[1..3] == [x, y]
    ensures LegacyAbsoluteReport(AbsolutePacket(buttons, x, y, z))[1..3] != [x, y]
  {
    AbsoluteRoundTrip(buttons, x, y, z);
    var r := LegacyAbsoluteReport(AbsolutePacket(buttons, x, y, z));
    assert r[1..3][0] == 128 && r[1..3][1] == 64;
  }

  /** The clamp the legacy driver evidently meant, `max(128, min(x, 1920))` and
      `max(64, min(y, 1472))`: the ranges the current driver's `read()`
      documentation gives as the datasheet's recommendation. */
  function ClampedAbsoluteReport(raw: seq<Byte>): (r: seq<int>)
    requires |raw| == 6
    ensures |r| == 4 && r[0] == raw[0] % 64 && r[3] == raw[5] % 64
    ensures 128 <= r[1] <= 1920 && 64 <= r[2] <= 1472
  {
    var v := LegacyAbsoluteFields(raw);
    var v1 := v[1 := Clamp(v[1], 128, 1920)];
    v1[2 := Clamp(v1[2], 64, 1472)]
  }

  /** The corrected clamp passes every position inside the recommended ranges
      through unchanged and pulls every other one to the nearest edge. */
  lemma ClampKeepsPosition(raw: seq<Byte>)
    requires |raw| == 6
    ensures var x, y := AbsoluteReport(raw)[1], AbsoluteReport(raw)[2];
            ClampedAbsoluteReport(raw)[1] == (if x < 128 then 128 else if x > 1920 then 1920 else x) &&
            ClampedAbsoluteReport(raw)[2] == (if y < 64 then 64 else if y > 1472 then 1472 else y)
  {
  }
}
