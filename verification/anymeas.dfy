/** AnyMeas mode: the ten configuration bytes written from register 5, and the
    eight toggle/polarity bytes written from register 0x13 before a raw ADC
    measurement. */
module AnyMeas {
  import opened Bits
  import opened Bytes

  // ADC gains (bits 6-7 of register 5).
  const GAIN_100: int := 0xC0
  const GAIN_133: int := 0x80
  const GAIN_166: int := 0x40
  const GAIN_200: int := 0

  // ADC frequencies (low bits of register 5).
  const FREQ_0: int := 2
  const FREQ_1: int := 3
  const FREQ_2: int := 4
  const FREQ_3: int := 5
  const FREQ_4: int := 6
  const FREQ_5: int := 7
  const FREQ_6: int := 9
  const FREQ_7: int := 0x0B

  // Muxing (register 7 of the AnyMeas block).
  const MUX_REF1: int := 0x10
  const MUX_REF0: int := 0x08
  const MUX_PNP: int := 0x04
  const MUX_NPN: int := 0x01

  // Control (register 14 of the AnyMeas block).
  const CRTL_REPEAT: int := 0x80
  const CRTL_PWR_IDLE: int := 0x40

  const GAINS: set<int> := {GAIN_100, GAIN_133, GAIN_166, GAIN_200}
  const FREQUENCIES: set<int> := {FREQ_0, FREQ_1, FREQ_2, FREQ_3, FREQ_4, FREQ_5, FREQ_6, FREQ_7}

  /** The configuration the driver starts from before it fills in the caller's
      values. */
  const TEMPLATE: seq<int> := [2, 3, 4, 0, 4, 0, 19, 0, 0, 1]

  /** Python's `int(a / d)` for a positive divisor: the quotient truncated
      toward zero (not floored, as `//` would be). */
  function TruncDiv(a: int, d: int): (q: int)
    requires d > 0
    ensures Abs(q) * d <= Abs(a) < (Abs(q) + 1) * d
    ensures (a >= 0 ==> q >= 0) && (a <= 0 ==> q <= 0)
  {
    if a >= 0 then a / d else -((-a) / d)
  }

  /** Byte 1: the sample length in units of 128 bits, kept within 1..3. */
  function SampleLength(bits: int): (r: int)
    ensures 1 <= r <= 3
    ensures bits < 256 ==> r == 1
    ensures 256 <= bits < 384 ==> r == 2
    ensures 384 <= bits ==> r == 3
  {
    Max(1, Min(TruncDiv(bits, 128), 3))
  }

  /** The documented lengths 128, 256 and 512 select 1, 2 and 3. */
  lemma SampleLengthValues()
    ensures SampleLength(128) == 1 && SampleLength(256) == 2 && SampleLength(512) == 3
  {
  }

  /** Byte 4: the aperture width in units of 125 ns, kept within 2..15. */
  function Aperture(ns: int): (r: int)
    ensures 2 <= r <= 15
    ensures ns < 375 ==> r == 2
    ensures 1875 <= ns ==> r == 15
  {
    Max(2, Min(TruncDiv(ns, 125), 15))
  }

  /** Every documented width, a multiple of 125 from 250 to 1875, is stored as
      its number of 125 ns units, so the width can be read back from the byte;
      widths in between round down to the unit below. */
  lemma ApertureInverse(ns: int)
    requires 250 <= ns < 2000
    ensures 125 * Aperture(ns) <= ns < 125 * Aperture(ns) + 125
    ensures ns % 125 == 0 ==> 125 * Aperture(ns) == ns
  {
  }

  /** Byte 0: `gain | frequency`. For the documented constants the two occupy
      separate bits, so the byte is their sum; other values are combined bit by
      bit as given. */
  function GainFrequency(gain: int, freq: int): (r: int)
    ensures gain in GAINS && freq in FREQUENCIES ==> r == gain + freq
  {
    GainFrequencySum(gain, freq);
    Or(gain, freq)
  }

  lemma GainFrequencySum(gain: int, freq: int)
    ensures gain in GAINS && freq in FREQUENCIES ==> Or(gain, freq) == gain + freq
  {
    if gain in GAINS && freq in FREQUENCIES {
      assert Pow2(6) == 64;
      OrAdd(gain, freq, 6, 64, gain / 64);
    }
  }

  /** The gain and the frequency occupy separate bits of byte 0: both can be
      read back from it, so no two choices share a byte. */
  lemma GainFrequencyRoundTrip(gain: int, freq: int)
    requires gain in GAINS && freq in FREQUENCIES
    ensures 0 <= GainFrequency(gain, freq) < 256
    ensures GainFrequency(gain, freq) / 64 * 64 == gain
    ensures GainFrequency(gain, freq) % 64 == freq
  {
    DivUnique(gain + freq, 64, gain / 64, freq);
  }

  /** The ten bytes `anymeas_mode_config` writes from register 5: the template
      with the gain and frequency, sample length, muxing, aperture and control
      filled in. */
  function AnymeasConfig(gain: int, freq: int, bits: int, mux: int, ns: int, ctrl: int): (r: seq<int>)
    ensures |r| == 10
    ensures r[0] == GainFrequency(gain, freq) && r[2] == mux && r[9] == ctrl
    ensures gain in GAINS && freq in FREQUENCIES ==> r[0] == gain + freq
    ensures r[1] == SampleLength(bits) && r[4] == Aperture(ns)
    ensures 1 <= r[1] <= 3 && 2 <= r[4] <= 15
    ensures forall i :: i in {3, 5, 6, 7, 8} ==> r[i] == TEMPLATE[i]
  {
    TEMPLATE[0 := GainFrequency(gain, freq)][1 := SampleLength(bits)][2 := mux][4 := Aperture(ns)][9 := ctrl]
  }

  /** The default arguments (gain 200 %, frequency 0, 512 bits, PNP muxing,
      500 ns, one measurement) write the template itself. */
  lemma AnymeasDefaults()
    ensures AnymeasConfig(GAIN_200, FREQ_0, 512, MUX_PNP, 500, 1) == TEMPLATE
  {
  }

  // ---------------------------------------------------------------------------
  // Toggle and polarity vectors

  /** The n low bytes of x, most significant first, as the loop
      `for i in range(n - 1, -1, -1): append((x >> (i * 8)) & 0xFF)` collects
      them. */
  function BigEndian(x: int, n: nat): (r: seq<int>)
    ensures |r| == n
    ensures forall k :: 0 <= k < n ==> r[k] == x / Pow2(8 * (n - 1 - k)) % 256
  {
    if n == 0 then []
    else
      ByteAt(x, n - 1);
      [And(Shr(x, (n - 1) * 8), 0xFF)] + BigEndian(x, n - 1)
  }

  /** `(x >> (i * 8)) & 0xFF` is byte i of x. */
  lemma ByteAt(x: int, i: nat)
    ensures And(Shr(x, i * 8), 0xFF) == x / Pow2(8 * i) % 256
  {
    Pow2Values();
    MaskBy(Shr(x, i * 8), 8, 0xFF);
  }

  /** The value a big-endian byte sequence spells. */
  function FromBigEndian(bs: seq<int>): int {
    if |bs| == 0 then 0 else bs[0] * Pow2(8 * (|bs| - 1)) + FromBigEndian(bs[1..])
  }

  /** The bytes hold x modulo 2^(8n): reading them back gives x exactly when it
      fits in n bytes, and the low n bytes of its two's complement otherwise. */
  lemma {:induction false} BigEndianRoundTrip(x: int, n: nat)
    ensures FromBigEndian(BigEndian(x, n)) == x % Pow2(8 * n)
  {
    if n > 0 {
      var bs := BigEndian(x, n);
      assert bs[1..] == BigEndian(x, n - 1);
      BigEndianRoundTrip(x, n - 1);
      Peel(x, Pow2(8 * (n - 1)));
      Pow2Bytes(n - 1);
    }
  }

  /** 2^(8(n+1)) is 256 times 2^(8n). */
  lemma {:induction false} Pow2Bytes(n: nat)
    ensures Pow2(8 * (n + 1)) == 256 * Pow2(8 * n)
  {
    var m := 8 * n;
    assert Pow2(m + 8) == 256 * Pow2(m) by {
      assert Pow2(m + 8) == 2 * Pow2(m + 7) == 4 * Pow2(m + 6) == 8 * Pow2(m + 5) == 16 * Pow2(m + 4);
      assert Pow2(m + 4) == 2 * Pow2(m + 3) == 4 * Pow2(m + 2) == 8 * Pow2(m + 1) == 16 * Pow2(m);
    }
  }

  /** Splitting off the byte above the low p-sized digits. */
  lemma Peel(x: int, p: int)
    requires p > 0
    ensures (x / p % 256) * p + x % p == x % (256 * p)
  {
    var q, r := x / p, x % p;
    var m := q % 256;
    assert q == 256 * (q / 256) + m;
    assert x == (256 * p) * (q / 256) + (m * p + r) by {
      assert x == p * q + r;
      assert p * q == (256 * p) * (q / 256) + m * p;
    }
    MulLe(m, 255, p);
    DivUnique(x, 256 * p, q / 256, m * p + r);
  }

  /** The eight bytes `start_measure_adc` writes from register 0x13: the four
      bytes of the toggle mask, then the four bytes of the polarity mask, each
      most significant first. */
  function ToggleVector(toggle: int, polarity: int): (r: seq<int>)
    ensures |r| == 8 && forall i :: 0 <= i < 8 ==> 0 <= r[i] < 256
    ensures FromBigEndian(r[..4]) == toggle % 0x1_0000_0000
    ensures FromBigEndian(r[4..]) == polarity % 0x1_0000_0000
  {
    var r := BigEndian(toggle, 4) + BigEndian(polarity, 4);
    assert r[..4] == BigEndian(toggle, 4) && r[4..] == BigEndian(polarity, 4);
    BigEndianRoundTrip(toggle, 4);
    BigEndianRoundTrip(polarity, 4);
    Pow2Values();
    Pow2Bytes(1);
    Pow2Bytes(2);
    Pow2Bytes(3);
    r
  }

  /** Two masks that agree on their 32 electrode bits write the same vector. */
  lemma ToggleVectorUnique(t1: int, p1: int, t2: int, p2: int)
    requires ToggleVector(t1, p1) == ToggleVector(t2, p2)
    ensures t1 % 0x1_0000_0000 == t2 % 0x1_0000_0000
    ensures p1 % 0x1_0000_0000 == p2 % 0x1_0000_0000
  {
  }
}
