/** The compensation matrix: 46 signed 16-bit values stored as 92 bytes of
    extended memory from address 0x1DF on, each value little-endian, as
    `struct.pack("h")` and `struct.unpack("46h")` lay them out on the
    little-endian boards the driver runs on. */
module Matrix {
  import opened Wrappers
  import opened Exceptions
  import opened Bits
  import opened Bytes
  import opened Sim
  import opened Era

  const MATRIX_ADDR: ExtAddr := 0x01DF
  const MATRIX_LEN: nat := 46

  /** The range of a C `short`, the values `struct.pack("h")` accepts. */
  predicate IsShort(v: int) {
    -0x8000 <= v < 0x8000
  }

  /** The two bytes of a short, low byte first, negative values in two's
      complement. */
  function ShortBytes(v: int): (bs: seq<Byte>)
    requires IsShort(v)
    ensures |bs| == 2 && bs[0] as int + 256 * (bs[1] as int) == v % 0x1_0000
  {
    var u := v % 0x1_0000;
    [u % 256, u / 256]
  }

  /** `struct.pack("h", v)`: the two bytes of `v`, or `struct.error` when `v`
      does not fit in a short. */
  function PackShort(v: int): (r: Result<seq<Byte>, Exception>)
    ensures r.Success? <==> IsShort(v)
    ensures r.Failure? ==> r.error == StructError
    ensures r.Success? ==> r.value == ShortBytes(v)
  {
    if IsShort(v) then Success(ShortBytes(v)) else Failure(StructError)
  }

  /** `struct.unpack("h", bytes([lo, hi]))`. */
  function UnpackShort(lo: Byte, hi: Byte): (v: int)
    ensures IsShort(v) && v % 0x1_0000 == lo + 256 * hi
  {
    var u := lo + 256 * hi;
    if u >= 0x8000 then u - 0x1_0000 else u
  }

  /** Packing then unpacking a short gives it back. */
  lemma ShortRoundTrip(v: int)
    requires IsShort(v)
    ensures UnpackShort(ShortBytes(v)[0], ShortBytes(v)[1]) == v
  {
    var bs := ShortBytes(v);
    if v < 0 {
      DivUnique(v, 0x1_0000, -1, v + 0x1_0000);
    } else {
      DivUnique(v, 0x1_0000, 0, v);
    }
    assert bs[0] as int + 256 * (bs[1] as int) == v % 0x1_0000;
  }

  /** Unpacking then packing two bytes gives them back. */
  lemma BytesRoundTrip(lo: Byte, hi: Byte)
    ensures ShortBytes(UnpackShort(lo, hi)) == [lo, hi]
  {
    var u := lo + 256 * hi;
    DivUnique(u, 256, hi, lo);
  }

  /** `struct.unpack` of `n` shorts from `2 n` bytes. */
  function UnpackShorts(buf: seq<int>): (vs: seq<int>)
    requires |buf| % 2 == 0 && forall i :: 0 <= i < |buf| ==> 0 <= buf[i] < 256
    ensures |vs| == |buf| / 2
    ensures forall i :: 0 <= i < |vs| ==> vs[i] == UnpackShort(buf[2 * i], buf[2 * i + 1])
  {
    seq(|buf| / 2, i requires 0 <= i < |buf| / 2 => UnpackShort(buf[2 * i], buf[2 * i + 1]))
  }

  /** The bytes of a run of shorts, each packed in turn: byte `k` is byte
      `k % 2` of short `k / 2`. */
  function PackShorts(vs: seq<int>): (bs: seq<Byte>)
    requires forall i :: 0 <= i < |vs| ==> IsShort(vs[i])
    ensures |bs| == 2 * |vs|
  {
    seq(2 * |vs|, k requires 0 <= k < 2 * |vs| => ShortBytes(vs[k / 2])[k % 2])
  }

  /** Unpacking the bytes of packed shorts gives the shorts back. */
  lemma PackRoundTrip(vs: seq<int>)
    requires forall i :: 0 <= i < |vs| ==> IsShort(vs[i])
    ensures UnpackShorts(PackShorts(vs)) == vs
  {
    var bs := PackShorts(vs);
    DivUnique(|bs|, 2, |vs|, 0);
    var us := UnpackShorts(bs);
    forall i | 0 <= i < |vs|
      ensures us[i] == vs[i]
    {
      PackedAt(vs, i);
      ShortRoundTrip(vs[i]);
    }
  }

  /** Short `i` occupies bytes `2 i` and `2 i + 1`. */
  lemma PackedAt(vs: seq<int>, i: nat)
    requires forall i :: 0 <= i < |vs| ==> IsShort(vs[i])
    requires i < |vs|
    ensures PackShorts(vs)[2 * i] == ShortBytes(vs[i])[0]
    ensures PackShorts(vs)[2 * i + 1] == ShortBytes(vs[i])[1]
  {
    DivUnique(2 * i, 2, i, 0);
    DivUnique(2 * i + 1, 2, i, 1);
  }

  /** Packing the shorts unpacked from a buffer gives the buffer back: every
      byte pattern is some short. */
  lemma UnpackRoundTrip(buf: seq<int>)
    requires |buf| % 2 == 0 && forall i :: 0 <= i < |buf| ==> 0 <= buf[i] < 256
    ensures var vs := UnpackShorts(buf); (forall i :: 0 <= i < |vs| ==> IsShort(vs[i])) && PackShorts(vs) == buf
  {
    var vs := UnpackShorts(buf);
    var bs := PackShorts(vs);
    forall k | 0 <= k < |buf|
      ensures bs[k] == buf[k]
    {
      var i := k / 2;
      BytesRoundTrip(buf[2 * i], buf[2 * i + 1]);
      PackedAt(vs, i);
    }
  }

  /** `matrix += [0] * (46 - len(matrix))`: a short matrix is padded with zeros
      to 46 entries; a longer one is left as it is. */
  function Padded(m: seq<int>): (r: seq<int>)
    ensures |r| == Max(|m|, MATRIX_LEN) && r[..|m|] == m
    ensures forall i :: |m| <= i < |r| ==> r[i] == 0
  {
    if |m| < MATRIX_LEN then m + seq(MATRIX_LEN - |m|, _ => 0) else m
  }

  /** The number of leading entries that fit in a short: where the setter's
      loop stops with `struct.error`, or the whole length. */
  function ShortPrefix(m: seq<int>): (k: nat)
    ensures k <= |m|
    ensures forall i :: 0 <= i < k ==> IsShort(m[i])
    ensures k < |m| ==> !IsShort(m[k])
  {
    if |m| == 0 || !IsShort(m[0]) then 0
    else
      var k := 1 + ShortPrefix(m[1..]);
      assert forall i :: 1 <= i < k ==> m[1..][i - 1] == m[i];
      k
  }

  /** Memory after the bytes `bs` are stored from `a` on, one address after
      another. */
  function Store(m: map<ExtAddr, Byte>, a: ExtAddr, bs: seq<Byte>): map<ExtAddr, Byte>
    decreases |bs|
  {
    if |bs| == 0 then m else Store(m, a, bs[..|bs| - 1])[Offset(a, |bs| - 1) := bs[|bs| - 1]]
  }

  /** Storing two more bytes extends the stored run. */
  lemma StoreTwo(m: map<ExtAddr, Byte>, a: ExtAddr, bs: seq<Byte>, b0: Byte, b1: Byte)
    ensures Store(m, a, bs + [b0, b1]) == Store(m, a, bs)[Offset(a, |bs|) := b0][Offset(a, |bs| + 1) := b1]
  {
    assert (bs + [b0, b1])[..|bs| + 1] == bs + [b0];
    assert (bs + [b0])[..|bs|] == bs;
  }

  /** Where a stored run lands: byte `i` at the address `i` places after `a`,
      everything else as it was. */
  lemma {:induction false} StoreAt(m: map<ExtAddr, Byte>, a: ExtAddr, bs: seq<Byte>, x: ExtAddr)
    requires |bs| <= 0x1_0000
    ensures Get(Store(m, a, bs), x) == if Distance(a, x) < |bs| then bs[Distance(a, x)] else Get(m, x)
    decreases |bs|
  {
    if |bs| > 0 {
      var n := |bs| - 1;
      StoreAt(m, a, bs[..n], x);
      if Offset(a, n) == x {
        OffsetDistance(a, x, n);
      }
    }
  }

  /** Reading back a stored run gives it back. */
  lemma StoreWindow(m: map<ExtAddr, Byte>, a: ExtAddr, bs: seq<Byte>)
    requires |bs| <= 0x1_0000
    ensures ExtWindow(Store(m, a, bs), a, |bs|) == bs
  {
    var w := ExtWindow(Store(m, a, bs), a, |bs|);
    forall i | 0 <= i < |bs|
      ensures w[i] == bs[i]
    {
      WindowAt(Store(m, a, bs), a, |bs|, i);
      StoreAt(m, a, bs, Offset(a, i));
      OffsetDistance(a, Offset(a, i), i);
    }
  }

  /** Storing a run changes no address outside it. */
  lemma StoreOutside(m: map<ExtAddr, Byte>, a: ExtAddr, bs: seq<Byte>, x: ExtAddr)
    requires |bs| <= 0x1_0000 && Distance(a, x) >= |bs|
    ensures Get(Store(m, a, bs), x) == Get(m, x)
  {
    StoreAt(m, a, bs, x);
  }

  // ---------------------------------------------------------------------------
  // The driver's `calibration_matrix` attribute

  /** The getter: the 92 bytes from 0x1DF read in one sequential ERA read and
      unpacked into 46 shorts, entry `i` from the bytes at 0x1DF + 2 i (low)
      and 0x1DF + 2 i + 1 (high). Memory is not changed. */
  method CalibrationMatrix(c: Chip) returns (c': Chip, m: seq<int>)
    requires c.Valid()
    ensures c'.Valid() && c'.ext == c.ext && FeedKept(c, c')
    ensures |m| == MATRIX_LEN && forall i :: 0 <= i < |m| ==> IsShort(m[i])
    ensures m == UnpackShorts(ExtWindow(c.ext, MATRIX_ADDR, 2 * MATRIX_LEN))
    ensures forall i :: 0 <= i < MATRIX_LEN ==>
              m[i] == UnpackShort(c.Ext(MATRIX_ADDR + 2 * i), c.Ext(MATRIX_ADDR + 2 * i + 1))
  {
    var buf;
    c', buf := ReadExtBytes(c, MATRIX_ADDR, 2 * MATRIX_LEN);
    m := UnpackShorts(buf);
    forall i | 0 <= i < MATRIX_LEN
      ensures m[i] == UnpackShort(c.Ext(MATRIX_ADDR + 2 * i), c.Ext(MATRIX_ADDR + 2 * i + 1))
    {
      MatrixBytes(c.ext, i);
    }
  }

  /** The two bytes of entry `i` in the window the getter reads. */
  lemma MatrixBytes(m: map<ExtAddr, Byte>, i: nat)
    requires i < MATRIX_LEN
    ensures var w := ExtWindow(m, MATRIX_ADDR, 2 * MATRIX_LEN);
            w[2 * i] == Get(m, MATRIX_ADDR + 2 * i) && w[2 * i + 1] == Get(m, MATRIX_ADDR + 2 * i + 1)
  {
    WindowAt(m, MATRIX_ADDR, 2 * MATRIX_LEN, 2 * i);
    WindowAt(m, MATRIX_ADDR, 2 * MATRIX_LEN, 2 * i + 1);
    OffsetBelow(MATRIX_ADDR, 2 * i);
    OffsetBelow(MATRIX_ADDR, 2 * i + 1);
  }

  /** Packing one more short appends its two bytes. */
  lemma PackStep(vs: seq<int>, i: nat)
    requires i < |vs| && forall j :: 0 <= j <= i ==> IsShort(vs[j])
    ensures PackShorts(vs[..i + 1]) == PackShorts(vs[..i]) + ShortBytes(vs[i])
  {
    var a, b := PackShorts(vs[..i + 1]), PackShorts(vs[..i]) + ShortBytes(vs[i]);
    forall k | 0 <= k < 2 * i + 2
      ensures a[k] == b[k]
    {
      if k < 2 * i {
        assert vs[..i + 1][k / 2] == vs[..i][k / 2];
      } else {
        DivUnique(k, 2, i, k - 2 * i);
      }
    }
  }

  /** One entry of the setter's loop: the two bytes of `v` written with one
      `_era_write` each, at 0x1DF + 2 i and the address after it. */
  method WriteEntry(c: Chip, i: nat, v: int) returns (c': Chip)
    requires c.Valid() && i < MATRIX_LEN && IsShort(v)
    ensures c'.Valid() && c'.regs[FEED_CONFIG1] == c.regs[FEED_CONFIG1] && FeedKept(c, c')
    ensures c'.ext == c.ext[Offset(MATRIX_ADDR, 2 * i) := ShortBytes(v)[0]][Offset(MATRIX_ADDR, 2 * i + 1) := ShortBytes(v)[1]]
  {
    var buf := ShortBytes(v);
    var lo, hi := MATRIX_ADDR + 2 * i, MATRIX_ADDR + 2 * i + 1;
    OffsetBelow(MATRIX_ADDR, 2 * i);
    OffsetBelow(MATRIX_ADDR, 2 * i + 1);
    assert Offset(MATRIX_ADDR, 2 * i) == lo && Offset(MATRIX_ADDR, 2 * i + 1) == hi;
    var c1 := WriteExt(c, lo, buf[0]);
    c' := WriteExt(c1, hi, buf[1]);
    KeptTwice(c, c1, c');
  }

  /** The setter after its first `i` entries: they are stored, packed, from
      0x1DF on, and the feed register and the feed discipline are kept. */
  predicate Wrote(c0: Chip, c: Chip, p: seq<int>, i: nat) {
    c0.Valid() && c.Valid() && i <= |p| && (forall j :: 0 <= j < i ==> IsShort(p[j])) &&
    c.regs[FEED_CONFIG1] == c0.regs[FEED_CONFIG1] && FeedKept(c0, c) &&
    c.ext == Store(c0.ext, MATRIX_ADDR, PackShorts(p[..i]))
  }

  /** One pass of the setter's loop, seen from the memory it has written so
      far: one more packed entry stored. */
  method StoreEntry(c0: Chip, c: Chip, p: seq<int>, i: nat) returns (c': Chip)
    requires |p| == MATRIX_LEN && i < MATRIX_LEN && IsShort(p[i]) && Wrote(c0, c, p, i)
    ensures Wrote(c0, c', p, i + 1)
  {
    var bs := ShortBytes(p[i]);
    c' := WriteEntry(c, i, p[i]);
    PackStep(p, i);
    assert bs == [bs[0], bs[1]];
    StoreTwo(c0.ext, MATRIX_ADDR, PackShorts(p[..i]), bs[0], bs[1]);
    KeptTwice(c0, c, c');
  }

  /** The setter, as the current driver writes it: the matrix padded with
      zeros to 46 entries, then entries 0..45 packed and written one byte at a
      time. The first entry outside the short range stops the loop with
      `struct.error`, after the entries before it have been written; entries
      past 45 are ignored. The padding is done in place, so `m'`, the caller's
      list after the call, is the padded matrix whether or not an entry fails. */
  method SetCalibrationMatrix(c: Chip, m: seq<int>) returns (c': Chip, err: Option<Exception>, m': seq<int>)
    requires c.Valid()
    ensures m' == Padded(m) && |m'| >= MATRIX_LEN && m'[..|m|] == m
    ensures c'.Valid() && c'.regs[FEED_CONFIG1] == c.regs[FEED_CONFIG1] && FeedKept(c, c')
    ensures var p := Padded(m)[..MATRIX_LEN];
            err.Some? <==> ShortPrefix(p) < MATRIX_LEN
    ensures err.Some? ==> err == Some(StructError)
    ensures var p := Padded(m)[..MATRIX_LEN];
            c'.ext == Store(c.ext, MATRIX_ADDR, PackShorts(p[..ShortPrefix(p)]))
  {
    m' := Padded(m);
    var p := m'[..MATRIX_LEN];
    var k;
    c', k := WriteEntries(c, p);
    err := if k < MATRIX_LEN then Some(StructError) else None;
  }

  /** The setter's loop: entries packed and written in order until the first
      one outside the short range, whose index it returns (46 when there is
      none). */
  method WriteEntries(c: Chip, p: seq<int>) returns (c': Chip, k: nat)
    requires c.Valid() && |p| == MATRIX_LEN
    ensures k == ShortPrefix(p) && Wrote(c, c', p, k)
  {
    c' := c;
    k := 0;
    assert p[..0] == [];
    while k < MATRIX_LEN
      invariant k <= ShortPrefix(p) && Wrote(c, c', p, k)
    {
      var r := PackShort(p[k]);
      if r.Failure? {
        return;
      }
      c' := StoreEntry(c, c', p, k);
      k := k + 1;
    }
  }

  /** Writing a matrix and reading it back gives the padded matrix, cut to 46
      entries: a matrix of at most 46 shorts comes back as it was, followed by
      zeros. */
  method SetThenGet(c: Chip, m: seq<int>) returns (c': Chip, m': seq<int>, err: Option<Exception>)
    requires c.Valid()
    ensures err.Some? <==> ShortPrefix(Padded(m)[..MATRIX_LEN]) < MATRIX_LEN
    ensures err.None? ==> m' == Padded(m)[..MATRIX_LEN]
    ensures err.None? && |m| <= MATRIX_LEN ==> m'[..|m|] == m && forall i :: |m| <= i < MATRIX_LEN ==> m'[i] == 0
  {
    var c1, padded;
    c1, err, padded := SetCalibrationMatrix(c, m);
    if err.Some? {
      return c1, [], err;
    }
    var p := Padded(m)[..MATRIX_LEN];
    assert p[..ShortPrefix(p)] == p;
    c', m' := CalibrationMatrix(c1);
    StoredMatrix(c.ext, p);
  }

  /** The window of a stored packed matrix unpacks to the matrix. */
  lemma StoredMatrix(mem: map<ExtAddr, Byte>, p: seq<int>)
    requires |p| == MATRIX_LEN && forall i :: 0 <= i < |p| ==> IsShort(p[i])
    ensures UnpackShorts(ExtWindow(Store(mem, MATRIX_ADDR, PackShorts(p)), MATRIX_ADDR, 2 * MATRIX_LEN)) == p
  {
    StoreWindow(mem, MATRIX_ADDR, PackShorts(p));
    PackRoundTrip(p);
  }
}
