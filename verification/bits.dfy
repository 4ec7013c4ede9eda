/** Python's integer bit operations (arbitrary precision, two's complement
    semantics for negative numbers), defined one bit at a time. */
module Bits {
  /** 2 to the power n. */
  function Pow2(n: nat): (p: nat)
    ensures p >= 1
  {
    if n == 0 then 1 else 2 * Pow2(n - 1)
  }

  /** Bit k of x, as Python's `(x >> k) & 1`. */
  function Bit(x: int, k: nat): (b: int)
    ensures b == 0 || b == 1
    decreases k
  {
    if k == 0 then x % 2 else Bit(x / 2, k - 1)
  }

  /** A Python `bool` used as an integer. */
  function B(b: bool): (r: int)
    ensures 0 <= r <= 1 && (r == 1) == b
  {
    if b then 1 else 0
  }

  /** Python's `x << n`. */
  function Shl(x: int, n: nat): int {
    x * Pow2(n)
  }

  /** Python's `x >> n`: Euclidean division by a positive divisor rounds toward
      minus infinity, as Python's shift does. */
  function Shr(x: int, n: nat): int {
    x / Pow2(n)
  }

  function Abs(x: int): nat { if x < 0 then -x else x }

  predicate Small(x: int) { x == 0 || x == -1 }

  /** Python's `x & y`. */
  function And(x: int, y: int): int
    decreases Abs(x) + Abs(y)
  {
    if Small(x) && Small(y) then (if x == -1 && y == -1 then -1 else 0)
    else 2 * And(x / 2, y / 2) + (if x % 2 == 1 && y % 2 == 1 then 1 else 0)
  }

  /** Python's `x | y`. */
  function Or(x: int, y: int): int
    decreases Abs(x) + Abs(y)
  {
    if Small(x) && Small(y) then (if x == -1 || y == -1 then -1 else 0)
    else 2 * Or(x / 2, y / 2) + (if x % 2 == 1 || y % 2 == 1 then 1 else 0)
  }

  lemma AndStep(x: int, y: int)
    ensures And(x, y) == 2 * And(x / 2, y / 2) + (if x % 2 == 1 && y % 2 == 1 then 1 else 0)
  {}

  lemma OrStep(x: int, y: int)
    ensures Or(x, y) == 2 * Or(x / 2, y / 2) + (if x % 2 == 1 || y % 2 == 1 then 1 else 0)
  {}

  lemma {:induction false} BitAnd(x: int, y: int, k: nat)
    ensures Bit(And(x, y), k) == if Bit(x, k) == 1 && Bit(y, k) == 1 then 1 else 0
    decreases k
  {
    AndStep(x, y);
    if k > 0 {
      BitAnd(x / 2, y / 2, k - 1);
    }
  }

  lemma {:induction false} BitOr(x: int, y: int, k: nat)
    ensures Bit(Or(x, y), k) == if Bit(x, k) == 1 || Bit(y, k) == 1 then 1 else 0
    decreases k
  {
    OrStep(x, y);
    if k > 0 {
      BitOr(x / 2, y / 2, k - 1);
    }
  }

  lemma DivMod2(x: int, p: nat)
    requires p >= 1
    ensures x % (2 * p) == 2 * ((x / 2) % p) + x % 2
    ensures x / (2 * p) == (x / 2) / p
  {
    var q, r := x / 2, x % 2;
    var s, t := q / p, q % p;
    assert x == (2 * p) * s + (2 * t + r) by {
      assert q == p * s + t;
      assert 2 * q == (2 * p) * s + 2 * t;
    }
    DivUnique(x, 2 * p, s, 2 * t + r);
  }

  /** Euclidean division is unique: the quotient and remainder are determined. */
  lemma DivUnique(x: int, d: int, q: int, r: int)
    requires d > 0 && 0 <= r < d && x == d * q + r
    ensures x / d == q && x % d == r
  {
    var k := x / d - q;
    assert d * (x / d) == d * q + d * k;
    MulSmall(d, k, r - x % d);
  }

  /** A multiple of `d` strictly between `-d` and `d` is zero. */
  lemma MulSmall(d: int, k: int, e: int)
    requires d > 0 && -d < e < d && d * k == e
    ensures k == 0
  {
    if k > 0 {
      MulAtLeast(d, k);
    } else if k < 0 {
      MulAtLeast(d, -k);
    }
  }

  lemma MulAtLeast(d: int, a: int)
    requires d > 0 && a >= 1
    ensures d * a >= d && d * -a <= -d
  {}

  lemma MulLe(a: int, b: int, p: int)
    requires a <= b && p > 0
    ensures a * p <= b * p
  {
    var d := b - a;
    assert d * p >= 0;
    assert b * p == a * p + d * p;
  }

  lemma Twice(a: int, p: int)
    ensures 2 * (a * p) == a * (2 * p)
  {}

  lemma {:induction false} AndZero(x: int)
    ensures And(x, 0) == 0
    decreases Abs(x)
  {
    if !Small(x) {
      AndZero(x / 2);
    }
  }

  /** Masking with n low ones keeps the remainder modulo 2^n. */
  /** `x % 2^n` from bit 0 of `x` and `(x / 2) % 2^(n-1)`. */
  lemma ModPow2Step(x: int, n: nat)
    requires n > 0
    ensures x % Pow2(n) == 2 * ((x / 2) % Pow2(n - 1)) + x % 2
  {
    DivMod2(x, Pow2(n - 1));
  }

  /** The `n` low bits of `x`, assembled one bit at a time. */
  function LowBits(x: int, n: nat): int
    decreases n
  {
    if n == 0 then 0 else 2 * LowBits(x / 2, n - 1) + x % 2
  }

  lemma {:induction false} AndLowBits(x: int, n: nat)
    ensures And(x, Pow2(n) - 1) == LowBits(x, n)
    decreases n
  {
    if n == 0 {
      AndZero(x);
    } else {
      var p, m := Pow2(n - 1), Pow2(n) - 1;
      assert m / 2 == p - 1 && m % 2 == 1 by {
        DivUnique(m, 2, p - 1, 1);
      }
      AndStep(x, m);
      AndLowBits(x / 2, n - 1);
    }
  }

  lemma {:induction false} LowBitsMod(x: int, n: nat)
    ensures LowBits(x, n) == x % Pow2(n)
    decreases n
  {
    if n > 0 {
      LowBitsMod(x / 2, n - 1);
      ModPow2Step(x, n);
    }
  }

  /** Masking with `2^n - 1` keeps the remainder modulo `2^n`. */
  lemma AndLow(x: int, n: nat)
    ensures And(x, Pow2(n) - 1) == x % Pow2(n)
  {
    AndLowBits(x, n);
    LowBitsMod(x, n);
  }

  /** Or of two numbers with no common bit is their sum. */
  lemma {:induction false} OrDisjoint(x: int, y: int)
    requires And(x, y) == 0
    ensures Or(x, y) == x + y
    decreases Abs(x) + Abs(y)
  {
    AndStep(x, y);
    OrStep(x, y);
    if !(Small(x) && Small(y)) {
      OrDisjoint(x / 2, y / 2);
    }
  }

  lemma {:induction false} AndComm(x: int, y: int)
    ensures And(x, y) == And(y, x)
    decreases Abs(x) + Abs(y)
  {
    if !(Small(x) && Small(y)) {
      AndComm(x / 2, y / 2);
    }
  }

  lemma {:induction false} OrComm(x: int, y: int)
    ensures Or(x, y) == Or(y, x)
    decreases Abs(x) + Abs(y)
  {
    if !(Small(x) && Small(y)) {
      OrComm(x / 2, y / 2);
    }
  }

  /** Masking with a shifted mask is masking the shifted-down value. */
  lemma {:induction false} AndShifted(x: int, m: int, n: nat)
    ensures And(x, m * Pow2(n)) == And(x / Pow2(n), m) * Pow2(n)
    decreases n
  {
    if n > 0 {
      var p := Pow2(n - 1);
      var y := m * Pow2(n);
      Twice(m, p);
      assert y == 2 * (m * p);
      assert y / 2 == m * p && y % 2 == 0;
      AndStep(x, y);
      assert And(x, y) == 2 * And(x / 2, m * p);
      AndShifted(x / 2, m, n - 1);
      DivMod2(x, p);
      var a := And(x / Pow2(n), m);
      assert And(x / 2, m * p) == a * p;
      Twice(a, p);
    }
  }

  /** A number below 2^n shares no bit with a multiple of 2^n. */
  lemma {:induction false} LowHighDisjoint(lo: int, hi: int, n: nat)
    requires 0 <= lo < Pow2(n)
    ensures And(lo, hi * Pow2(n)) == 0
    decreases n
  {
    if n == 0 {
      AndComm(lo, hi * Pow2(n));
      AndZero(hi * Pow2(n));
    } else {
      var p := Pow2(n - 1);
      assert hi * Pow2(n) == 2 * (hi * p);
      assert (hi * Pow2(n)) / 2 == hi * p && (hi * Pow2(n)) % 2 == 0;
      AndStep(lo, hi * Pow2(n));
      LowHighDisjoint(lo / 2, hi, n - 1);
    }
  }

  /** Placing `hi` above the `n` low bits of `lo` with `|` is arithmetic. */
  lemma OrShifted(lo: int, hi: int, n: nat)
    requires 0 <= lo < Pow2(n)
    ensures Or(lo, hi * Pow2(n)) == lo + hi * Pow2(n)
    ensures Or(hi * Pow2(n), lo) == lo + hi * Pow2(n)
  {
    LowHighDisjoint(lo, hi, n);
    OrDisjoint(lo, hi * Pow2(n));
    OrComm(lo, hi * Pow2(n));
  }

  /** `x | 0 == x`. */
  lemma {:induction false} OrZero(x: int)
    ensures Or(x, 0) == x
    decreases Abs(x)
  {
    if !Small(x) {
      OrZero(x / 2);
    }
  }

  /** Clearing bit 0 of a byte with `& 0xFE`. */
  lemma ClearLowBit(x: int)
    requires 0 <= x < 256
    ensures And(x, 0xFE) == x - x % 2
  {
    var h := x / 2;
    assert 0 <= h < 128 by {
      assert x == 2 * h + x % 2;
    }
    assert And(h, 127) == h by {
      assert Pow2(7) == 128;
      AndLow(h, 7);
      DivUnique(h, 128, 0, h);
    }
    AndStep(x, 0xFE);
  }

  /** Setting bit 0 of an even number with `| b`. */
  lemma SetLowBit(h: int, b: int)
    requires b == 0 || b == 1
    ensures Or(2 * h, b) == 2 * h + b
  {
    OrStep(2 * h, b);
    OrZero(h);
  }

  /** `x` with bit `k` set to `b`: the reference for every read-modify-write
      of a single register bit. */
  function SetBit(x: int, k: nat, b: int): int {
    x + (b - Bit(x, k)) * Pow2(k)
  }

  /** `SetBit` changes bit `k` to `b` and no other bit. */
  lemma {:induction false} SetBitBits(x: int, k: nat, b: int, j: nat)
    requires b == 0 || b == 1
    ensures Bit(SetBit(x, k, b), j) == if j == k then b else Bit(x, j)
    decreases k
  {
    var y := SetBit(x, k, b);
    if k == 0 {
      DivUnique(y, 2, x / 2, b);
    } else {
      var d := b - Bit(x, k);
      var p := Pow2(k - 1);
      Twice(d, p);
      assert y == 2 * (x / 2 + d * p) + x % 2;
      DivUnique(y, 2, x / 2 + d * p, x % 2);
      assert y / 2 == SetBit(x / 2, k - 1, b);
      if j > 0 {
        SetBitBits(x / 2, k - 1, b, j - 1);
      }
    }
  }

  /** Testing a bit with `x & (1 << k)` isolates it. */
  lemma {:induction false} AndPow2(x: int, k: nat)
    ensures And(x, Pow2(k)) == Bit(x, k) * Pow2(k)
    decreases k
  {
    if k == 0 {
      AndLow(x, 1);
    } else {
      var p := Pow2(k - 1);
      DivUnique(Pow2(k), 2, p, 0);
      AndStep(x, Pow2(k));
      AndPow2(x / 2, k - 1);
      Twice(Bit(x, k), p);
    }
  }

  /** Bit 0 of a `w`-bit value cleared with `& (2^w - 2)` and set with `| b`. */
  lemma MaskedSetLow(x: int, w: nat, b: int)
    requires 0 <= x < Pow2(w) && 0 < w && (b == 0 || b == 1)
    ensures Or(And(x, Pow2(w) - 1 - Pow2(0)), Shl(b, 0)) == SetBit(x, 0, b)
  {
    var q := Pow2(w - 1);
    assert 0 <= x / 2 < q;
    DivUnique(Pow2(w) - 2, 2, q - 1, 0);
    AndOdd(x, Pow2(w) - 2);
    AndLow(x / 2, w - 1);
    DivUnique(x / 2, q, 0, x / 2);
    assert And(x, Pow2(w) - 2) == 2 * (x / 2);
    SetLowBit(x / 2, b);
  }

  /** `x & m` keeps bit 0 of `x` when `m` has it, and passes the rest on, halved. */
  lemma AndOdd(x: int, m: int)
    ensures And(x, m) == 2 * And(x / 2, m / 2) + (if m % 2 == 1 then x % 2 else 0)
  {
    AndStep(x, m);
  }

  /** `| (b << k)` for `k > 0` leaves bit 0 alone and passes the rest on, halved. */
  lemma OrShiftedBit(a: int, r: int, b: int, k: nat)
    requires (r == 0 || r == 1) && k > 0
    ensures Or(2 * a + r, Shl(b, k)) == 2 * Or(a, Shl(b, k - 1)) + r
  {
    Twice(b, Pow2(k - 1));
    DivUnique(2 * a + r, 2, a, r);
    DivUnique(Shl(b, k), 2, Shl(b, k - 1), 0);
    OrStep(2 * a + r, Shl(b, k));
  }

  /** The driver's read-modify-write `(x & mask) | (b << k)`, with `mask` the
      `w`-bit mask that lacks bit `k`, sets bit `k` of a `w`-bit value to `b`. */
  lemma {:induction false} MaskedSet(x: int, w: nat, k: nat, b: int)
    requires 0 <= x < Pow2(w) && k < w && (b == 0 || b == 1)
    ensures Or(And(x, Pow2(w) - 1 - Pow2(k)), Shl(b, k)) == SetBit(x, k, b)
    decreases k
  {
    if k == 0 {
      MaskedSetLow(x, w, b);
    } else {
      MaskedSet(x / 2, w - 1, k - 1, b);
      MaskedSetStep(x, w, k, b);
    }
  }

  /** The step of `MaskedSet`: bit 0 passes through, the rest is the same
      read-modify-write one bit lower on the halved value. */
  lemma MaskedSetStep(x: int, w: nat, k: nat, b: int)
    requires 0 <= x < Pow2(w) && 0 < k < w && (b == 0 || b == 1)
    requires Or(And(x / 2, Pow2(w - 1) - 1 - Pow2(k - 1)), Shl(b, k - 1)) == SetBit(x / 2, k - 1, b)
    ensures Or(And(x, Pow2(w) - 1 - Pow2(k)), Shl(b, k)) == SetBit(x, k, b)
  {
    var q: int, p: int := Pow2(w - 1), Pow2(k - 1);
    var m := Pow2(w) - 1 - Pow2(k);
    DivUnique(m, 2, q - 1 - p, 1);
    AndOdd(x, m);
    var a := And(x / 2, q - 1 - p);
    assert And(x, m) == 2 * a + x % 2;
    OrShiftedBit(a, x % 2, b, k);
    SetBitHalf(x, k, b);
  }

  /** `SetBit` above bit 0 is `SetBit` of the halved value. */
  lemma SetBitHalf(x: int, k: nat, b: int)
    requires k > 0
    ensures SetBit(x, k, b) == 2 * SetBit(x / 2, k - 1, b) + x % 2
  {
    var d := b - Bit(x, k);
    assert d == b - Bit(x / 2, k - 1);
    Twice(d, Pow2(k - 1));
  }

  /** `|` of a value with a multiple of 2^n acts on the bits above the `n` low ones. */
  lemma {:induction false} OrBlocks(lo: int, hi: int, m: int, n: nat)
    requires 0 <= lo < Pow2(n)
    ensures Or(lo + hi * Pow2(n), m * Pow2(n)) == lo + Or(hi, m) * Pow2(n)
    decreases n
  {
    if n > 0 {
      var p := Pow2(n - 1);
      Twice(hi, p);
      Twice(m, p);
      Twice(Or(hi, m), p);
      DivUnique(lo + hi * Pow2(n), 2, lo / 2 + hi * p, lo % 2);
      DivUnique(m * Pow2(n), 2, m * p, 0);
      OrStep(lo + hi * Pow2(n), m * Pow2(n));
      OrBlocks(lo / 2, hi, m, n - 1);
    }
  }

  /** Bit `k` is the parity of `x >> k`. */
  lemma {:induction false} BitDiv(x: int, k: nat)
    ensures Bit(x, k) == (x / Pow2(k)) % 2
    decreases k
  {
    if k > 0 {
      BitDiv(x / 2, k - 1);
      DivMod2(x, Pow2(k - 1));
    }
  }

  /** `x | (1 << k)` sets bit `k`. */
  lemma {:induction false} OrBit(x: int, k: nat)
    ensures Or(x, Pow2(k)) == SetBit(x, k, 1)
    decreases k
  {
    if k == 0 {
      OrStep(x, 1);
      OrZero(x / 2);
    } else {
      DivUnique(Pow2(k), 2, Pow2(k - 1), 0);
      OrStep(x, Pow2(k));
      OrBit(x / 2, k - 1);
      SetBitHalf(x, k, 1);
    }
  }

  /** Setting a bit of a `w`-bit value below bit `w` keeps it a `w`-bit value. */
  lemma {:induction false} SetBitRange(x: int, w: nat, k: nat, b: int)
    requires 0 <= x < Pow2(w) && k < w && (b == 0 || b == 1)
    ensures 0 <= SetBit(x, k, b) < Pow2(w)
    decreases k
  {
    assert 0 <= x / 2 < Pow2(w - 1);
    if k > 0 {
      SetBitHalf(x, k, b);
      SetBitRange(x / 2, w - 1, k - 1, b);
    }
  }

  /** `x | y` of a multiple `x` = h * p of p = 2^n and a number `y` below `p`
      is their sum. */
  lemma OrAdd(x: int, y: int, n: nat, p: int, h: int)
    requires p == Pow2(n) && 0 <= y < p && x == h * p
    ensures Or(x, y) == x + y && Or(y, x) == x + y
  {
    OrShifted(y, h, n);
  }

  /** `|` with a multiple `m` = k * p of p = 2^n passes the low `n` bits of the
      other operand through. */
  lemma OrAbove(lo: int, hi: int, m: int, n: nat, p: int, h: int, k: int)
    requires p == Pow2(n) && 0 <= lo < p && hi == h * p && m == k * p
    ensures Or(lo + hi, m) == lo + Or(hi, m)
  {
    OrBlocks(lo, h, k, n);
    OrBlocks(0, h, k, n);
  }

  /** The powers of two below a byte's width, as literals. */
  lemma Pow2Values()
    ensures Pow2(0) == 1 && Pow2(1) == 2 && Pow2(2) == 4 && Pow2(3) == 8 && Pow2(4) == 16
    ensures Pow2(5) == 32 && Pow2(6) == 64 && Pow2(7) == 128 && Pow2(8) == 256
  {
  }

  /** `x << n` as a product with the literal `p` = 2^n. */
  lemma ShlBy(x: int, n: nat, p: int)
    requires p == Pow2(n)
    ensures Shl(x, n) == p * x
  {
  }

  /** `x & m` for the mask `m` = 2^n - 1 is `x` modulo the literal 2^n. */
  lemma AndShiftedBy(x: int, m: int, n: nat, p: int, mp: int)
    requires p == Pow2(n) && mp == m * p
    ensures And(x, mp) == And(x / p, m) * p
  {
    AndShifted(x, m, n);
  }

  lemma MaskBy(x: int, n: nat, m: int)
    requires m + 1 == Pow2(n)
    ensures And(x, m) == x % (m + 1)
  {
    AndLow(x, n);
  }

  /** Bit `k` of `x` as the parity of its quotient by the literal `p` = 2^k. */
  lemma BitBy(x: int, k: nat, p: int)
    requires p == Pow2(k)
    ensures Bit(x, k) == (x / p) % 2
  {
    BitDiv(x, k);
  }

  /** Bit `k` of `(2 * hi + b) * 2^k + lo` is `b` when `lo` is below 2^k. */
  lemma BitIs(x: int, k: nat, p: int, hi: int, b: int, lo: int)
    requires p == Pow2(k) && 0 <= lo < p && (b == 0 || b == 1) && x == (2 * hi + b) * p + lo
    ensures Bit(x, k) == b
  {
    BitDiv(x, k);
    DivUnique(x, p, 2 * hi + b, lo);
    DivUnique(2 * hi + b, 2, hi, b);
  }

  /** The binary digit of `(2 * hi + b) * p + lo` at the place value `p` is `b`
      when `lo` is below `p`. */
  lemma DigitIs(x: int, p: int, hi: int, b: int, lo: int)
    requires 0 <= lo < p && (b == 0 || b == 1) && x == (2 * hi + b) * p + lo
    ensures x / p % 2 == b
  {
    DivUnique(x, p, 2 * hi + b, lo);
    DivUnique(2 * hi + b, 2, hi, b);
  }
  /** `&` works block by block: the `n` low bits and the bits above them are
      masked separately. */
  lemma {:induction false} AndSplit(x: int, y: int, n: nat)
    ensures And(x, y) == And(x % Pow2(n), y % Pow2(n)) + And(x / Pow2(n), y / Pow2(n)) * Pow2(n)
    decreases n
  {
    if n > 0 {
      var q := Pow2(n - 1);
      AndSplit(x / 2, y / 2, n - 1);
      DivMod2(x, q);
      DivMod2(y, q);
      DivUnique(x % Pow2(n), 2, (x / 2) % q, x % 2);
      DivUnique(y % Pow2(n), 2, (y / 2) % q, y % 2);
      AndStep(x, y);
      AndStep(x % Pow2(n), y % Pow2(n));
      Twice(And(x / Pow2(n), y / Pow2(n)), q);
    }
  }

  /** `|` works block by block, as `&` does. */
  lemma {:induction false} OrSplit(x: int, y: int, n: nat)
    ensures Or(x, y) == Or(x % Pow2(n), y % Pow2(n)) + Or(x / Pow2(n), y / Pow2(n)) * Pow2(n)
    decreases n
  {
    if n > 0 {
      var q := Pow2(n - 1);
      OrSplit(x / 2, y / 2, n - 1);
      DivMod2(x, q);
      DivMod2(y, q);
      DivUnique(x % Pow2(n), 2, (x / 2) % q, x % 2);
      DivUnique(y % Pow2(n), 2, (y / 2) % q, y % 2);
      OrStep(x, y);
      OrStep(x % Pow2(n), y % Pow2(n));
      Twice(Or(x / Pow2(n), y / Pow2(n)), q);
    }
  }

  /** `AndSplit` at the literal block size `p` = 2^n. */
  lemma AndSplitBy(x: int, y: int, n: nat, p: int)
    requires p == Pow2(n)
    ensures And(x, y) == And(x % p, y % p) + And(x / p, y / p) * p
  {
    AndSplit(x, y, n);
  }

  /** `OrSplit` at the literal block size `p` = 2^n. */
  lemma OrSplitBy(x: int, y: int, n: nat, p: int)
    requires p == Pow2(n)
    ensures Or(x, y) == Or(x % p, y % p) + Or(x / p, y / p) * p
  {
    OrSplit(x, y, n);
  }

  /** `x | (2^n - 1)` for `x` below 2^n sets every one of the `n` bits. */
  lemma {:induction false} OrOnes(x: int, n: nat)
    requires 0 <= x < Pow2(n)
    ensures Or(x, Pow2(n) - 1) == Pow2(n) - 1
    decreases n
  {
    if n > 0 {
      var q := Pow2(n - 1);
      DivUnique(Pow2(n) - 1, 2, q - 1, 1);
      OrStep(x, Pow2(n) - 1);
      OrOnes(x / 2, n - 1);
    }
  }
}
