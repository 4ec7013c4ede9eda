/** Bytes, register and extended-memory addresses, and the Python integer idioms
    the driver relies on. */
module Bytes {
  import opened Bits

  /** A byte on the bus or in a register, as the unsigned int Python reads back. */
  type Byte = x: int | 0 <= x < 256

  /** A direct (RAP) register address: the chip has 32 of them. */
  type Reg = r: int | 0 <= r < 32

  /** An extended (ERA) memory address: 16 bits, sent high byte first. */
  type ExtAddr = a: int | 0 <= a < 0x1_0000

  /** The address after `a`; the chip's auto-increment wraps at 16 bits. */
  function Next(a: ExtAddr): (b: ExtAddr)
    ensures a < 0xFFFF ==> b == a + 1
    ensures a == 0xFFFF ==> b == 0
  {
    (a + 1) % 0x1_0000
  }

  /** High byte of an extended address, `reg >> 8`, as written to register 0x1C. */
  function Hi(a: ExtAddr): (b: Byte)
    ensures b * 256 <= a < b * 256 + 256
  {
    a / 256
  }

  /** Low byte of an extended address, `reg & 0xFF`, as written to register 0x1D. */
  function Lo(a: ExtAddr): (b: Byte)
    ensures (a - b) % 256 == 0
  {
    a % 256
  }

  /** The extended address held in a high/low register pair. */
  function Join(hi: Byte, lo: Byte): (a: ExtAddr)
    ensures Hi(a) == hi && Lo(a) == lo
  {
    hi * 256 + lo
  }

  /** Splitting an address into its two register bytes and joining them again
      gives the address back. */
  lemma JoinSplit(a: ExtAddr)
    ensures Join(Hi(a), Lo(a)) == a
  {
  }

  /** `Hi` and `Lo` are the driver's `reg >> 8` and `reg & 0xFF`. */
  lemma AddressBytes(a: ExtAddr)
    ensures Hi(a) == Shr(a, 8) && Lo(a) == And(a, 0xFF)
  {
    AndLow(a, 8);
  }

  /** Python's `x & 0xFF`, which the I2C transport applies to every value it
      sends: the low byte of the two's complement. */
  function LowByte(x: int): (b: Byte)
    ensures b == And(x, 0xFF)
    ensures 0 <= x < 256 ==> b == x
  {
    AndLow(x, 8);
    x % 256
  }

  /** Python's `min(a, b)`. */
  function Min(a: int, b: int): int {
    if b < a then b else a
  }

  /** Python's `max(a, b)`. */
  function Max(a: int, b: int): int {
    if a < b then b else a
  }

  /** Python's `max(lo, min(x, hi))`: `x` clamped into `[lo, hi]`. */
  function Clamp(x: int, lo: int, hi: int): (r: int)
    requires lo <= hi
    ensures lo <= r <= hi
    ensures lo <= x <= hi ==> r == x
    ensures x < lo ==> r == lo
    ensures hi < x ==> r == hi
  {
    Max(lo, Min(x, hi))
  }
}
