/** A simulated Pinnacle ASIC seen through its register access protocol (RAP):
    32 direct registers, the extended (ERA) memory behind registers 0x1B..0x1E,
    and the trace of register accesses the driver has issued.

    How the chip answers is an assumption, stated here once:
    - writing a command code to register 0x1E runs it at once and leaves 0x1E at 0
      (1: read one byte, 5: read one byte and advance the address,
       2: write one byte, 0x0A: arm an auto-incrementing write; any other code is ignored);
    - while an auto-incrementing write is armed, each poll of 0x1E stores the data
      register at the current address and advances the address;
    - a calibration started through register 7 has finished by the time the
      host first reads register 7, so that read finds bit 0 clear. */
module Sim {
  import opened Bytes

  const STATUS: Reg := 0x02
  const SYS_CONFIG: Reg := 0x03
  const FEED_CONFIG1: Reg := 0x04
  const FEED_CONFIG2: Reg := 0x05
  const FEED_CONFIG3: Reg := 0x06
  const CAL_CONFIG: Reg := 0x07
  const SAMPLE_RATE: Reg := 0x09
  const Z_IDLE: Reg := 0x0A
  const ADC_RESULT: Reg := 0x11
  const PACKET_BYTE_0: Reg := 0x12
  const PACKET_BYTE_1: Reg := 0x13
  const ERA_VALUE: Reg := 0x1B
  const ERA_HIGH: Reg := 0x1C
  const ERA_LOW: Reg := 0x1D
  const ERA_CONTROL: Reg := 0x1E
  const HW_CONFIG: Reg := 0x1F

  const ERA_READ: Byte := 0x01
  const ERA_READ_SEQ: Byte := 0x05
  const ERA_WRITE: Byte := 0x02
  const ERA_WRITE_SEQ: Byte := 0x0A

  /** One register access on the bus. */
  datatype Access = Read(reg: int) | Write(reg: int, value: Byte)

  datatype Chip = Chip(regs: seq<Byte>, ext: map<ExtAddr, Byte>, seqWrite: bool, trace: seq<Access>)
  {
    predicate Valid() {
      |regs| == 32
    }

    /** The byte at an extended address; memory never written reads as 0. */
    function Ext(a: ExtAddr): Byte {
      Get(ext, a)
    }

    /** The extended address the ERA address registers point at. */
    function Address(): ExtAddr
      requires Valid()
    {
      Join(regs[ERA_HIGH], regs[ERA_LOW])
    }
  }

  /** The byte a memory map holds at `a`; memory never written reads as 0. */
  function Get(m: map<ExtAddr, Byte>, a: ExtAddr): Byte {
    if a in m then m[a] else 0
  }

  /** The register file after the address registers are moved to `a`. */
  function PointAt(regs: seq<Byte>, a: ExtAddr): (r: seq<Byte>)
    requires |regs| == 32
    ensures |r| == 32
    ensures Join(r[ERA_HIGH], r[ERA_LOW]) == a
    ensures r[FEED_CONFIG1] == regs[FEED_CONFIG1]
  {
    JoinSplit(a);
    regs[ERA_HIGH := Hi(a)][ERA_LOW := Lo(a)]
  }

  /** Moving the address registers changes no other register. */
  lemma PointAtKeeps(regs: seq<Byte>, a: ExtAddr, i: int)
    requires |regs| == 32 && 0 <= i < 32 && i != ERA_HIGH && i != ERA_LOW
    ensures PointAt(regs, a)[i] == regs[i]
  {
  }

  /** The chip running an ERA command code written to register 0x1E. */
  function Exec(c: Chip, cmd: Byte): (c': Chip)
    requires c.Valid()
    ensures c'.Valid() && c'.trace == c.trace && c'.regs[ERA_CONTROL] == 0
    ensures c'.seqWrite == (cmd == ERA_WRITE_SEQ)
  {
    var a := c.Address();
    if cmd == ERA_READ then
      c.(regs := c.regs[ERA_VALUE := c.Ext(a)][ERA_CONTROL := 0], seqWrite := false)
    else if cmd == ERA_READ_SEQ then
      c.(regs := PointAt(c.regs, Next(a))[ERA_VALUE := c.Ext(a)][ERA_CONTROL := 0], seqWrite := false)
    else if cmd == ERA_WRITE then
      c.(regs := c.regs[ERA_CONTROL := 0], ext := c.ext[a := c.regs[ERA_VALUE]], seqWrite := false)
    else if cmd == ERA_WRITE_SEQ then
      c.(regs := c.regs[ERA_CONTROL := 0], seqWrite := true)
    else
      c.(regs := c.regs[ERA_CONTROL := 0], seqWrite := false)
  }

  /** `_rap_read(reg)`: one register read. */
  function ReadReg(c: Chip, r: Reg): (res: (Chip, Byte))
    requires c.Valid()
    ensures res.0.Valid()
    ensures res.0.trace == c.trace + [Read(r)]
    ensures r != ERA_CONTROL && r != CAL_CONFIG ==> res.0 == c.(trace := res.0.trace) && res.1 == c.regs[r]
    ensures r == ERA_CONTROL && !c.seqWrite ==> res.0 == c.(trace := res.0.trace) && res.1 == c.regs[r]
    ensures r == ERA_CONTROL && c.seqWrite ==> res.1 == 0
    ensures r == CAL_CONFIG ==> res.1 % 2 == 0 && res.1 / 2 == c.regs[r] / 2
    ensures r == CAL_CONFIG ==> res.0 == c.(regs := c.regs[r := res.1], trace := res.0.trace)
  {
    var c1 := c.(trace := c.trace + [Read(r)]);
    if r == ERA_CONTROL && c.seqWrite then
      var a := c.Address();
      (c1.(regs := PointAt(c.regs, Next(a)), ext := c.ext[a := c.regs[ERA_VALUE]]), 0)
    else if r == CAL_CONFIG then
      var v := c.regs[r] - c.regs[r] % 2;
      (c1.(regs := c.regs[r := v]), v)
    else
      (c1, c.regs[r])
  }

  /** `_rap_write(reg, value)`: one register write. */
  function WriteReg(c: Chip, r: Reg, v: Byte): (c': Chip)
    requires c.Valid()
    ensures c'.Valid()
    ensures c'.trace == c.trace + [Write(r, v)]
    ensures r != ERA_CONTROL ==> c' == c.(regs := c.regs[r := v], trace := c'.trace)
  {
    var c1 := c.(trace := c.trace + [Write(r, v)]);
    if r == ERA_CONTROL then Exec(c1, v) else c1.(regs := c.regs[r := v])
  }

  /** The accesses of a block read of `n` registers from `r` on. */
  function ReadEvents(r: int, n: nat): (t: seq<Access>)
    ensures |t| == n
    ensures forall i :: 0 <= i < n ==> t[i] == Read(r + i)
  {
    seq(n, i => Read(r + i))
  }

  /** The accesses of a block write of `vs` from register `r` on. */
  function WriteEvents(r: int, vs: seq<Byte>): (t: seq<Access>)
    ensures |t| == |vs|
    ensures forall i :: 0 <= i < |vs| ==> t[i] == Write(r + i, vs[i])
  {
    seq(|vs|, i requires 0 <= i < |vs| => Write(r + i, vs[i]))
  }

  /** `_rap_read_bytes(reg, n)`: the chip auto-increments the register for each byte. */
  method ReadRegs(c: Chip, r: Reg, n: nat) returns (c': Chip, vs: seq<Byte>)
    requires c.Valid() && r + n <= 32
    requires !(r <= CAL_CONFIG < r + n) && !(r <= ERA_CONTROL < r + n)
    ensures c' == c.(trace := c.trace + ReadEvents(r, n))
    ensures vs == c.regs[r..r + n]
  {
    c', vs := c, [];
    var i := 0;
    while i < n
      invariant 0 <= i <= n
      invariant c' == c.(trace := c.trace + ReadEvents(r, i))
      invariant vs == c.regs[r..r + i]
    {
      var (c1, v) := ReadReg(c', r + i);
      c' := c1;
      assert ReadEvents(r, i + 1) == ReadEvents(r, i) + [Read(r + i)];
      vs := vs + [v];
      i := i + 1;
    }
  }

  /** Concatenation of traces is associative. */
  lemma Assoc(s: seq<Access>, t: seq<Access>, u: seq<Access>)
    ensures (s + t) + u == s + (t + u)
  {
  }

  /** One more value of a block write, spliced into the register file. */
  lemma SpliceStep(regs: seq<Byte>, r: nat, vs: seq<Byte>, i: nat)
    requires r + |vs| <= |regs| && i < |vs|
    ensures (regs[..r] + vs[..i] + regs[r + i..])[r + i := vs[i]] == regs[..r] + vs[..i + 1] + regs[r + i + 1..]
  {
  }

  /** One more write event of a block write. */
  lemma WriteEventsStep(r: int, vs: seq<Byte>, i: nat)
    requires i < |vs|
    ensures WriteEvents(r, vs[..i + 1]) == WriteEvents(r, vs[..i]) + [Write(r + i, vs[i])]
  {
  }

  /** `_rap_write_bytes(reg, values)`: the values land in consecutive registers. */
  method WriteRegs(c: Chip, r: Reg, vs: seq<Byte>) returns (c': Chip)
    requires c.Valid() && r + |vs| <= 32
    requires !(r <= ERA_CONTROL < r + |vs|)
    ensures c' == c.(regs := c.regs[..r] + vs + c.regs[r + |vs|..], trace := c.trace + WriteEvents(r, vs))
  {
    c' := c;
    var i := 0;
    while i < |vs|
      invariant 0 <= i <= |vs|
      invariant c' == c.(regs := c.regs[..r] + vs[..i] + c.regs[r + i..], trace := c.trace + WriteEvents(r, vs[..i]))
    {
      SpliceStep(c.regs, r, vs, i);
      WriteEventsStep(r, vs, i);
      Assoc(c.trace, WriteEvents(r, vs[..i]), [Write(r + i, vs[i])]);
      c' := WriteReg(c', r + i, vs[i]);
      i := i + 1;
    }
    assert vs[..i] == vs;
  }
}
