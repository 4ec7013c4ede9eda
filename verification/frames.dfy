/** The register access protocol (RAP) as bytes on the two transports the
    driver supports, SPI and I2C. Every direct-register access of the chip model
    (`Sim.Access`) is one of these exchanges; the decoders read the accesses
    back out of the bytes, and the lemmas say that the frames the driver builds
    encode exactly the accesses the chip model records. */
module Frames {
  import opened Bits
  import opened Bytes
  import opened Wrappers
  import opened Exceptions
  import opened Sim

  /** Filler clocked out while the chip answers an SPI read. */
  const FILL_READ: Byte := 0xFB
  /** Filler that keeps an SPI block read auto-incrementing. */
  const FILL_AUTO: Byte := 0xFC

  /** `reg | 0xA0`: the command byte of a read. */
  function ReadCommand(r: Reg): (b: Byte)
    ensures b == 0xA0 + r
  {
    assert Pow2(5) == 32;
    OrShifted(r, 5, 5);
    Or(r, 0xA0)
  }

  /** `reg | 0x80`: the command byte of a write. */
  function WriteCommand(r: Reg): (b: Byte)
    ensures b == 0x80 + r
  {
    assert Pow2(5) == 32;
    OrShifted(r, 4, 5);
    Or(r, 0x80)
  }

  /** What a command byte asks of the chip. */
  datatype Command = ReadCmd(reg: Reg) | WriteCmd(reg: Reg)

  /** A command byte read back from its bits: the top three bits say read
      (`101`) or write (`100`), the low five name the register. */
  function DecodeCommand(b: Byte): Option<Command> {
    if b / 32 == 5 then Some(ReadCmd(b % 32))
    else if b / 32 == 4 then Some(WriteCmd(b % 32))
    else None
  }

  /** Each command byte decodes to the access it was built for, and its low five
      bits (`cmd & 0x1F`) are the register. */
  lemma CommandRoundTrip(r: Reg)
    ensures DecodeCommand(ReadCommand(r)) == Some(ReadCmd(r))
    ensures DecodeCommand(WriteCommand(r)) == Some(WriteCmd(r))
    ensures And(ReadCommand(r), 0x1F) == r && And(WriteCommand(r), 0x1F) == r
  {
    assert Pow2(5) == 32;
    AndLow(ReadCommand(r), 5);
    AndLow(WriteCommand(r), 5);
  }

  /** The other direction: a byte that decodes to a command is that command's byte. */
  lemma CommandUnique(b: Byte)
    ensures DecodeCommand(b) == Some(ReadCmd(b % 32)) ==> b == ReadCommand(b % 32)
    ensures DecodeCommand(b) == Some(WriteCmd(b % 32)) ==> b == WriteCommand(b % 32)
    ensures DecodeCommand(b).Some? ==> DecodeCommand(b).value.reg == b % 32
  {
  }

  // ---------------------------------------------------------------------------
  // SPI

  /** `_rap_read(reg)` over SPI: the command and three fillers; the value is the
      fourth byte clocked in. */
  function SpiReadFrame(r: Reg): (tx: seq<Byte>)
    ensures |tx| == 4 && DecodeCommand(tx[0]) == Some(ReadCmd(r))
    ensures forall i :: 1 <= i < 4 ==> tx[i] == FILL_READ
  {
    CommandRoundTrip(r);
    [ReadCommand(r), FILL_READ, FILL_READ, FILL_READ]
  }

  /** `_rap_read_bytes(reg, n)` over SPI: the command, `n + 1` auto-increment
      fillers and a closing filler. */
  function SpiBlockReadFrame(r: Reg, n: nat): (tx: seq<Byte>)
    ensures |tx| == n + 3 && DecodeCommand(tx[0]) == Some(ReadCmd(r))
    ensures forall i :: 1 <= i < n + 2 ==> tx[i] == FILL_AUTO
    ensures tx[n + 2] == FILL_READ
  {
    CommandRoundTrip(r);
    [ReadCommand(r)] + seq(n + 1, _ => FILL_AUTO) + [FILL_READ]
  }

  /** What the chip clocks back during an SPI read of `n` registers from `r`
      (an assumption about the chip, as in `Sim`): three bytes while it takes
      the command in, then the registers in order. */
  function SpiAnswer(regs: seq<Byte>, r: Reg, n: nat, lead: seq<Byte>): seq<Byte>
    requires |regs| == 32 && r + n <= 32 && |lead| == 3
  {
    lead + regs[r..r + n]
  }

  /** `buf_in[3:]`: what the host keeps of an SPI block read. */
  function SpiPayload(rx: seq<Byte>): seq<Byte>
    requires |rx| >= 3
  {
    rx[3..]
  }

  /** The host keeps exactly the `n` registers it asked for, from an answer as
      long as its request; a single read's `buf_in[3]` is the register. */
  lemma SpiReadsRegisters(regs: seq<Byte>, r: Reg, n: nat, lead: seq<Byte>)
    requires |regs| == 32 && r + n <= 32 && |lead| == 3
    ensures |SpiAnswer(regs, r, n, lead)| == |SpiBlockReadFrame(r, n)|
    ensures SpiPayload(SpiAnswer(regs, r, n, lead)) == regs[r..r + n]
    ensures n == 1 ==> |SpiAnswer(regs, r, 1, lead)| == |SpiReadFrame(r)|
                       && SpiAnswer(regs, r, 1, lead)[3] == regs[r]
  {
  }

  /** `_rap_write(reg, value)` over SPI: `bytes([reg | 0x80, value])`, which
      raises ValueError for a value outside 0..255. */
  function SpiWriteFrame(r: Reg, v: int): (res: Result<seq<Byte>, Exception>)
    ensures res.Success? <==> 0 <= v < 256
    ensures res.Success? ==> |res.value| == 2 && DecodeWrite(res.value[0], res.value[1]) == Some(Write(r, v))
    ensures res.Failure? ==> res.error == ValueError
  {
    if 0 <= v < 256 then
      CommandRoundTrip(r);
      Success([WriteCommand(r), v])
    else
      Failure(ValueError)
  }

  /** A (command, value) pair read back as a register write. */
  function DecodeWrite(cmd: Byte, v: Byte): Option<Access> {
    match DecodeCommand(cmd)
    case Some(WriteCmd(reg)) => Some(Write(reg, v))
    case _ => None
  }

  /** How far a list of values is all bytes: the index of the first value
      outside 0..255, or its length. */
  function ByteRun(vs: seq<int>): (k: nat)
    ensures k <= |vs|
    ensures forall i :: 0 <= i < k ==> 0 <= vs[i] < 256
    ensures k < |vs| ==> !(0 <= vs[k] < 256)
  {
    if |vs| == 0 || !(0 <= vs[0] < 256) then 0 else 1 + ByteRun(vs[1..])
  }

  /** `_rap_write_bytes(reg, values)` over SPI: one `_rap_write` per value; the
      frames sent before a value outside 0..255 stay sent when it raises. */
  function SpiWriteFrames(r: nat, vs: seq<int>): (s: (seq<seq<Byte>>, Option<Exception>))
    requires r + |vs| <= 32
    ensures |s.0| == ByteRun(vs)
    ensures s.1 == None <==> ByteRun(vs) == |vs|
    ensures s.1 != None ==> s.1 == Some(ValueError)
    ensures forall i :: 0 <= i < |s.0| ==> |s.0[i]| == 2 && DecodeWrite(s.0[i][0], s.0[i][1]) == Some(Write(r + i, vs[i]))
    decreases |vs|
  {
    if |vs| == 0 then ([], None)
    else
      match SpiWriteFrame(r, vs[0])
      case Failure(e) => ([], Some(e))
      case Success(f) =>
        var rest := SpiWriteFrames(r + 1, vs[1..]);
        ([f] + rest.0, rest.1)
  }

  // ---------------------------------------------------------------------------
  // I2C

  /** `_rap_read_bytes(reg, n)` over I2C: the host writes the command byte,
      then reads the `n` register bytes as they come. */
  function I2cReadRequest(r: Reg): (tx: seq<Byte>)
    ensures |tx| == 1 && DecodeCommand(tx[0]) == Some(ReadCmd(r))
  {
    CommandRoundTrip(r);
    [ReadCommand(r)]
  }

  /** `_rap_write_bytes(reg, values)` over I2C: a single frame of (register,
      value) pairs, each value cut to its low byte by `& 0xFF`. The chip does
      not auto-increment I2C writes, so every value names its register. */
  function I2cWriteFrame(r: nat, vs: seq<int>): (f: seq<Byte>)
    requires r + |vs| <= 32
    ensures |f| == 2 * |vs|
    ensures forall i :: 0 <= i < |vs| ==> f[2 * i] == WriteCommand(r + i) && f[2 * i + 1] == LowByte(vs[i])
    decreases |vs|
  {
    if |vs| == 0 then []
    else [WriteCommand(r), LowByte(vs[0])] + I2cWriteFrame(r + 1, vs[1..])
  }

  /** A run of (command, value) pairs read back as register writes. */
  function DecodeWrites(f: seq<Byte>): Option<seq<Access>>
    decreases |f|
  {
    if |f| == 0 then Some([])
    else if |f| == 1 then None
    else
      match DecodeWrite(f[0], f[1])
      case None => None
      case Some(w) =>
        match DecodeWrites(f[2..])
        case None => None
        case Some(ws) => Some([w] + ws)
  }

  /** Every value cut to its low byte, as the I2C transport sends it. */
  function LowBytes(vs: seq<int>): (bs: seq<Byte>)
    ensures |bs| == |vs| && forall i :: 0 <= i < |vs| ==> bs[i] == LowByte(vs[i])
  {
    seq(|vs|, i requires 0 <= i < |vs| => LowByte(vs[i]))
  }

  /** An I2C write frame decodes to the block write the chip model records, of
      the values cut to bytes. */
  lemma {:induction false} I2cWriteDecodes(r: nat, vs: seq<int>)
    requires r + |vs| <= 32
    ensures DecodeWrites(I2cWriteFrame(r, vs)) == Some(WriteEvents(r, LowBytes(vs)))
    decreases |vs|
  {
    if |vs| > 0 {
      var bs := LowBytes(vs);
      I2cWriteDecodes(r + 1, vs[1..]);
      assert LowBytes(vs[1..]) == bs[1..];
      DecodePair(r, bs[0], I2cWriteFrame(r + 1, vs[1..]), WriteEvents(r + 1, bs[1..]));
      WriteEventsCons(r, bs);
    }
  }

  /** A write command and its value in front of a decodable run add one
      register write in front of its decoding. */
  lemma DecodePair(r: Reg, b: Byte, rest: seq<Byte>, ws: seq<Access>)
    requires DecodeWrites(rest) == Some(ws)
    ensures DecodeWrites([WriteCommand(r), b] + rest) == Some([Write(r, b)] + ws)
  {
    CommandRoundTrip(r);
    assert ([WriteCommand(r), b] + rest)[2..] == rest;
  }

  /** A block write is its first register write followed by the rest. */
  lemma WriteEventsCons(r: int, bs: seq<Byte>)
    requires |bs| > 0
    ensures WriteEvents(r, bs) == [Write(r, bs[0])] + WriteEvents(r + 1, bs[1..])
  {
  }

  /** All frames of a list, one after the other. */
  function Concat(fs: seq<seq<Byte>>): seq<Byte>
    decreases |fs|
  {
    if |fs| == 0 then [] else fs[0] + Concat(fs[1..])
  }

  /** The two transports agree: when every value is a byte, the SPI writes,
      back to back, are the very bytes of the I2C frame, so both encode the same
      register writes. */
  lemma {:induction false} TransportsAgree(r: nat, vs: seq<int>)
    requires r + |vs| <= 32
    requires forall i :: 0 <= i < |vs| ==> 0 <= vs[i] < 256
    ensures SpiWriteFrames(r, vs).1 == None
    ensures Concat(SpiWriteFrames(r, vs).0) == I2cWriteFrame(r, vs)
    ensures DecodeWrites(Concat(SpiWriteFrames(r, vs).0)) == Some(WriteEvents(r, vs))
    decreases |vs|
  {
    if |vs| > 0 {
      TransportsAgree(r + 1, vs[1..]);
      var fs := SpiWriteFrames(r, vs).0;
      assert fs[1..] == SpiWriteFrames(r + 1, vs[1..]).0;
    }
    I2cWriteDecodes(r, vs);
    assert LowBytes(vs) == vs;
  }

  // ---------------------------------------------------------------------------
  // What `_rap_read` returns

  /** A Python value the register layer hands back: an int, or a buffer. */
  datatype PyValue = PyInt(i: int) | PyBuffer(bytes: seq<Byte>)

  /** Python's `v & m` for an int mask: an int operand is masked, a buffer
      operand raises TypeError. */
  function PyAnd(v: PyValue, m: int): (r: Result<int, Exception>)
    ensures r.Success? <==> v.PyInt?
    ensures r.Failure? ==> r.error == TypeError
  {
    match v
    case PyInt(i) => Success(And(i, m))
    case PyBuffer(_) => Failure(TypeError)
  }

  /** `_rap_read(reg)` over I2C in the current driver: `_rap_read_bytes(reg, 1)[0]`,
      the int that was clocked in. */
  function I2cRapRead(answer: seq<Byte>): (v: PyValue)
    requires |answer| == 1
    ensures v.PyInt? && v.i == answer[0]
  {
    PyInt(answer[0])
  }

  /** `_rap_read(reg)` over I2C in the lite driver (`_rap_read_bytes(reg, 1)`)
      and in the legacy driver (`_rap_read_bytes(reg)`, one byte by default):
      the one-byte buffer itself. */
  function BufferI2cRapRead(answer: seq<Byte>): (v: PyValue)
    requires |answer| == 1
    ensures v.PyBuffer? && v.bytes == answer
  {
    PyBuffer(answer)
  }

  /** The `feed_enable` getter of the lite and legacy drivers over I2C,
      `bool(self._rap_read(4) & 1)`, raises TypeError whatever the chip
      answers; with the current driver's `_rap_read` it reads bit 0 of the
      register. */
  lemma FeedGetterOverI2c(answer: seq<Byte>)
    requires |answer| == 1
    ensures PyAnd(BufferI2cRapRead(answer), 1) == Failure(TypeError)
    ensures PyAnd(I2cRapRead(answer), 1) == Success(answer[0] % 2)
  {
    AndLow(answer[0], 1);
  }
}
