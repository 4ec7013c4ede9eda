# Cirque Pinnacle touch-controller driver, modelled in Dafny

This project models the host side of the CircuitPython driver for Cirque's
Pinnacle ASIC (the GlidePoint trackpad controller). It covers three drivers:

- the current driver `PinnacleTouch` in `circuitpython_cirque_pinnacle/glidepoint.py`;
- the legacy single-file driver `circuitpython_cirque_pinnacle.py`;
- the reduced `glidepoint_lite.py`.

The driver talks to the chip through its register access protocol (RAP).
This gives 32 one-byte registers. Behind registers 0x1B..0x1E sits the
extended register access (ERA) memory, a 16-bit address space.

The model has two halves:

- **A simulated chip** (`Sim`). It holds the register file, the extended
  memory (never-written bytes read as 0), an armed auto-increment write, and
  the trace of every register access the driver makes. Its answers rest on
  three stated assumptions:
  - an ERA command written to 0x1E runs at once;
  - each poll of 0x1E during an armed sequential write stores one byte;
  - a calibration started through register 7 has finished by the time
    register 7 is first read back.
- **Each driver operation as a Dafny method over that chip.** It has the same
  branches, constants, error conditions and order of register accesses as
  the Python code. Contracts state:
  - what ends up in the registers and in extended memory;
  - which accesses appear on the bus;
  - which exception is raised, and when.

Python ints are unbounded `int`s. A byte is `Bytes.Byte`, an int in
0..255. Python's `&`, `|`, `<<` and `>>` on ints are the functions
`Bits.And`, `Bits.Or`, `Bits.Shl` and `Bits.Shr`, defined bit by bit. A
value the driver writes to a register is cut to its low byte, as the I2C
transport's `& 0xFF` does. Exceptions are values of `Exceptions.Exception`
returned beside the result.

Modules, in dependency order:

| Module | Contents |
|---|---|
| `Wrappers`, `Exceptions` | option/result types and Python exception kinds |
| `Bits` | integer bit operations |
| `Bytes` | bytes, 16-bit addresses, clamps |
| `Sim` | the chip: RAP register reads and writes, block transfers |
| `Era` | the feed-enable bit, status clearing, the four ERA transactions; the proof that each leaves the feed state as it found it and issues its commands with the feed off |
| `Config` | the register encodings: Relative and Absolute options, finger/stylus bits, ADC gain, calibration options, sample-rate tables, AnyMeas flags of register 3 |
| `Reports` | decoding of Absolute and Relative packets, current and legacy |
| `AnyMeas` | AnyMeas configuration bytes and toggle/polarity vectors |
| `Frames` | the bytes of the SPI and I2C transports |
| `Matrix` | the 46-short calibration matrix in extended memory |
| `Glidepoint` | the current driver |
| `Legacy` | the legacy driver, where it differs from the current one |
| `Lite` | the lite driver, where it differs from the current one |

Every operation is paired with:

- an inverse (pack/unpack, encode/decode, write/read back);
- an invariant it keeps (feed state, untouched registers, untouched memory);
- or another driver's version of the same operation.

Lemmas or agreement methods connect the pairs.

## Model

| member | source | states |
|---|---|---|
| Sim.ReadReg | circuitpython_cirque_pinnacle/glidepoint.py:856-861 | one register read: returns the register's byte and appends one read to the trace; polling 0x1E during a sequential write stores a byte and reads 0; reading register 7 finds the calibration bit clear |
| Sim.WriteReg | circuitpython_cirque_pinnacle/glidepoint.py:871-874 | one register write: only the target register changes, unless the target is 0x1E, which runs the ERA command |
| Sim.ReadRegs | circuitpython_cirque_pinnacle/glidepoint.py:863-869 | a block read of n registers returns exactly registers r..r+n and leaves the chip unchanged apart from n reads in the trace |
| Sim.WriteRegs | circuitpython_cirque_pinnacle/glidepoint.py:876-878 | a block write puts each value in the next register, one write event per value, and changes no register outside the block |
| Sim.Exec | circuitpython_cirque_pinnacle/glidepoint.py:738-741 | the chip's ERA command: 0x1E reads back 0, and only command 0x0A arms a sequential write |
| Sim.PointAt | circuitpython_cirque_pinnacle/glidepoint.py:737 | moving the ERA address registers makes them spell the new address and keeps register 4 |
| Era.WithFeed | circuitpython_cirque_pinnacle/glidepoint.py:90-96 | the new register 4 has bit 0 equal to the requested feed state and the other seven bits unchanged; it is the old byte when bit 0 already agreed |
| Era.WithFeedMask | circuitpython_cirque_pinnacle/glidepoint.py:95 | the driver's `(x & 0xFE) \| on` computes `WithFeed` |
| Era.FeedEnabled | circuitpython_cirque_pinnacle/glidepoint.py:78-88 | the feed getter reads register 4 once and reports its bit 0 |
| Era.SetFeedEnable | circuitpython_cirque_pinnacle/glidepoint.py:90-96 | the feed setter changes only bit 0 of register 4, and writes register 4 only when the bit differs from the requested state |
| Era.ClearStatusFlags | circuitpython_cirque_pinnacle/glidepoint.py:335-339 | clearing the status flags zeroes register 2 with one write and changes nothing else |
| Era.AwaitIdle | circuitpython_cirque_pinnacle/glidepoint.py:739-740 | one poll of 0x1E; with no sequential write armed it changes nothing but the trace |
| Era.EraRegs | circuitpython_cirque_pinnacle/glidepoint.py:734-744 | after an ERA transaction the address registers hold the address used and register 4 is unchanged |
| Era.EraRegsKeeps | circuitpython_cirque_pinnacle/glidepoint.py:734-769 | an ERA transaction touches only registers 2, 0x1B..0x1E |
| Era.EraRegsTwice | circuitpython_cirque_pinnacle/glidepoint.py:760-769 | two ERA transactions in a row leave the registers as the second alone would |
| Era.Stepped | circuitpython_cirque_pinnacle/glidepoint.py:771-782 | after a sequential write the address registers hold the address one past the last byte, and register 4 is kept |
| Era.SteppedTwice | circuitpython_cirque_pinnacle/glidepoint.py:778-781 | stepping the address twice is the same as stepping it once to the later address |
| Era.QuietAppend | circuitpython_cirque_pinnacle/glidepoint.py:734-782 | traces without writes to register 4 stay so when concatenated |
| Era.FeedAfter | circuitpython_cirque_pinnacle/glidepoint.py:734-782 | replaying a trace without register-4 writes leaves the feed register as it was |
| Era.FeedAppend | circuitpython_cirque_pinnacle/glidepoint.py:734-782 | the feed state after two traces is the state after the second started from the first's; the feed is off at every command of both exactly when it is off at every command of each |
| Era.QuietStretch | circuitpython_cirque_pinnacle/glidepoint.py:739-740 | a stretch with no register-4 writes keeps the feed state, and an off feed stays off at its commands |
| Era.CommandFree | circuitpython_cirque_pinnacle/glidepoint.py:734-744 | a stretch with no ERA commands trivially has the feed off at each of them |
| Era.Single | circuitpython_cirque_pinnacle/glidepoint.py:734-744 | the feed replay of a single access, and when it counts as a command issued with the feed off |
| Era.SaveFeedOff | circuitpython_cirque_pinnacle/glidepoint.py:735-736 | the save prologue of every ERA transaction turns the feed off, whatever it was |
| Era.RestoreFeedOn | circuitpython_cirque_pinnacle/glidepoint.py:743 | the restore epilogue puts register 4 back to its saved value |
| Era.Bracket | circuitpython_cirque_pinnacle/glidepoint.py:734-744 | a transaction bracketed by save and restore issues every ERA command with the feed off and ends with register 4 as it started |
| Era.BracketKept | circuitpython_cirque_pinnacle/glidepoint.py:734-744 | the same fact stated about chips: a bracketed transaction keeps the feed discipline |
| Era.RoundsKept | circuitpython_cirque_pinnacle/glidepoint.py:746-758 | repeating a quiet round n times inside the bracket keeps the feed discipline |
| Era.PauseFeed | circuitpython_cirque_pinnacle/glidepoint.py:735-736 | the prologue reports the previous feed state and leaves the feed off |
| Era.ResumeFeed | circuitpython_cirque_pinnacle/glidepoint.py:743 | the epilogue restores register 4 to the saved byte |
| Era.PointTo | circuitpython_cirque_pinnacle/glidepoint.py:737 | `[reg >> 8, reg & 0xFF]` written to 0x1C..0x1D points the chip at `reg` |
| Era.Command | circuitpython_cirque_pinnacle/glidepoint.py:738-740 | writing a command and polling until 0x1E reads 0 runs that command once, with a read command advancing the address |
| Era.EraRead | circuitpython_cirque_pinnacle/glidepoint.py:734-744 | `_era_read(a)` returns the byte at `a`, leaves memory unchanged, and keeps the feed discipline |
| Era.EraWrite | circuitpython_cirque_pinnacle/glidepoint.py:760-769 | `_era_write(a, v)` changes exactly the byte at `a` to `v` and keeps the feed discipline |
| Era.Rounds | circuitpython_cirque_pinnacle/glidepoint.py:751-756 | repeating a round without register-4 writes yields a trace without them |
| Era.OffsetMod | circuitpython_cirque_pinnacle/glidepoint.py:751-756 | advancing a 16-bit address i times is addition modulo 0x10000 |
| Era.OffsetBelow | circuitpython_cirque_pinnacle/glidepoint.py:751-756 | without wrap-around, advancing i times is plain addition |
| Era.ExtWindow | circuitpython_cirque_pinnacle/glidepoint.py:746-758 | the window of n bytes starting at an address has length n |
| Era.WindowAt | circuitpython_cirque_pinnacle/glidepoint.py:746-758 | byte i of the window is the memory byte at the i-th successor of the start |
| Era.ReadStep | circuitpython_cirque_pinnacle/glidepoint.py:752-756 | one round of a sequential read returns the byte at the current address and advances the address by one |
| Era.ReadLoop | circuitpython_cirque_pinnacle/glidepoint.py:751-756 | n rounds return the n-byte window at the start address and leave the address n bytes on |
| Era.ReadNext | circuitpython_cirque_pinnacle/glidepoint.py:751-756 | extending i completed rounds by one more yields the (i+1)-byte window |
| Era.ArmRead | circuitpython_cirque_pinnacle/glidepoint.py:748-750 | the set-up of a sequential read points at the address with the feed off |
| Era.ReadBytesRegs | circuitpython_cirque_pinnacle/glidepoint.py:757 | restoring register 4 undoes the prologue's change to it |
| Era.EraReadBytes | circuitpython_cirque_pinnacle/glidepoint.py:746-758 | `_era_read_bytes(a, n)` returns the n bytes of memory from `a` on (wrapping at 0x10000), changes no memory and keeps the feed discipline |
| Era.Distance | circuitpython_cirque_pinnacle/glidepoint.py:771-782 | the forward distance from one 16-bit address to another, modulo 0x10000 |
| Era.OffsetDistance | circuitpython_cirque_pinnacle/glidepoint.py:771-782 | the distance to the k-th successor is k modulo 0x10000 |
| Era.FillAt | circuitpython_cirque_pinnacle/glidepoint.py:771-782 | after filling n bytes from `a`, an address holds the value exactly when it is fewer than n steps from `a`, and otherwise keeps its old byte |
| Era.WriteStep | circuitpython_cirque_pinnacle/glidepoint.py:779-781 | one poll of an armed sequential write stores the value byte at the address and advances it |
| Era.WriteLoop | circuitpython_cirque_pinnacle/glidepoint.py:778-781 | n polls fill n consecutive bytes with the value |
| Era.WriteNext | circuitpython_cirque_pinnacle/glidepoint.py:778-781 | i completed polls plus one more fill i+1 bytes |
| Era.ArmWrite | circuitpython_cirque_pinnacle/glidepoint.py:773-777 | the set-up of a sequential write: feed off, value in 0x1B, address set, command 0x0A armed |
| Era.WriteBytesRegs | circuitpython_cirque_pinnacle/glidepoint.py:782 | restoring register 4 undoes the prologue's change to it |
| Era.EraWriteBytes | circuitpython_cirque_pinnacle/glidepoint.py:771-782 | `_era_write_bytes(a, v, n)` fills the n bytes from `a` with `v`, leaves every other byte alone, and keeps the feed discipline |
| Era.WriteThenRead | circuitpython_cirque_pinnacle/glidepoint.py:734-769 | reading an address right after writing it returns the written byte; no other address changes |
| Era.ReadExt | circuitpython_cirque_pinnacle/glidepoint.py:734-744 | an ERA read returns the stored byte, changes no memory and keeps the feed discipline |
| Era.WriteExt | circuitpython_cirque_pinnacle/glidepoint.py:760-769 | an ERA write changes one byte and keeps the feed discipline |
| Era.WriteExtTwice | circuitpython_cirque_pinnacle/glidepoint.py:771-782 | a two-byte sequential write stores the value at `a` and at the address after it |
| Era.ReadExtBytes | circuitpython_cirque_pinnacle/glidepoint.py:746-758 | a block ERA read returns the window, keeps memory and register 4, and keeps the feed discipline |
| Era.PlainKept | circuitpython_cirque_pinnacle/glidepoint.py:734-782 | accesses without register-4 writes or ERA commands keep the feed discipline |
| Era.FillTwo | circuitpython_cirque_pinnacle/glidepoint.py:399 | filling two bytes is two single-byte updates |
| Era.KeptTwice | circuitpython_cirque_pinnacle/glidepoint.py:734-782 | two transactions that keep the feed discipline compose into one that does |
| Era.PausedKept | circuitpython_cirque_pinnacle.py:260-273 | pausing the feed, running ERA writes and restoring it keeps the feed discipline |
| Config.PackRelative | circuitpython_cirque_pinnacle/glidepoint.py:189-192 | register 5 from the Relative options: rotate90 in bit 7, inverted glide-extend, secondary-tap and taps in bits 4, 2, 1, intellimouse in bit 0 |
| Config.LegacyPackRelative | circuitpython_cirque_pinnacle.py:148-153 | the legacy single-expression packing gives the same bits |
| Config.RelativeRoundTrip | circuitpython_cirque_pinnacle/glidepoint.py:189-192 | every Relative option set can be read back from the packed byte, and the legacy packing equals the current one |
| Config.UnpackRelativeBits | circuitpython_cirque_pinnacle/glidepoint.py:189-192 | decoding a byte built from option bits recovers each option |
| Config.RelativeExamples | circuitpython_cirque_pinnacle/glidepoint.py:159-192 | the default options pack to 0, the legacy constructor's register-5 value 2 means "taps off", and all-non-default options pack to 0x97 |
| Config.FeedMode | circuitpython_cirque_pinnacle/glidepoint.py:136 | `1 \| mode` for a tracking mode sets the feed bit and keeps the mode bits |
| Config.AbsoluteConfig1 | circuitpython_cirque_pinnacle/glidepoint.py:215-216 | register 4 keeps its low six bits; bit 6 is invert-x and bit 7 is invert-y |
| Config.WithBit | circuitpython_cirque_pinnacle/glidepoint.py:355-356 | the masked update sets exactly bit k to the requested state |
| Config.HasBit | circuitpython_cirque_pinnacle/glidepoint.py:352 | `bool(x & 2^k)` is bit k |
| Config.WithBitRoundTrip | circuitpython_cirque_pinnacle/glidepoint.py:352-372 | the getter reads back what the setter wrote, and no other bit changes |
| Config.FingerStylus | circuitpython_cirque_pinnacle/glidepoint.py:430-432 | the finger/stylus byte with bit 2 raised for the stylus and bit 0 raised for the finger; a bit already set stays set |
| Config.FingerStylusBits | circuitpython_cirque_pinnacle/glidepoint.py:430-432 | bit by bit: bits 0 and 2 are on when requested or already on, every other bit is unchanged |
| Config.AdcGain | circuitpython_cirque_pinnacle/glidepoint.py:524 | the gain byte keeps its low six bits and takes the sensitivity in its top two |
| Config.PackCalibration | circuitpython_cirque_pinnacle/glidepoint.py:467-469 | register 7 from the calibration options: tap, track-error, NERD and background compensation in bits 4..1, the run flag in bit 0 |
| Config.CalibrationRoundTrip | circuitpython_cirque_pinnacle/glidepoint.py:467-469 | the options and the run flag can be read back from the packed byte |
| Config.CalibrationFinished | circuitpython_cirque_pinnacle/glidepoint.py:470-472 | once the run bit reads clear, register 7 holds the options with run off |
| Config.UnpackCalibrationBits | circuitpython_cirque_pinnacle/glidepoint.py:467-469 | decoding a byte built from option bits recovers each option |
| Config.RateRegister | circuitpython_cirque_pinnacle/glidepoint.py:395-406 | the value written to register 9: a standard rate (100, 80, 60, 40, 20, 10) as it is, 0 for the stylus rates 200 and 300, 100 for any other value |
| Config.Config3For | circuitpython_cirque_pinnacle/glidepoint.py:395-403 | register 6 is 10 (palm and noise compensation off) exactly for 200 and 300, otherwise 0 |
| Config.ReloadTimer | circuitpython_cirque_pinnacle/glidepoint.py:398-404 | the reload timer is 6 exactly for 300, 9 exactly for 200, and otherwise 0x13 |
| Config.RateReadBack | circuitpython_cirque_pinnacle/glidepoint.py:374-406 | a standard rate reads back as written; 200 and 300 read back as 0 and setting that again gives 100; the setter is idempotent after two applications |
| Config.ClearAnymeasFlags | circuitpython_cirque_pinnacle/glidepoint.py:127 | `& 0xE7` clears bits 3 and 4 of register 3 and keeps the rest |
| Config.EnterAnymeasFlags | circuitpython_cirque_pinnacle/glidepoint.py:127-143 | entering AnyMeas sets bit 3, clears bit 4 and keeps the rest |
| Config.StartMeasureFlags | circuitpython_cirque_pinnacle/glidepoint.py:697 | `\| 0x18` sets bits 3 and 4 and keeps the rest |
| Config.AnymeasFlagsKept | circuitpython_cirque_pinnacle/glidepoint.py:127-143 | the three register-3 updates differ only in the two-bit AnyMeas field (0, 1 and 3) |
| Reports.Without | circuitpython_cirque_pinnacle/glidepoint.py:328 | `del` of one element shifts the later elements down by one |
| Reports.AbsoluteReport | circuitpython_cirque_pinnacle/glidepoint.py:322-328 | the Absolute decode gives buttons (6 bits), 12-bit x and y with their high nibbles from byte 4, and z (6 bits) |
| Reports.DropUnused | circuitpython_cirque_pinnacle/glidepoint.py:328 | `del v[4], v[1]` keeps elements 0, 2, 3 and 5 |
| Reports.AbsolutePacket | circuitpython_cirque_pinnacle/glidepoint.py:322-328 | the six packet bytes the chip sends for a touch |
| Reports.AbsoluteRoundTrip | circuitpython_cirque_pinnacle/glidepoint.py:322-328 | decoding the packet for any in-range buttons, x, y, z recovers them |
| Reports.AbsoluteReencode | circuitpython_cirque_pinnacle/glidepoint.py:322-328 | re-encoding a decoded packet gives the original bytes, except the unused byte 1 and the top two bits of the buttons and z bytes, which the decode drops |
| Reports.RelativeReport | circuitpython_cirque_pinnacle/glidepoint.py:329-331 | the Relative decode keeps the three button bits of byte 0 and bytes 1..3 unchanged |
| Reports.RelativeIdempotent | circuitpython_cirque_pinnacle/glidepoint.py:329-331 | decoding a Relative report twice changes nothing |
| Reports.LegacyRelativeReport | circuitpython_cirque_pinnacle.py:182-185 | the legacy Relative decode equals the current one |
| Reports.LegacyAbsoluteFields | circuitpython_cirque_pinnacle.py:174-179 | the legacy field extraction equals the current Absolute decode |
| Reports.LegacyAbsoluteReport | circuitpython_cirque_pinnacle.py:174-181 | the legacy Absolute report as written: x is always 128 and y always 64 |
| Reports.LegacyClampLosesPosition | circuitpython_cirque_pinnacle.py:180-181 | for any touch whose x is not 128 or whose y is not 64, the legacy report loses the position that the plain decode recovers |
| Reports.ClampedAbsoluteReport | circuitpython_cirque_pinnacle.py:180-181 | the intended clamp keeps x within 128..1920 and y within 64..1472 |
| Reports.ClampKeepsPosition | circuitpython_cirque_pinnacle.py:180-181 | the intended clamp keeps every in-range position and moves any other one to the nearest bound |
| AnyMeas.TruncDiv | circuitpython_cirque_pinnacle/glidepoint.py:600-602 | `int(a / d)` rounds toward zero |
| AnyMeas.SampleLength | circuitpython_cirque_pinnacle/glidepoint.py:600 | the sample-length byte is in 1..3: 1 below 256 bits, 2 from 256 to 383 bits, 3 from 384 bits on |
| AnyMeas.SampleLengthValues | circuitpython_cirque_pinnacle/glidepoint.py:600 | 128, 256 and 512 bits give 1, 2 and 3 |
| AnyMeas.Aperture | circuitpython_cirque_pinnacle/glidepoint.py:602 | the aperture byte is in 2..15: 2 below 375 ns, 15 from 1875 ns on |
| AnyMeas.ApertureInverse | circuitpython_cirque_pinnacle/glidepoint.py:602 | within the clamp, the aperture byte times 125 ns is the width rounded down, exactly for multiples of 125 |
| AnyMeas.GainFrequency | circuitpython_cirque_pinnacle/glidepoint.py:599 | `gain \| frequency` of a listed gain and frequency is their sum |
| AnyMeas.GainFrequencyRoundTrip | circuitpython_cirque_pinnacle/glidepoint.py:599 | gain and frequency can be recovered from the combined byte |
| AnyMeas.AnymeasConfig | circuitpython_cirque_pinnacle/glidepoint.py:597-603 | the ten configuration bytes: gain/frequency at 0, the sample length of `bits` at 1, mux at 2, the aperture of `ns` at 4 and control at 9, the template elsewhere |
| AnyMeas.AnymeasDefaults | circuitpython_cirque_pinnacle/glidepoint.py:541-598 | the default arguments reproduce the template `[2, 3, 4, 0, 4, 0, 19, 0, 0, 1]` |
| AnyMeas.BigEndian | circuitpython_cirque_pinnacle/glidepoint.py:690-693 | byte k of the n-byte vector is the k-th most significant byte |
| AnyMeas.BigEndianRoundTrip | circuitpython_cirque_pinnacle/glidepoint.py:690-693 | reading the vector back gives the value modulo 2^(8n) |
| AnyMeas.ToggleVector | circuitpython_cirque_pinnacle/glidepoint.py:689-693 | the eight toggle/polarity bytes encode both 32-bit values, most significant byte first |
| AnyMeas.ToggleVectorUnique | circuitpython_cirque_pinnacle/glidepoint.py:689-693 | equal vectors come only from equal 32-bit values |
| Frames.ReadCommand | circuitpython_cirque_pinnacle/glidepoint.py:811 | a read command byte is `0xA0 \| reg` |
| Frames.WriteCommand | circuitpython_cirque_pinnacle/glidepoint.py:828 | a write command byte is `0x80 \| reg` |
| Frames.CommandRoundTrip | circuitpython_cirque_pinnacle/glidepoint.py:811-828 | both command bytes decode back to their command and register |
| Frames.CommandUnique | circuitpython_cirque_pinnacle/glidepoint.py:811-828 | a byte that decodes as a command is that command's byte |
| Frames.SpiReadFrame | circuitpython_cirque_pinnacle/glidepoint.py:856-861 | a single SPI read sends the read command then three 0xFB filler bytes |
| Frames.SpiBlockReadFrame | circuitpython_cirque_pinnacle/glidepoint.py:863-869 | a block SPI read sends the command, n+1 auto-increment 0xFC fillers and a final 0xFB |
| Frames.SpiReadsRegisters | circuitpython_cirque_pinnacle/glidepoint.py:856-869 | the slice the driver keeps of the answer is exactly the requested registers |
| Frames.SpiWriteFrame | circuitpython_cirque_pinnacle/glidepoint.py:871-874 | an SPI write frame exists exactly for a byte value and decodes to that write; otherwise a ValueError |
| Frames.SpiWriteFrames | circuitpython_cirque_pinnacle/glidepoint.py:876-878 | a block SPI write sends one frame per value until the first value that is not a byte, which raises ValueError |
| Frames.I2cReadRequest | circuitpython_cirque_pinnacle/glidepoint.py:810-817 | an I2C read sends the single read command byte |
| Frames.I2cWriteFrame | circuitpython_cirque_pinnacle/glidepoint.py:822-830 | an I2C write interleaves each register's write command with the value cut to its low byte |
| Frames.LowBytes | circuitpython_cirque_pinnacle/glidepoint.py:828 | `& 0xFF` applied to every value |
| Frames.I2cWriteDecodes | circuitpython_cirque_pinnacle/glidepoint.py:822-830 | the I2C write frame decodes to exactly the register writes of the truncated values |
| Frames.DecodePair | circuitpython_cirque_pinnacle/glidepoint.py:828 | a command/value pair in front of a frame decodes to one more write in front |
| Frames.WriteEventsCons | circuitpython_cirque_pinnacle/glidepoint.py:824-828 | a block write's events are its first write followed by the events of the rest |
| Frames.TransportsAgree | circuitpython_cirque_pinnacle/glidepoint.py:822-830 | for byte values the SPI frames, concatenated, are the I2C frame, and both decode to the same register writes |
| Frames.PyAnd | circuitpython_cirque_pinnacle/glidepoint.py:88 | Python's `&` succeeds exactly on an int and raises TypeError on a buffer |
| Frames.I2cRapRead | circuitpython_cirque_pinnacle/glidepoint.py:807-808 | the I2C single read returns the int in the first answer byte |
| Frames.BufferI2cRapRead | circuitpython_cirque_pinnacle/glidepoint_lite.py:183-184 | the lite and legacy I2C single reads return the answer buffer itself |
| Frames.FeedGetterOverI2c | circuitpython_cirque_pinnacle/glidepoint_lite.py:30-32 | the feed getter over the buffer-returning read raises TypeError; over an int-returning read it gives bit 0 |
| Matrix.ShortBytes | circuitpython_cirque_pinnacle/glidepoint.py:508 | `struct.pack("h", v)` gives two little-endian bytes of v modulo 0x10000 |
| Matrix.PackShort | circuitpython_cirque_pinnacle/glidepoint.py:508 | packing succeeds exactly for a signed 16-bit value, and raises `struct.error` otherwise |
| Matrix.UnpackShort | circuitpython_cirque_pinnacle/glidepoint.py:502 | unpacking two bytes gives a signed short with those low and high bytes |
| Matrix.ShortRoundTrip | circuitpython_cirque_pinnacle/glidepoint.py:502-508 | unpacking the packed bytes of a short returns the short |
| Matrix.BytesRoundTrip | circuitpython_cirque_pinnacle/glidepoint.py:502-508 | packing an unpacked short returns the two bytes |
| Matrix.UnpackShorts | circuitpython_cirque_pinnacle/glidepoint.py:502 | `struct.unpack("46h", buf)` pairs consecutive bytes into shorts |
| Matrix.PackShorts | circuitpython_cirque_pinnacle/glidepoint.py:507-510 | the bytes written for a list of shorts, two per entry |
| Matrix.PackRoundTrip | circuitpython_cirque_pinnacle/glidepoint.py:502-510 | unpacking the packed shorts gives the list back |
| Matrix.UnpackRoundTrip | circuitpython_cirque_pinnacle/glidepoint.py:502-510 | packing the unpacked shorts gives the byte buffer back |
| Matrix.Padded | circuitpython_cirque_pinnacle/glidepoint.py:506 | a short matrix is extended with zeros to 46 entries; the given entries are unchanged |
| Matrix.ShortPrefix | circuitpython_cirque_pinnacle/glidepoint.py:507-510 | the number of leading entries that pack, i.e. where the first `struct.error` would occur |
| Matrix.StoreAt | circuitpython_cirque_pinnacle/glidepoint.py:507-510 | after storing bytes from an address, each address holds its byte from the block or keeps its old value |
| Matrix.StoreWindow | circuitpython_cirque_pinnacle/glidepoint.py:502-510 | reading back a stored block gives the block |
| Matrix.CalibrationMatrix | circuitpython_cirque_pinnacle/glidepoint.py:475-502 | the getter returns the 46 shorts stored at 0x01DF..0x0236, all in range, without changing memory, keeping the feed discipline |
| Matrix.MatrixBytes | circuitpython_cirque_pinnacle/glidepoint.py:502 | entry i of the window read is the two memory bytes at 0x01DF + 2i |
| Matrix.WriteEntry | circuitpython_cirque_pinnacle/glidepoint.py:508-510 | one entry's two ERA writes store its two bytes at 0x01DF + 2i and 0x01DF + 2i + 1 |
| Matrix.StoreEntry | circuitpython_cirque_pinnacle/glidepoint.py:507-510 | one more iteration extends the stored prefix of the matrix by one entry |
| Matrix.WriteEntries | circuitpython_cirque_pinnacle/glidepoint.py:507-510 | the loop writes every entry up to the first one that does not pack, and stops there |
| Matrix.SetCalibrationMatrix | circuitpython_cirque_pinnacle/glidepoint.py:504-510 | the setter pads the caller's list in place with zeros to 46 entries (`m'`) and stores it up to the first entry outside the short range; it raises `struct.error` exactly when there is one; register 4 and the feed discipline are kept |
| Matrix.SetThenGet | circuitpython_cirque_pinnacle/glidepoint.py:475-510 | reading the matrix after a successful set gives the padded matrix back |
| Matrix.StoredMatrix | circuitpython_cirque_pinnacle/glidepoint.py:475-510 | the shorts read from a stored matrix are the shorts written |
| Glidepoint.HardConfigured | circuitpython_cirque_pinnacle/glidepoint.py:148-157 | `hard_configured` is true exactly when register 0x1F is non-zero |
| Glidepoint.Available | circuitpython_cirque_pinnacle/glidepoint.py:218-231 | with a data-ready pin, data is available when the pin is high, without bus access; without one, when SW_DR (bit 2 of register 2) is set |
| Glidepoint.ConfigBit | circuitpython_cirque_pinnacle/glidepoint.py:352-368 | a register-3 getter reports bit k of register 3 |
| Glidepoint.SetConfigBit | circuitpython_cirque_pinnacle/glidepoint.py:355-372 | a register-3 setter sets bit k to the requested state and keeps the other bits |
| Glidepoint.AllowSleep | circuitpython_cirque_pinnacle/glidepoint.py:341-352 | `allow_sleep` reports bit 2 of register 3 |
| Glidepoint.SetAllowSleep | circuitpython_cirque_pinnacle/glidepoint.py:354-356 | setting `allow_sleep` changes only bit 2 of register 3 |
| Glidepoint.Shutdown | circuitpython_cirque_pinnacle/glidepoint.py:358-368 | `shutdown` reports bit 1 of register 3 |
| Glidepoint.SetShutdown | circuitpython_cirque_pinnacle/glidepoint.py:370-372 | setting `shutdown` changes only bit 1 of register 3 |
| Glidepoint.SampleRate | circuitpython_cirque_pinnacle/glidepoint.py:374-390 | the getter reads register 9 |
| Glidepoint.SampleRateRegs | circuitpython_cirque_pinnacle/glidepoint.py:392-406 | the registers after the sample-rate setter |
| Glidepoint.SampleRateKeeps | circuitpython_cirque_pinnacle/glidepoint.py:392-406 | the sample-rate setter touches only registers 2, 6, 9 and 0x1B..0x1E |
| Glidepoint.SetSampleRate | circuitpython_cirque_pinnacle/glidepoint.py:392-406 | in AnyMeas mode nothing; otherwise register 9 takes the normalised rate, register 6 the compensation setting, both reload-timer bytes the matching value, and the feed discipline is kept |
| Glidepoint.WriteFingerStylus | circuitpython_cirque_pinnacle/glidepoint.py:430-432 | address 0xEB gets the finger/stylus bits raised; no other memory changes |
| Glidepoint.DetectFingerStylus | circuitpython_cirque_pinnacle/glidepoint.py:408-433 | the finger/stylus byte is updated and the sample rate then set, in any mode, with the feed discipline kept |
| Glidepoint.Calibrate | circuitpython_cirque_pinnacle/glidepoint.py:435-473 | in AnyMeas mode nothing; otherwise register 7 ends with the options and run off; with `run` the status flags are cleared after the poll |
| Glidepoint.SetAdcGain | circuitpython_cirque_pinnacle/glidepoint.py:512-525 | ValueError with no bus access exactly when the sensitivity is outside 0..3; otherwise the top two bits of address 0x187 become the sensitivity and nothing else in memory changes |
| Glidepoint.TuneEdgeSensitivity | circuitpython_cirque_pinnacle/glidepoint.py:527-539 | addresses 0x149 and 0x168 get the two thresholds, cut to bytes; nothing else in memory changes |
| Glidepoint.SpiEraWrite | circuitpython_cirque_pinnacle/glidepoint.py:760-769 | as written over SPI: a value outside 0..255 raises ValueError with memory untouched and the feed left off; a byte is stored as `_era_write` stores it, with the feed discipline kept |
| Glidepoint.SpiEraWriteFixed | circuitpython_cirque_pinnacle/glidepoint.py:760-769 | as intended: the same ValueError and stores, and register 4 always ends as it started |
| Glidepoint.SpiTuneEdgeSensitivity | circuitpython_cirque_pinnacle/glidepoint.py:538-539 | as written over SPI: ValueError exactly when a threshold is outside 0..255; the thresholds before it are stored, and the feed is left off |
| Glidepoint.TuneLeavesFeedOff | circuitpython_cirque_pinnacle/glidepoint.py:538-539 | with the feed on, `tune_edge_sensitivity(300, 3)` over SPI raises ValueError and leaves the feed off |
| Glidepoint.SpiTuneEdgeSensitivityFixed | circuitpython_cirque_pinnacle/glidepoint.py:538-539 | as intended: the same stores and ValueError, and register 4 always ends as it started |
| Glidepoint.RelativeModeConfig | circuitpython_cirque_pinnacle/glidepoint.py:159-192 | outside Relative mode nothing; in it register 5 holds the options, which can be read back |
| Glidepoint.AbsoluteModeConfig | circuitpython_cirque_pinnacle/glidepoint.py:194-216 | outside Absolute mode nothing; in it register 0x0A gets the clamped idle count and register 4 the invert bits, keeping its low six bits |
| Glidepoint.ReadReport | circuitpython_cirque_pinnacle/glidepoint.py:319-333 | in AnyMeas mode nothing; in Absolute mode the decoded six bytes, in Relative mode the decoded four bytes; then the status flags are cleared |
| Glidepoint.AnymeasRegs | circuitpython_cirque_pinnacle/glidepoint.py:604-606 | registers 5..14 hold the configuration, 0x13..0x1A are zero, the status is cleared and nothing else changes |
| Glidepoint.AnymeasModeConfig | circuitpython_cirque_pinnacle/glidepoint.py:541-606 | outside AnyMeas mode nothing; in it the configuration bytes, zeroed toggles and a status clear |
| Glidepoint.AnymeasDefaultRegs | circuitpython_cirque_pinnacle/glidepoint.py:541-606 | with the default arguments, registers 5..14 hold the template |
| Glidepoint.ToggleRegs | circuitpython_cirque_pinnacle/glidepoint.py:695 | registers 0x13..0x1A hold the toggle vector and nothing else changes |
| Glidepoint.StartMeasureAdc | circuitpython_cirque_pinnacle/glidepoint.py:681-697 | outside AnyMeas mode nothing; in it registers 0x13..0x1A hold the toggle mask then the polarity mask, most significant byte first, and register 3 gets both AnyMeas flags with its other bits kept |
| Glidepoint.WriteToggles | circuitpython_cirque_pinnacle/glidepoint.py:695 | the eight toggle bytes land in 0x13..0x1A |
| Glidepoint.GetMeasureAdc | circuitpython_cirque_pinnacle/glidepoint.py:699-720 | None outside AnyMeas or while the pin is low; otherwise registers 0x11..0x12 and a status clear |
| Glidepoint.MeasureAdc | circuitpython_cirque_pinnacle/glidepoint.py:608-679 | as written: a result exactly when some poll is ready, taken at the first ready poll; outside AnyMeas no poll is ever ready, so it polls until the levels run out with the chip untouched; in AnyMeas the chip ends with the toggle/polarity vector in 0x13..0x1A and bits 3 and 4 of register 3 set, and after a result the status register cleared, with nothing else changed |
| Glidepoint.AwaitMeasure | circuitpython_cirque_pinnacle/glidepoint.py:675-679 | the polls that find nothing leave the chip alone; the first ready poll returns registers 0x11..0x12 and clears only the status register; if none is ready nothing changes |
| Glidepoint.MeasureAdcFixed | circuitpython_cirque_pinnacle/glidepoint.py:608-679 | as documented: None without polling outside AnyMeas, and the same result and final chip as the as-written version inside it |
| Glidepoint.LeaveAnymeasRegs | circuitpython_cirque_pinnacle/glidepoint.py:129-134 | after leaving AnyMeas the AnyMeas field is 0, register 4 holds the mode with the feed on, taps are off, every compensation is on, and registers other than 3, 4, 5, 7 and 0x0A are unchanged |
| Glidepoint.LeaveAnymeas | circuitpython_cirque_pinnacle/glidepoint.py:129-134 | as written: the leaving writes, and the sample rate is left as it was, because `sample_rate = 100` runs while `_mode` is still AnyMeas |
| Glidepoint.ResetSampleRate | circuitpython_cirque_pinnacle/glidepoint.py:132 | `sample_rate = 100` outside AnyMeas leaves registers 3..5 alone and restores rate 100 with its compensation and reload timer |
| Glidepoint.WriteLeaveBlock | circuitpython_cirque_pinnacle/glidepoint.py:131 | the block write of registers 3..5 on leaving AnyMeas |
| Glidepoint.LeaveAnymeasFixed | circuitpython_cirque_pinnacle/glidepoint.py:129-134 | as intended: the same registers, and also sample rate 100 with its compensation and reload timer |
| Glidepoint.LeaveValues | circuitpython_cirque_pinnacle/glidepoint.py:131-133 | the bytes written on leaving mean feed on in the mode, taps off, and every compensation on |
| Glidepoint.ReenterRegs | circuitpython_cirque_pinnacle/glidepoint.py:137-145 | entering AnyMeas from AnyMeas sets the "tracking off" field and writes the default configuration |
| Glidepoint.SwitchTracking | circuitpython_cirque_pinnacle/glidepoint.py:128-136 | a switch between tracking modes writes only register 4; a switch out of AnyMeas does the leaving writes |
| Glidepoint.SwitchAnymeas | circuitpython_cirque_pinnacle/glidepoint.py:137-145 | as written: AttributeError without a pin; with one, from a tracking mode only register 3 changes, because the configuration call still sees the old mode |
| Glidepoint.SetDataMode | circuitpython_cirque_pinnacle/glidepoint.py:123-146 | as written: ValueError exactly for a non-mode and AttributeError exactly for AnyMeas without a pin, neither changing any register; on success `_mode` is the new mode, with the register effects per transition |
| Glidepoint.SetDataModeFixed | circuitpython_cirque_pinnacle/glidepoint.py:123-146 | as intended: the same errors; entering AnyMeas always writes the default configuration, and leaving it restores sample rate 100 |
| Glidepoint.WriteStartBlock | circuitpython_cirque_pinnacle/glidepoint.py:73-74 | the constructor's writes: 30 idle packets, register 3 at 0, feed on in Relative mode, taps off |
| Glidepoint.PowerOnWrites | circuitpython_cirque_pinnacle/glidepoint.py:73-75 | those writes followed by ADC gain 0 |
| Glidepoint.Init | circuitpython_cirque_pinnacle/glidepoint.py:63-76 | RuntimeError exactly when registers 0..1 do not read 7, 0x3A; otherwise Relative mode with both detections on, rate 100, 30 idle packets, taps off, ADC gain 0 and a finished calibration with every compensation |
| Legacy.LegacyCalibrationBits | circuitpython_cirque_pinnacle.py:87 | the legacy register-7 byte 14 enables track-error, NERD and background compensation but not tap compensation |
| Legacy.Init | circuitpython_cirque_pinnacle.py:76-93 | with an int-returning `_rap_read` (SPI, or the corrected I2C read): OSError exactly when registers 0..1 do not read 7, 0x3A; otherwise Relative mode, status cleared, both detections on, rate 100, register 7 at 14, 30 idle packets, taps off, ADC gain 0 |
| Legacy.PowerOn | circuitpython_cirque_pinnacle.py:85-93 | the legacy start-up writes and what each register then means |
| Legacy.SetDataMode | circuitpython_cirque_pinnacle.py:113-140 | as written: ValueError for a non-mode; AttributeError for every AnyMeas request; a tracking mode writes only register 4, even when leaving AnyMeas |
| Legacy.LeaveAnymeas | circuitpython_cirque_pinnacle.py:120-127 | the leaving writes of the dead branch, as they would act: AnyMeas field cleared, feed on in the mode, taps off, register 7 at 14, rate 100 |
| Legacy.SetDataModeFixed | circuitpython_cirque_pinnacle.py:113-140 | as intended: leaving AnyMeas clears its flags and restores the tracking settings; entering it writes the default configuration; AttributeError only without a pin |
| Legacy.RelativeModeConfig | circuitpython_cirque_pinnacle.py:148-153 | register 5 receives the options in any mode, and they can be read back |
| Legacy.RelativeAgrees | circuitpython_cirque_pinnacle.py:148-153 | in Relative mode the legacy and current Relative settings give the same chip |
| Legacy.AbsoluteModeConfig | circuitpython_cirque_pinnacle.py:155-159 | in any mode register 0x0A gets the clamped idle count and register 4 the invert bits, keeping its low six bits |
| Legacy.Poll | circuitpython_cirque_pinnacle.py:168-173 | a packet is due when `only_new` is false, or by the pin, or by SW_DR when there is no pin |
| Legacy.Report | circuitpython_cirque_pinnacle.py:161-187 | in AnyMeas mode nothing; when no packet is due, None with no status clear; otherwise the legacy decode and a status clear |
| Legacy.RelativeReportAgrees | circuitpython_cirque_pinnacle.py:161-187 | in Relative mode with `only_new` false, the legacy report equals the current driver's read, accesses included |
| Legacy.MeasureAdc | circuitpython_cirque_pinnacle.py:304-323 | None outside AnyMeas; in AnyMeas registers 0x13..0x1A hold the toggle/polarity vector and register 3 has bits 3 and 4 (0x18) set, its other bits kept; AttributeError without a pin; with one, a result exactly when the pin goes high, read at the first high poll; the final chip is the started chip, with the status register cleared after a result |
| Legacy.PollResult | circuitpython_cirque_pinnacle.py:319-323 | the pin is polled until the first high level; then the two result bytes are returned and only the status register is cleared; if the levels run out nothing is read or written |
| Legacy.MeasureAgrees | circuitpython_cirque_pinnacle.py:304-323 | with a pin in AnyMeas the legacy and current measurements give the same result after the same polls and leave the same chip, recorded accesses included |
| Legacy.SetCalibrationMatrix | circuitpython_cirque_pinnacle.py:260-273 | as written: the caller's list padded in place when shorter than 46, the same stores as the current setter, but a `struct.error` leaves the feed off |
| Legacy.SetCalibrationMatrixFixed | circuitpython_cirque_pinnacle.py:260-273 | as intended: the same padding and stores, and register 4 ends as it started whether or not an entry fails |
| Lite.WriteReloadTimer | circuitpython_cirque_pinnacle/glidepoint_lite.py:117-124 | two single ERA writes put the reload timer at 414 and 415 with the feed discipline kept |
| Lite.SetSampleRate | circuitpython_cirque_pinnacle/glidepoint_lite.py:113-126 | in every mode: register 9 a standard rate or 0, register 6 the compensation setting, both reload-timer bytes set, other registers kept |
| Lite.SampleRateAgrees | circuitpython_cirque_pinnacle/glidepoint_lite.py:113-126 | outside AnyMeas the lite setter leaves memory and registers 4, 6 and 9 as the current driver's |
| Lite.Init | circuitpython_cirque_pinnacle/glidepoint_lite.py:17-28 | with an int-returning `_rap_read` (SPI, or the corrected I2C read): RuntimeError exactly when registers 0..1 do not read 7, 58; otherwise Relative mode, rate 100, 30 idle packets, taps off, status cleared; no detection, gain or calibration |
| Lite.DataMode | circuitpython_cirque_pinnacle/glidepoint_lite.py:45-48 | `bool(mode) * 2` is Relative exactly for 0 and Absolute for anything else |
| Lite.DataModeValues | circuitpython_cirque_pinnacle/glidepoint_lite.py:45-48 | both modes map to themselves, AnyMeas maps to Absolute, and the mapping is idempotent |
| Lite.SetDataMode | circuitpython_cirque_pinnacle/glidepoint_lite.py:45-48 | register 4 becomes `1 \| mode`: feed on, Absolute exactly when the value was non-zero |
| Lite.RelativeModeConfig | circuitpython_cirque_pinnacle/glidepoint_lite.py:54-59 | register 5 receives the packed options in any mode, and nothing else changes; they can be read back |
| Lite.AbsoluteModeConfig | circuitpython_cirque_pinnacle/glidepoint_lite.py:61-65 | in any mode the clamped idle count and the invert bits, register 4's low six bits kept |
| Lite.AbsoluteAgrees | circuitpython_cirque_pinnacle/glidepoint_lite.py:61-65 | in Absolute mode the lite and current Absolute settings give the same result |
| Lite.Report | circuitpython_cirque_pinnacle/glidepoint_lite.py:67-87 | None when no packet is due; any non-zero mode reads the Absolute packet, mode 0 the Relative one; then a status clear |
| Lite.ReportAgrees | circuitpython_cirque_pinnacle/glidepoint_lite.py:67-87 | with `only_new` false in Relative or Absolute mode the lite report equals the current driver's read |
| Lite.SetAllowSleep | circuitpython_cirque_pinnacle/glidepoint_lite.py:97-99 | bit 2 of register 3 becomes `bool(is_enabled)`; no other bit changes |
| Lite.SetShutdown | circuitpython_cirque_pinnacle/glidepoint_lite.py:105-107 | bit 1 of register 3 becomes `bool(is_off)`; no other bit changes |

## Left out

- Bus I/O itself (`busio`, `SPIDevice`, `I2CDevice`, `digitalio`) is not modelled. Register accesses are events in the chip's trace. `Frames` states the bytes each transport would send and receive.
- The data-ready pin is a parameter. `level` is its value at one read; `levels` is the sequence of values successive polls see.
- `time.sleep` calls are not modelled; they have no effect on registers.
- A loop that polls the chip (`while self._rap_read(0x1E)`, `while self._rap_read(7) & 1`) finishes after one poll. This follows the chip assumptions stated above.
- Glidepoint.MeasureAdc: a `while` loop with no exit is modelled over a finite sequence of pin levels. A run that never sees a ready poll ends without a result after the last level, instead of spinning forever.
- Legacy.MeasureAdc: the same finite-levels treatment for the `while not self.dr_pin.value` loop.
- Default parameter values are not modelled; every argument is explicit.
- Legacy.RelativeModeConfig: its different default for `taps` (False) is a default value, so it is not modelled.
- Python's dynamic typing is not modelled:
  - booleans are `bool`, integers are `int`;
  - a non-integer matrix entry or mode value is out of scope;
  - Lite.SetAllowSleep and Lite.SetShutdown take an `int` to model `bool()`.
- A value written to a register is cut to its low byte, as the I2C transport's `& 0xFF` does. The SPI transport's ValueError for a value outside 0..255 appears in Frames.SpiWriteFrame and Frames.SpiWriteFrames, and for the ERA write in Glidepoint.SpiEraWrite and Glidepoint.SpiTuneEdgeSensitivity. The other driver methods do not model it.
- Era.EraWrite: takes a byte, so it does not model the SPI ValueError for a larger value, nor the feed left off after it; Glidepoint.SpiEraWrite does.
- Glidepoint.TuneEdgeSensitivity: models the I2C transport, which cuts each threshold to a byte; the SPI ValueError and the feed left off after it are in Glidepoint.SpiTuneEdgeSensitivity.
- The legacy I2C `_rap_read_bytes` toggles bit 0 of `device_address` between its write and read halves. This is bus addressing, not register state, so it is not modelled.
- The current driver's I2C `_rap_read_bytes` creates and returns a buffer. Its single-read wrapper takes element 0 (Frames.I2cRapRead).
- Legacy.Init, Lite.Init and the other Legacy/Lite members: they read registers through `Sim.ReadReg`, which returns an int. That is the legacy and lite `_rap_read` over SPI, or over I2C as corrected (Frames.I2cRapRead). Over I2C as written, `_rap_read` returns a one-byte buffer, so both constructors raise TypeError at their first `feed_enable` read (legacy line 99, lite line 32), and so does every other member that reads a register. Frames.BufferI2cRapRead and Frames.FeedGetterOverI2c model that path; see Findings.
- The constructors of the transport subclasses only store the bus objects and are not modelled.
- Code shared word for word between drivers is modelled once, in `Glidepoint` and `Era`. This covers:
  - the legacy and lite feed-enable getter and setter;
  - the ERA read and write functions;
  - the legacy `anymeas_mode_config`, `calibrate`, `set_adc_gain`, `tune_edge_sensitivity`, `detect_finger_stylus` and `sample_rate`;
  - the legacy and lite `hard_configured`, `clear_flags`/`clear_status_flags`, and the register-3 getters.
- The lite `_era_read_bytes` is never called by the lite driver and is the same loop as Era.EraReadBytes.
- The AnyMeas and DataModes constant classes are used as the values they name; there are no separate members for them.
- The version and repository strings and the example scripts are not part of this model.

## Findings

| source | as written | input that shows it | evidently intended | confidence | as-written member | corrected member |
|---|---|---|---|---|---|---|
| circuitpython_cirque_pinnacle.py:180-181 | `min(128, max(1920, x))` and `min(64, max(1472, y))` | any Absolute packet, e.g. x = 500, y = 300: the report gives x = 128, y = 64 | clamp x into 128..1920 and y into 64..1472 | high; not executed | Reports.LegacyClampLosesPosition | Reports.ClampedAbsoluteReport |
| circuitpython_cirque_pinnacle/glidepoint_lite.py:183-184 | the I2C `_rap_read` returns the one-byte buffer, not its element | lite I2C construction: `feed_enable` (via `sample_rate` and `_era_write`) computes `buffer & 1`, which raises TypeError | return `self._rap_read_bytes(reg, 1)[0]` | high; not executed | Frames.FeedGetterOverI2c | Frames.I2cRapRead |
| circuitpython_cirque_pinnacle.py:398-399 | the I2C `_rap_read` returns the one-byte buffer | any `feed_enable` read over I2C raises TypeError | return the first byte | high; not executed | Frames.BufferI2cRapRead | Frames.I2cRapRead |
| circuitpython_cirque_pinnacle/glidepoint.py:143-146 | `anymeas_mode_config()` runs before `self._mode = mode` | `data_mode = ANYMEAS` from Relative mode with a pin: registers 5..14 keep their tracking values | write the default AnyMeas configuration on entry | high; not executed | Glidepoint.SwitchAnymeas | Glidepoint.SetDataModeFixed |
| circuitpython_cirque_pinnacle/glidepoint.py:129-132 | `self.sample_rate = 100` runs while `_mode` is still AnyMeas | leaving AnyMeas for Relative mode: registers 6 and 9 and the reload timer are unchanged | restore sample rate 100 on leaving AnyMeas | medium; not executed | Glidepoint.LeaveAnymeas | Glidepoint.LeaveAnymeasFixed |
| circuitpython_cirque_pinnacle/glidepoint.py:675-679 | `measure_adc` loops on `get_measure_adc()`, which is always None outside AnyMeas | `measure_adc(0, 0)` in Relative mode never returns | return None outside AnyMeas, as the docstring says | high; not executed | Glidepoint.MeasureAdc | Glidepoint.MeasureAdcFixed |
| circuitpython_cirque_pinnacle.py:119-120 | `self._mode = mode` precedes the test for leaving AnyMeas | `data_mode = RELATIVE` from AnyMeas: register 3 keeps its AnyMeas flags and registers 5, 7, 9, 0x0A are not reset | test the mode being left | high; not executed | Legacy.SetDataMode | Legacy.SetDataModeFixed |
| circuitpython_cirque_pinnacle.py:134-137 | reads `self._sys_config`, which is never assigned | `data_mode = ANYMEAS` with a pin raises AttributeError after `_mode` becomes AnyMeas | read register 3 for the flags | high; not executed | Legacy.SetDataMode | Legacy.SetDataModeFixed |
| circuitpython_cirque_pinnacle.py:265-273 | the feed is restored only after the loop | a matrix with an entry of 40000: `struct.error` leaves the feed off | restore the feed whatever happens | medium; not executed | Legacy.SetCalibrationMatrix | Legacy.SetCalibrationMatrixFixed |
| circuitpython_cirque_pinnacle/glidepoint.py:760-769 | the feed is restored only after `_rap_write(0x1B, value)` succeeds, with no `try`/`finally` | over SPI with the feed on, `tune_edge_sensitivity(300, 3)`: `bytes([0x9B, 300])` raises ValueError and the feed stays off | restore the feed whatever happens | medium; not executed | Glidepoint.SpiTuneEdgeSensitivity | Glidepoint.SpiTuneEdgeSensitivityFixed |
| circuitpython_cirque_pinnacle.py:367-376 | the same `_era_write`, with `bytearray([0x9B, value])` on SPI | over SPI with the feed on, `tune_edge_sensitivity(300, 3)` raises ValueError and the feed stays off | restore the feed whatever happens | medium; not executed | Glidepoint.SpiEraWrite | Glidepoint.SpiEraWriteFixed |
