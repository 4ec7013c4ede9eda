/** The driver's feed-enable control and its Extended Register Access (ERA)
    protocol, common to all three versions of the driver: save bit 0 of register 4
    and clear it, load the data and address registers, write a command code to
    register 0x1E, poll it until idle, read the data register, clear the status
    register and put the feed bit back. */
module Era {
  import opened Bits
  import opened Bytes
  import opened Sim

  /** Register 4 with bit 0 set to `on` and bits 1..7 kept. */
  function WithFeed(x: Byte, on: bool): (y: Byte)
    ensures y % 2 == B(on) && y / 2 == x / 2
    ensures (x % 2 == 1) == on ==> y == x
  {
    x - x % 2 + B(on)
  }

  /** The driver's `(is_enabled & 0xFE) | is_on` is `WithFeed`. */
  lemma WithFeedMask(x: Byte, on: bool)
    ensures Or(And(x, 0xFE), B(on)) == WithFeed(x, on)
  {
    ClearLowBit(x);
    SetLowBit(x / 2, B(on));
  }

  /** `feed_enable` getter: `bool(_rap_read(4) & 1)`. */
  method FeedEnabled(c: Chip) returns (c': Chip, on: bool)
    requires c.Valid()
    ensures c' == c.(trace := c.trace + [Read(FEED_CONFIG1)])
    ensures on == (c.regs[FEED_CONFIG1] % 2 == 1)
  {
    var (c1, v) := ReadReg(c, FEED_CONFIG1);
    AndLow(v, 1);
    c', on := c1, And(v, 1) != 0;
  }

  /** `feed_enable` setter: a read-modify-write of bit 0 of register 4 that skips
      the write when the bit already has the requested value. */
  method SetFeedEnable(c: Chip, on: bool) returns (c': Chip)
    requires c.Valid()
    ensures c'.Valid()
    ensures c'.regs == c.regs[FEED_CONFIG1 := WithFeed(c.regs[FEED_CONFIG1], on)]
    ensures c'.ext == c.ext && c'.seqWrite == c.seqWrite
    ensures (c.regs[FEED_CONFIG1] % 2 == 1) == on ==> c'.trace == c.trace + [Read(FEED_CONFIG1)]
    ensures (c.regs[FEED_CONFIG1] % 2 == 1) != on ==>
              c'.trace == c.trace + [Read(FEED_CONFIG1), Write(FEED_CONFIG1, WithFeed(c.regs[FEED_CONFIG1], on))]
  {
    var (c1, enabled) := ReadReg(c, FEED_CONFIG1);
    AndLow(enabled, 1);
    if (And(enabled, 1) != 0) != on {
      WithFeedMask(enabled, on);
      c' := WriteReg(c1, FEED_CONFIG1, Or(And(enabled, 0xFE), B(on)));
    } else {
      c' := c1;
    }
  }

  /** `clear_status_flags()`: writes 0 to the status register (the 50 µs settle
      delay that follows is not modelled). */
  function ClearStatusFlags(c: Chip): (c': Chip)
    requires c.Valid()
    ensures c'.Valid()
    ensures c'.regs == c.regs[STATUS := 0]
    ensures c'.ext == c.ext && c'.seqWrite == c.seqWrite
    ensures c'.trace == c.trace + [Write(STATUS, 0)]
  {
    WriteReg(c, STATUS, 0)
  }

  /** The busy-wait `while _rap_read(0x1E): pass`. The simulated chip is idle (or
      completes one auto-incremented write) by the first poll, so the loop
      exits after one read. */
  function AwaitIdle(c: Chip): (c': Chip)
    requires c.Valid() && (c.seqWrite || c.regs[ERA_CONTROL] == 0)
    ensures c'.Valid()
    ensures c'.trace == c.trace + [Read(ERA_CONTROL)]
    ensures c'.seqWrite == c.seqWrite
    ensures !c.seqWrite ==> c'.regs == c.regs && c'.ext == c.ext
    ensures c.seqWrite ==> c'.regs == PointAt(c.regs, Next(c.Address()))
    ensures c.seqWrite ==> c'.ext == c.ext[c.Address() := c.regs[ERA_VALUE]]
  {
    var (c1, busy) := ReadReg(c, ERA_CONTROL);
    assert busy == 0;
    c1
  }

  /** The accesses that save the feed state and switch the feed off: a read for
      the getter, a read for the setter, and a write only if the feed was on. */
  function SaveFeed(r4: Byte): seq<Access> {
    [Read(FEED_CONFIG1), Read(FEED_CONFIG1)] + (if r4 % 2 == 1 then [Write(FEED_CONFIG1, WithFeed(r4, false))] else [])
  }

  /** The accesses that put the saved feed state back. */
  function RestoreFeed(r4: Byte): seq<Access> {
    [Read(FEED_CONFIG1)] + (if r4 % 2 == 1 then [Write(FEED_CONFIG1, r4)] else [])
  }

  /** The register file an ERA transaction leaves behind: the address registers
      point at `a`, the data register holds `value`, and the control and status
      registers are clear. */
  function EraRegs(regs: seq<Byte>, value: Byte, a: ExtAddr): (r: seq<Byte>)
    requires |regs| == 32
    ensures |r| == 32 && Join(r[ERA_HIGH], r[ERA_LOW]) == a
    ensures r[FEED_CONFIG1] == regs[FEED_CONFIG1]
  {
    PointAt(regs, a)[ERA_VALUE := value][ERA_CONTROL := 0][STATUS := 0]
  }

  /** An ERA transaction changes no register besides the status and ERA
      registers. */
  lemma EraRegsKeeps(regs: seq<Byte>, value: Byte, a: ExtAddr, i: int)
    requires |regs| == 32 && 0 <= i < 32 && i != STATUS && !(ERA_VALUE <= i <= ERA_CONTROL)
    ensures EraRegs(regs, value, a)[i] == regs[i]
  {
    PointAtKeeps(regs, a, i);
  }

  /** A later transaction overwrites everything an earlier one left. */
  lemma EraRegsTwice(regs: seq<Byte>, v1: Byte, a1: ExtAddr, v2: Byte, a2: ExtAddr)
    requires |regs| == 32
    ensures EraRegs(EraRegs(regs, v1, a1), v2, a2) == EraRegs(regs, v2, a2)
  {
  }

  /** The register file after a round of an auto-incrementing write: the address
      registers point at `a` and the status register is clear. */
  function Stepped(regs: seq<Byte>, a: ExtAddr): (r: seq<Byte>)
    requires |regs| == 32
    ensures |r| == 32 && Join(r[ERA_HIGH], r[ERA_LOW]) == a
    ensures r[FEED_CONFIG1] == regs[FEED_CONFIG1]
  {
    PointAt(regs, a)[STATUS := 0]
  }

  lemma SteppedTwice(regs: seq<Byte>, a1: ExtAddr, a2: ExtAddr)
    requires |regs| == 32
    ensures Stepped(Stepped(regs, a1), a2) == Stepped(regs, a2)
  {
  }

  // ---------------------------------------------------------------------------
  // The feed-enable discipline, read off the trace

  /** Register 4 after one access, replaying only what the host wrote. */
  function Replay(r4: Byte, e: Access): Byte {
    if e.Write? && e.reg == FEED_CONFIG1 then e.value else r4
  }

  /** No access of `t` writes register 4. */
  predicate NoFeedWrites(t: seq<Access>) {
    forall i :: 0 <= i < |t| ==> !(t[i].Write? && t[i].reg == FEED_CONFIG1)
  }

  /** Two stretches that leave register 4 alone, one after the other, leave it alone. */
  lemma QuietAppend(s: seq<Access>, t: seq<Access>)
    requires NoFeedWrites(s) && NoFeedWrites(t)
    ensures NoFeedWrites(s + t)
  {
    forall i | 0 <= i < |s + t| ensures !((s + t)[i].Write? && (s + t)[i].reg == FEED_CONFIG1) {
      if i >= |s| {
        assert (s + t)[i] == t[i - |s|];
      }
    }
  }

  /** Register 4 after the host's accesses `t`, starting from `r4`. */
  function FeedAfter(r4: Byte, t: seq<Access>): (r: Byte)
    ensures NoFeedWrites(t) ==> r == r4
    decreases |t|
  {
    if |t| == 0 then r4 else FeedAfter(Replay(r4, t[0]), t[1..])
  }

  /** Every ERA command the host writes to register 0x1E in `t` is issued while
      the feed (bit 0 of register 4, as last written) is off. */
  predicate FeedOffAtCommands(r4: Byte, t: seq<Access>)
    decreases |t|
  {
    |t| == 0 ||
    ((t[0].Write? && t[0].reg == ERA_CONTROL ==> r4 % 2 == 0) && FeedOffAtCommands(Replay(r4, t[0]), t[1..]))
  }

  /** Both trace functions distribute over concatenation. */
  lemma {:induction false} FeedAppend(r4: Byte, s: seq<Access>, t: seq<Access>)
    ensures FeedAfter(r4, s + t) == FeedAfter(FeedAfter(r4, s), t)
    ensures FeedOffAtCommands(r4, s + t) == (FeedOffAtCommands(r4, s) && FeedOffAtCommands(FeedAfter(r4, s), t))
    decreases |s|
  {
    if |s| > 0 {
      assert (s + t)[0] == s[0];
      assert (s + t)[1..] == s[1..] + t;
      FeedAppend(Replay(r4, s[0]), s[1..], t);
    } else {
      assert s + t == t;
    }
  }

  /** A stretch that never writes register 4 keeps the feed as it found it, and
      if the feed was off all its commands run with the feed off. */
  lemma {:induction false} QuietStretch(r4: Byte, t: seq<Access>)
    requires NoFeedWrites(t)
    ensures FeedAfter(r4, t) == r4
    ensures r4 % 2 == 0 ==> FeedOffAtCommands(r4, t)
    decreases |t|
  {
    if |t| > 0 {
      assert NoFeedWrites(t[1..]) by {
        forall i | 0 <= i < |t| - 1 ensures !(t[1..][i].Write? && t[1..][i].reg == FEED_CONFIG1) {
          assert t[1..][i] == t[i + 1];
        }
      }
      QuietStretch(r4, t[1..]);
    }
  }

  /** No access of `t` writes an ERA command to register 0x1E. */
  predicate NoCommands(t: seq<Access>) {
    forall i :: 0 <= i < |t| ==> !(t[i].Write? && t[i].reg == ERA_CONTROL)
  }

  /** A stretch that issues no ERA command cannot issue one with the feed on. */
  lemma {:induction false} CommandFree(r4: Byte, t: seq<Access>)
    requires NoCommands(t)
    ensures FeedOffAtCommands(r4, t)
    decreases |t|
  {
    if |t| > 0 {
      assert NoCommands(t[1..]) by {
        forall i | 0 <= i < |t| - 1 ensures !(t[1..][i].Write? && t[1..][i].reg == ERA_CONTROL) {
          assert t[1..][i] == t[i + 1];
        }
      }
      CommandFree(Replay(r4, t[0]), t[1..]);
    }
  }

  /** The trace functions on a single access. */
  lemma Single(r4: Byte, e: Access)
    ensures FeedAfter(r4, [e]) == Replay(r4, e)
    ensures FeedOffAtCommands(r4, [e]) == (e.Write? && e.reg == ERA_CONTROL ==> r4 % 2 == 0)
  {
    assert [e][1..] == [];
  }

  /** Saving and clearing the feed leaves it off, and issues no command. */
  lemma SaveFeedOff(r4: Byte)
    ensures FeedAfter(r4, SaveFeed(r4)) == WithFeed(r4, false)
    ensures FeedOffAtCommands(r4, SaveFeed(r4))
  {
    var off := WithFeed(r4, false);
    var read := [Read(FEED_CONFIG1)];
    Single(r4, Read(FEED_CONFIG1));
    FeedAppend(r4, read, read);
    if r4 % 2 == 1 {
      Single(r4, Write(FEED_CONFIG1, off));
      FeedAppend(r4, read + read, [Write(FEED_CONFIG1, off)]);
    } else {
      assert SaveFeed(r4) == read + read;
    }
  }

  /** Restoring the saved feed from the off state puts register 4 back, and
      issues no command. */
  lemma RestoreFeedOn(r4: Byte)
    ensures FeedAfter(WithFeed(r4, false), RestoreFeed(r4)) == r4
    ensures FeedOffAtCommands(WithFeed(r4, false), RestoreFeed(r4))
  {
    var off := WithFeed(r4, false);
    Single(off, Read(FEED_CONFIG1));
    if r4 % 2 == 1 {
      Single(off, Write(FEED_CONFIG1, r4));
      FeedAppend(off, [Read(FEED_CONFIG1)], [Write(FEED_CONFIG1, r4)]);
    } else {
      assert RestoreFeed(r4) == [Read(FEED_CONFIG1)];
    }
  }

  /** Saving and clearing the feed, then a stretch that leaves register 4 alone,
      then restoring the feed: the stretch's commands all run with the feed off
      and register 4 ends where it started. */
  lemma Bracket(r4: Byte, mid: seq<Access>)
    requires NoFeedWrites(mid)
    ensures FeedOffAtCommands(r4, SaveFeed(r4) + mid + RestoreFeed(r4))
    ensures FeedAfter(r4, SaveFeed(r4) + mid + RestoreFeed(r4)) == r4
  {
    SaveFeedOff(r4);
    QuietStretch(WithFeed(r4, false), mid);
    RestoreFeedOn(r4);
    FeedAppend(r4, SaveFeed(r4), mid);
    FeedAppend(r4, SaveFeed(r4) + mid, RestoreFeed(r4));
  }

  /** What the host did between states `c` and `c'`: every ERA command ran with
      the feed off, and register 4 was put back as it was. */
  predicate FeedKept(c: Chip, c': Chip) {
    c.Valid() && |c.trace| <= |c'.trace| && c'.trace[..|c.trace|] == c.trace &&
    FeedOffAtCommands(c.regs[FEED_CONFIG1], c'.trace[|c.trace|..]) &&
    FeedAfter(c.regs[FEED_CONFIG1], c'.trace[|c.trace|..]) == c.regs[FEED_CONFIG1]
  }

  /** A transaction whose accesses are wrapped in the save/restore of the feed
      keeps the feed discipline. */
  lemma BracketKept(c: Chip, c': Chip, mid: seq<Access>)
    requires c.Valid() && NoFeedWrites(mid)
    requires c'.trace == c.trace + SaveFeed(c.regs[FEED_CONFIG1]) + mid + RestoreFeed(c.regs[FEED_CONFIG1])
    ensures FeedKept(c, c')
  {
    var r4 := c.regs[FEED_CONFIG1];
    assert c'.trace[|c.trace|..] == SaveFeed(r4) + mid + RestoreFeed(r4);
    Bracket(r4, mid);
  }

  /** A block transaction (a set-up, then `n` rounds, neither touching
      register 4) wrapped in the save/restore of the feed keeps the discipline. */
  lemma RoundsKept(c: Chip, c': Chip, setup: seq<Access>, round: seq<Access>, n: nat)
    requires c.Valid() && NoFeedWrites(setup) && NoFeedWrites(round)
    requires c'.trace == c.trace + SaveFeed(c.regs[FEED_CONFIG1]) + setup + Rounds(round, n)
                         + RestoreFeed(c.regs[FEED_CONFIG1])
    ensures FeedKept(c, c')
  {
    QuietAppend(setup, Rounds(round, n));
    BracketKept(c, c', setup + Rounds(round, n));
  }

  // ---------------------------------------------------------------------------
  // The transactions

  /** `prev_feed_state = self.feed_enable; self.feed_enable = False`. */
  method PauseFeed(c: Chip) returns (c': Chip, prev: bool)
    requires c.Valid()
    ensures prev == (c.regs[FEED_CONFIG1] % 2 == 1)
    ensures c' == c.(regs := c.regs[FEED_CONFIG1 := WithFeed(c.regs[FEED_CONFIG1], false)],
                     trace := c.trace + SaveFeed(c.regs[FEED_CONFIG1]))
  {
    var c1;
    c1, prev := FeedEnabled(c);
    c' := SetFeedEnable(c1, false);
  }

  /** `self.feed_enable = prev_feed_state` after a paused transaction. */
  method ResumeFeed(c: Chip, r4: Byte) returns (c': Chip)
    requires c.Valid() && c.regs[FEED_CONFIG1] == WithFeed(r4, false)
    ensures c' == c.(regs := c.regs[FEED_CONFIG1 := r4], trace := c.trace + RestoreFeed(r4))
  {
    c' := SetFeedEnable(c, r4 % 2 == 1);
  }

  /** `_rap_write_bytes(0x1C, [reg >> 8, reg & 0xFF])`: the address, high byte first. */
  method PointTo(c: Chip, a: ExtAddr) returns (c': Chip)
    requires c.Valid()
    ensures c' == c.(regs := PointAt(c.regs, a), trace := c.trace + [Write(ERA_HIGH, Hi(a)), Write(ERA_LOW, Lo(a))])
  {
    c' := WriteRegs(c, ERA_HIGH, [Hi(a), Lo(a)]);
    assert c'.regs == PointAt(c.regs, a);
  }

  /** The write of an ERA command code to register 0x1E followed by the busy-wait
      on it. */
  method Command(c: Chip, cmd: Byte) returns (c': Chip)
    requires c.Valid()
    requires cmd == ERA_READ || cmd == ERA_READ_SEQ || cmd == ERA_WRITE
    ensures c'.Valid() && !c'.seqWrite
    ensures c'.trace == c.trace + [Write(ERA_CONTROL, cmd), Read(ERA_CONTROL)]
    ensures c'.regs == Exec(c, cmd).regs && c'.ext == Exec(c, cmd).ext
    ensures c'.Address() == if cmd == ERA_READ_SEQ then Next(c.Address()) else c.Address()
  {
    var c1 := WriteReg(c, ERA_CONTROL, cmd);
    c' := AwaitIdle(c1);
  }

  /** `_era_read(reg)`: one byte of extended memory. */
  method EraRead(c: Chip, a: ExtAddr) returns (c': Chip, v: Byte)
    requires c.Valid()
    ensures c'.Valid()
    ensures v == c.Ext(a)
    ensures c'.ext == c.ext && !c'.seqWrite
    ensures c'.regs == EraRegs(c.regs, c.Ext(a), a)
    ensures c'.trace == c.trace + SaveFeed(c.regs[FEED_CONFIG1])
              + [Write(ERA_HIGH, Hi(a)), Write(ERA_LOW, Lo(a)), Write(ERA_CONTROL, ERA_READ),
                 Read(ERA_CONTROL), Read(ERA_VALUE), Write(STATUS, 0)]
              + RestoreFeed(c.regs[FEED_CONFIG1])
    ensures FeedKept(c, c')
  {
    var r4 := c.regs[FEED_CONFIG1];
    var c1, _ := PauseFeed(c);
    var c2 := PointTo(c1, a);
    var c3 := Command(c2, ERA_READ);
    var (c4, b) := ReadReg(c3, ERA_VALUE);
    var c5 := ClearStatusFlags(c4);
    c' := ResumeFeed(c5, r4);
    v := b;
    BracketKept(c, c', [Write(ERA_HIGH, Hi(a)), Write(ERA_LOW, Lo(a)), Write(ERA_CONTROL, ERA_READ),
                        Read(ERA_CONTROL), Read(ERA_VALUE), Write(STATUS, 0)]);
  }

  /** `_era_write(reg, value)`: one byte into extended memory. */
  method EraWrite(c: Chip, a: ExtAddr, v: Byte) returns (c': Chip)
    requires c.Valid()
    ensures c'.Valid()
    ensures c'.ext == c.ext[a := v] && !c'.seqWrite
    ensures c'.regs == EraRegs(c.regs, v, a)
    ensures c'.trace == c.trace + SaveFeed(c.regs[FEED_CONFIG1])
              + [Write(ERA_VALUE, v), Write(ERA_HIGH, Hi(a)), Write(ERA_LOW, Lo(a)), Write(ERA_CONTROL, ERA_WRITE),
                 Read(ERA_CONTROL), Write(STATUS, 0)]
              + RestoreFeed(c.regs[FEED_CONFIG1])
    ensures FeedKept(c, c')
  {
    var r4 := c.regs[FEED_CONFIG1];
    var c1, _ := PauseFeed(c);
    var c2 := WriteReg(c1, ERA_VALUE, v);
    var c3 := PointTo(c2, a);
    var c4 := Command(c3, ERA_WRITE);
    var c5 := ClearStatusFlags(c4);
    c' := ResumeFeed(c5, r4);
    BracketKept(c, c', [Write(ERA_VALUE, v), Write(ERA_HIGH, Hi(a)), Write(ERA_LOW, Lo(a)),
                        Write(ERA_CONTROL, ERA_WRITE), Read(ERA_CONTROL), Write(STATUS, 0)]);
  }

  // ---------------------------------------------------------------------------
  // Block transfers

  /** The accesses of one round of `_era_read_bytes`: sequential-read command,
      one poll, the data byte, the status clear. */
  function ReadRound(): seq<Access> {
    [Write(ERA_CONTROL, ERA_READ_SEQ), Read(ERA_CONTROL), Read(ERA_VALUE), Write(STATUS, 0)]
  }

  /** The accesses of one round of `_era_write_bytes`: one poll and the status clear. */
  function WriteRound(): seq<Access> {
    [Read(ERA_CONTROL), Write(STATUS, 0)]
  }

  /** `n` repetitions of a round. */
  function Rounds(round: seq<Access>, n: nat): (t: seq<Access>)
    ensures NoFeedWrites(round) ==> NoFeedWrites(t)
  {
    if n == 0 then [] else Rounds(round, n - 1) + round
  }

  /** The address `i` places after `a`, counting round the 16-bit wrap. */
  function Offset(a: ExtAddr, i: nat): ExtAddr {
    if i == 0 then a else Next(Offset(a, i - 1))
  }

  /** `Offset` is addition modulo 2^16. */
  lemma {:induction false} OffsetMod(a: ExtAddr, i: nat)
    ensures Offset(a, i) == (a + i) % 0x1_0000
    decreases i
  {
    if i > 0 {
      OffsetMod(a, i - 1);
      var q, r := (a + i - 1) / 0x1_0000, (a + i - 1) % 0x1_0000;
      assert a + i - 1 == 0x1_0000 * q + r;
      if r < 0xFFFF {
        DivUnique(a + i, 0x1_0000, q, r + 1);
      } else {
        DivUnique(a + i, 0x1_0000, q + 1, 0);
      }
    }
  }

  /** Below the wrap, `Offset` is plain addition. */
  lemma {:induction false} OffsetBelow(a: ExtAddr, i: nat)
    requires a + i < 0x1_0000
    ensures Offset(a, i) == a + i
    decreases i
  {
    if i > 0 {
      OffsetBelow(a, i - 1);
    }
  }

  /** The `n` consecutive bytes of extended memory from `a` on. */
  function ExtWindow(m: map<ExtAddr, Byte>, a: ExtAddr, n: nat): (w: seq<Byte>)
    ensures |w| == n
  {
    if n == 0 then [] else ExtWindow(m, a, n - 1) + [Get(m, Offset(a, n - 1))]
  }

  /** Byte `i` of a window is the byte `i` places after its start. */
  lemma {:induction false} WindowAt(m: map<ExtAddr, Byte>, a: ExtAddr, n: nat, i: nat)
    requires i < n
    ensures ExtWindow(m, a, n)[i] == Get(m, Offset(a, i))
    decreases n
  {
    if i < n - 1 {
      WindowAt(m, a, n - 1, i);
    }
  }

  /** One round of the `_era_read_bytes` loop: the byte at the chip's address,
      which the sequential-read command then advances. */
  method ReadStep(c: Chip) returns (c': Chip, b: Byte)
    requires c.Valid()
    ensures b == c.Ext(c.Address())
    ensures c' == c.(regs := EraRegs(c.regs, b, Next(c.Address())), seqWrite := false,
                     trace := c.trace + ReadRound())
  {
    var c1 := Command(c, ERA_READ_SEQ);
    var (c2, v) := ReadReg(c1, ERA_VALUE);
    c' := ClearStatusFlags(c2);
    b := v;
  }

  /** The loop of `_era_read_bytes`: `n` rounds from the chip's current address. */
  method ReadLoop(c: Chip, n: nat) returns (c': Chip, buf: seq<int>)
    requires c.Valid()
    ensures buf == ExtWindow(c.ext, c.Address(), n)
    ensures n == 0 ==> c' == c
    ensures n > 0 ==> c' == c.(regs := EraRegs(c.regs, Get(c.ext, Offset(c.Address(), n - 1)), Offset(c.Address(), n)), seqWrite := false,
                               trace := c.trace + Rounds(ReadRound(), n))
    decreases n
  {
    if n == 0 {
      return c, [];
    } else if n == 1 {
      var b;
      c', b := ReadStep(c);
      buf := [b];
    } else {
      var ci, bi := ReadLoop(c, n - 1);
      c', buf := ReadNext(c, n - 1, ci, bi);
    }
  }

  /** One more round of the read loop, from the state after `i > 0` rounds. */
  method ReadNext(c: Chip, i: nat, ci: Chip, buf: seq<int>) returns (c': Chip, buf': seq<int>)
    requires c.Valid() && i > 0
    requires buf == ExtWindow(c.ext, c.Address(), i)
    requires ci == c.(regs := EraRegs(c.regs, Get(c.ext, Offset(c.Address(), i - 1)), Offset(c.Address(), i)), seqWrite := false,
                      trace := c.trace + Rounds(ReadRound(), i))
    ensures buf' == ExtWindow(c.ext, c.Address(), i + 1)
    ensures c' == c.(regs := EraRegs(c.regs, Get(c.ext, Offset(c.Address(), i)), Offset(c.Address(), i + 1)), seqWrite := false,
                     trace := c.trace + Rounds(ReadRound(), i + 1))
  {
    var a := c.Address();
    EraRegsTwice(c.regs, Get(c.ext, Offset(a, i - 1)), Offset(a, i), c.Ext(Offset(a, i)), Offset(a, i + 1));
    Assoc(c.trace, Rounds(ReadRound(), i), ReadRound());
    var b;
    c', b := ReadStep(ci);
    buf' := buf + [b];
  }

  /** The start of `_era_read_bytes`: the feed paused and the address written. */
  method ArmRead(c: Chip, a: ExtAddr) returns (c': Chip)
    requires c.Valid()
    ensures c' == c.(regs := PointAt(c.regs[FEED_CONFIG1 := WithFeed(c.regs[FEED_CONFIG1], false)], a),
                     trace := c.trace + SaveFeed(c.regs[FEED_CONFIG1]) + [Write(ERA_HIGH, Hi(a)), Write(ERA_LOW, Lo(a))])
    ensures c'.Address() == a
  {
    var c1, _ := PauseFeed(c);
    c' := PointTo(c1, a);
  }

  /** Pausing and restoring the feed around a block read leaves register 4 as it was. */
  lemma ReadBytesRegs(regs: seq<Byte>, w: Byte, a: ExtAddr, v: Byte, b: ExtAddr)
    requires |regs| == 32
    ensures PointAt(regs[FEED_CONFIG1 := w], a)[FEED_CONFIG1 := regs[FEED_CONFIG1]] == PointAt(regs, a)
    ensures EraRegs(PointAt(regs[FEED_CONFIG1 := w], a), v, b)[FEED_CONFIG1 := regs[FEED_CONFIG1]] == EraRegs(regs, v, b)
  {
  }

  /** `_era_read_bytes(reg, n)`: `n` bytes of extended memory, the address written
      once before the loop and the feed paused once around it. */
  method EraReadBytes(c: Chip, a: ExtAddr, n: nat) returns (c': Chip, buf: seq<int>)
    requires c.Valid()
    ensures buf == ExtWindow(c.ext, a, n)
    ensures n == 0 ==> c' == c.(regs := PointAt(c.regs, a),
                                trace := c.trace + SaveFeed(c.regs[FEED_CONFIG1]) + [Write(ERA_HIGH, Hi(a)), Write(ERA_LOW, Lo(a))]
                                         + RestoreFeed(c.regs[FEED_CONFIG1]))
    ensures n > 0 ==> c' == c.(regs := EraRegs(c.regs, Get(c.ext, Offset(a, n - 1)), Offset(a, n)), seqWrite := false,
                               trace := c.trace + SaveFeed(c.regs[FEED_CONFIG1]) + [Write(ERA_HIGH, Hi(a)), Write(ERA_LOW, Lo(a))]
                                        + Rounds(ReadRound(), n) + RestoreFeed(c.regs[FEED_CONFIG1]))
    ensures FeedKept(c, c')
  {
    var r4 := c.regs[FEED_CONFIG1];
    var c1 := ArmRead(c, a);
    var c2;
    c2, buf := ReadLoop(c1, n);
    c' := ResumeFeed(c2, r4);
    if n == 0 {
      ReadBytesRegs(c.regs, WithFeed(r4, false), a, 0, a);
      assert Rounds(ReadRound(), 0) == [];
      RoundsKept(c, c', [Write(ERA_HIGH, Hi(a)), Write(ERA_LOW, Lo(a))], ReadRound(), 0);
    } else {
      ReadBytesRegs(c.regs, WithFeed(r4, false), a, Get(c.ext, Offset(a, n - 1)), Offset(a, n));
      RoundsKept(c, c', [Write(ERA_HIGH, Hi(a)), Write(ERA_LOW, Lo(a))], ReadRound(), n);
    }
  }

  /** Memory after `n` auto-incremented stores of `v` from `a` on. */
  function Fill(m: map<ExtAddr, Byte>, a: ExtAddr, v: Byte, n: nat): map<ExtAddr, Byte> {
    if n == 0 then m else Fill(m, a, v, n - 1)[Offset(a, n - 1) := v]
  }

  /** How many places `x` lies after `a`, counting round the 16-bit wrap. */
  function Distance(a: ExtAddr, x: ExtAddr): (d: nat)
    ensures d < 0x1_0000 && Offset(a, d) == x
  {
    var d := if a <= x then x - a else x - a + 0x1_0000;
    OffsetMod(a, d);
    DivUnique(a + d, 0x1_0000, if a <= x then 0 else 1, x);
    d
  }

  lemma OffsetDistance(a: ExtAddr, x: ExtAddr, k: nat)
    requires Offset(a, k) == x
    ensures Distance(a, x) == k % 0x1_0000
  {
    OffsetMod(a, k);
    var d := Distance(a, x);
    OffsetMod(a, d);
    var q := (a + k) / 0x1_0000;
    assert a + k == 0x1_0000 * q + x;
    assert a + d == 0x1_0000 * (if a <= x then 0 else 1) + x;
    DivUnique(k, 0x1_0000, if a <= x then q else q - 1, d);
  }

  /** Which addresses a fill reaches: those fewer than `n` places after `a`. */
  lemma {:induction false} FillAt(m: map<ExtAddr, Byte>, a: ExtAddr, v: Byte, n: nat, x: ExtAddr)
    requires n <= 0x1_0000
    ensures Get(Fill(m, a, v, n), x) == if Distance(a, x) < n then v else Get(m, x)
    decreases n
  {
    if n > 0 {
      FillAt(m, a, v, n - 1, x);
      if Offset(a, n - 1) == x {
        OffsetDistance(a, x, n - 1);
      }
    }
  }

  /** One round of the `_era_write_bytes` loop: the poll of register 0x1E, which
      stores the data register at the chip's address and advances it, then the
      status clear. */
  method WriteStep(c: Chip) returns (c': Chip)
    requires c.Valid() && c.seqWrite
    ensures c' == c.(regs := Stepped(c.regs, Next(c.Address())), ext := c.ext[c.Address() := c.regs[ERA_VALUE]],
                     trace := c.trace + WriteRound())
  {
    var c1 := AwaitIdle(c);
    c' := ClearStatusFlags(c1);
  }

  /** The loop of `_era_write_bytes`: `n` polls while the auto-incrementing write
      is armed. */
  method WriteLoop(c: Chip, n: nat) returns (c': Chip)
    requires c.Valid() && c.seqWrite
    ensures n == 0 ==> c' == c
    ensures n > 0 ==> c' == c.(regs := Stepped(c.regs, Offset(c.Address(), n)),
                               ext := Fill(c.ext, c.Address(), c.regs[ERA_VALUE], n),
                               trace := c.trace + Rounds(WriteRound(), n))
    decreases n
  {
    if n == 0 {
      return c;
    } else if n == 1 {
      c' := WriteStep(c);
    } else {
      var ci := WriteLoop(c, n - 1);
      c' := WriteNext(c, n - 1, ci);
    }
  }

  /** One more round of the write loop, from the state after `i > 0` rounds. */
  method WriteNext(c: Chip, i: nat, ci: Chip) returns (c': Chip)
    requires c.Valid() && c.seqWrite && i > 0
    requires ci == c.(regs := Stepped(c.regs, Offset(c.Address(), i)),
                      ext := Fill(c.ext, c.Address(), c.regs[ERA_VALUE], i),
                      trace := c.trace + Rounds(WriteRound(), i))
    ensures c' == c.(regs := Stepped(c.regs, Offset(c.Address(), i + 1)),
                     ext := Fill(c.ext, c.Address(), c.regs[ERA_VALUE], i + 1),
                     trace := c.trace + Rounds(WriteRound(), i + 1))
  {
    SteppedTwice(c.regs, Offset(c.Address(), i), Offset(c.Address(), i + 1));
    Assoc(c.trace, Rounds(WriteRound(), i), WriteRound());
    c' := WriteStep(ci);
  }

  /** The accesses that arm an auto-incrementing write of `v` from `a`. */
  function WriteSetup(a: ExtAddr, v: Byte): seq<Access> {
    [Write(ERA_VALUE, v), Write(ERA_HIGH, Hi(a)), Write(ERA_LOW, Lo(a)), Write(ERA_CONTROL, ERA_WRITE_SEQ)]
  }

  /** The start of `_era_write_bytes`: the feed paused, the data byte and the
      address written, and the command that arms the auto-incrementing write. */
  method ArmWrite(c: Chip, a: ExtAddr, v: Byte) returns (c': Chip)
    requires c.Valid()
    ensures c' == c.(regs := PointAt(c.regs[FEED_CONFIG1 := WithFeed(c.regs[FEED_CONFIG1], false)][ERA_VALUE := v], a)[ERA_CONTROL := 0],
                     seqWrite := true,
                     trace := c.trace + SaveFeed(c.regs[FEED_CONFIG1]) + WriteSetup(a, v))
    ensures c'.Address() == a
  {
    var c1, _ := PauseFeed(c);
    var c2 := WriteReg(c1, ERA_VALUE, v);
    var c3 := PointTo(c2, a);
    c' := WriteReg(c3, ERA_CONTROL, ERA_WRITE_SEQ);
  }

  /** Pausing and restoring the feed around a block write leaves register 4 as it was. */
  lemma WriteBytesRegs(regs: seq<Byte>, w: Byte, v: Byte, a: ExtAddr, b: ExtAddr)
    requires |regs| == 32
    ensures PointAt(regs[FEED_CONFIG1 := w][ERA_VALUE := v], a)[ERA_CONTROL := 0][FEED_CONFIG1 := regs[FEED_CONFIG1]]
            == PointAt(regs, a)[ERA_VALUE := v][ERA_CONTROL := 0]
    ensures Stepped(PointAt(regs[FEED_CONFIG1 := w][ERA_VALUE := v], a)[ERA_CONTROL := 0], b)[FEED_CONFIG1 := regs[FEED_CONFIG1]]
            == Stepped(regs[ERA_VALUE := v][ERA_CONTROL := 0], b)
  {
  }

  /** `_era_write_bytes(reg, value, n)`: `value` into `n` consecutive extended
      addresses, with the command 0x0A issued once and then `n` polls. */
  method EraWriteBytes(c: Chip, a: ExtAddr, v: Byte, n: nat) returns (c': Chip)
    requires c.Valid()
    ensures c' == c.(regs := if n == 0 then PointAt(c.regs, a)[ERA_VALUE := v][ERA_CONTROL := 0]
                             else Stepped(c.regs[ERA_VALUE := v][ERA_CONTROL := 0], Offset(a, n)),
                     ext := Fill(c.ext, a, v, n),
                     seqWrite := true,
                     trace := c.trace + SaveFeed(c.regs[FEED_CONFIG1]) + WriteSetup(a, v)
                              + Rounds(WriteRound(), n) + RestoreFeed(c.regs[FEED_CONFIG1]))
    ensures FeedKept(c, c')
  {
    var r4 := c.regs[FEED_CONFIG1];
    var c1 := ArmWrite(c, a, v);
    var c2 := WriteLoop(c1, n);
    c' := ResumeFeed(c2, r4);
    WriteBytesRegs(c.regs, WithFeed(r4, false), v, a, Offset(a, n));
    assert NoFeedWrites(WriteSetup(a, v));
    RoundsKept(c, c', WriteSetup(a, v), WriteRound(), n);
  }

  /** An `_era_write(a, v)` followed by `_era_read(a)`: the read returns `v`, only
      address `a` of extended memory has changed, and register 4 is as before. */
  method WriteThenRead(c: Chip, a: ExtAddr, v: Byte) returns (c': Chip, r: Byte)
    requires c.Valid()
    ensures c'.Valid() && r == v
    ensures c'.ext == c.ext[a := v]
    ensures forall x :: x != a ==> c'.Ext(x) == c.Ext(x)
    ensures c'.regs[FEED_CONFIG1] == c.regs[FEED_CONFIG1]
    ensures FeedKept(c, c')
  {
    var c1 := EraWrite(c, a, v);
    c', r := EraRead(c1, a);
    KeptTwice(c, c1, c');
  }

  // ---------------------------------------------------------------------------
  // The transactions as the drivers' operations use them: what they leave in
  // the chip and the feed discipline, without the accesses one by one

  /** `_era_read(a)`: the byte at `a`, memory untouched. */
  method ReadExt(c: Chip, a: ExtAddr) returns (c': Chip, v: Byte)
    requires c.Valid()
    ensures c'.Valid() && v == c.Ext(a) && c'.ext == c.ext && !c'.seqWrite
    ensures c'.regs == EraRegs(c.regs, v, a)
    ensures FeedKept(c, c')
  {
    c', v := EraRead(c, a);
  }

  /** `_era_write(a, v)`: `v` stored at `a`, nothing else in memory changed. */
  method WriteExt(c: Chip, a: ExtAddr, v: Byte) returns (c': Chip)
    requires c.Valid()
    ensures c'.Valid() && c'.ext == c.ext[a := v] && !c'.seqWrite
    ensures c'.regs == EraRegs(c.regs, v, a)
    ensures FeedKept(c, c')
  {
    c' := EraWrite(c, a, v);
  }

  /** `_era_write_bytes(a, v, 2)`: `v` stored at `a` and the address after it. */
  method WriteExtTwice(c: Chip, a: ExtAddr, v: Byte) returns (c': Chip)
    requires c.Valid()
    ensures c'.Valid() && c'.ext == c.ext[a := v][Next(a) := v] && c'.seqWrite
    ensures c'.regs == Stepped(c.regs[ERA_VALUE := v][ERA_CONTROL := 0], Offset(a, 2))
    ensures FeedKept(c, c')
  {
    c' := EraWriteBytes(c, a, v, 2);
    FillTwo(c.ext, a, v);
  }

  /** `_era_read_bytes(a, n)`: the `n` bytes from `a` on, memory untouched. */
  method ReadExtBytes(c: Chip, a: ExtAddr, n: nat) returns (c': Chip, buf: seq<int>)
    requires c.Valid()
    ensures c'.Valid() && buf == ExtWindow(c.ext, a, n) && c'.ext == c.ext
    ensures c'.regs[FEED_CONFIG1] == c.regs[FEED_CONFIG1]
    ensures FeedKept(c, c')
  {
    c', buf := EraReadBytes(c, a, n);
  }

  /** Plain register accesses, which neither write register 4 nor issue an ERA
      command, keep the feed discipline. */
  lemma PlainKept(c: Chip, c': Chip, t: seq<Access>)
    requires c.Valid() && NoFeedWrites(t) && NoCommands(t)
    requires c'.trace == c.trace + t
    ensures FeedKept(c, c')
  {
    assert c'.trace[|c.trace|..] == t;
    CommandFree(c.regs[FEED_CONFIG1], t);
  }

  /** Two auto-incremented stores from `a` write `a` and the address after it. */
  lemma FillTwo(m: map<ExtAddr, Byte>, a: ExtAddr, v: Byte)
    ensures Fill(m, a, v, 2) == m[a := v][Next(a) := v]
  {
    assert Offset(a, 1) == Next(Offset(a, 0)) == Next(a);
    assert Fill(m, a, v, 1) == Fill(m, a, v, 0)[a := v] == m[a := v];
  }

  /** The feed discipline composes. */
  lemma KeptTwice(c: Chip, c1: Chip, c2: Chip)
    requires c.Valid() && c1.Valid()
    requires FeedKept(c, c1) && FeedKept(c1, c2)
    requires c1.regs[FEED_CONFIG1] == c.regs[FEED_CONFIG1]
    ensures FeedKept(c, c2)
  {
    var r4 := c.regs[FEED_CONFIG1];
    var s := c1.trace[|c.trace|..];
    var t := c2.trace[|c1.trace|..];
    assert c2.trace[|c.trace|..] == s + t;
    FeedAppend(r4, s, t);
  }

  /** Operations run between `PauseFeed` and `ResumeFeed`, themselves keeping
      the discipline from the paused state, keep it from the state before the
      pause. */
  lemma PausedKept(c: Chip, c1: Chip, c2: Chip, c3: Chip)
    requires c.Valid() && c1.Valid()
    requires c1.trace == c.trace + SaveFeed(c.regs[FEED_CONFIG1])
    requires c1.regs[FEED_CONFIG1] == WithFeed(c.regs[FEED_CONFIG1], false)
    requires FeedKept(c1, c2)
    requires c3.trace == c2.trace + RestoreFeed(c.regs[FEED_CONFIG1])
    ensures FeedKept(c, c3)
  {
    var r4 := c.regs[FEED_CONFIG1];
    var mid := c2.trace[|c1.trace|..];
    assert c3.trace[|c.trace|..] == SaveFeed(r4) + mid + RestoreFeed(r4);
    SaveFeedOff(r4);
    RestoreFeedOn(r4);
    FeedAppend(r4, SaveFeed(r4), mid);
    FeedAppend(r4, SaveFeed(r4) + mid, RestoreFeed(r4));
  }
}
