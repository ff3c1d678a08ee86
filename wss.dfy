/**
 * The Windows Sound System codec driver (WSS.C, register constants from
 * WSSDEFS.H). The codec is reached through two ports at its base address:
 * the index port selects one of sixteen indirect registers and the data
 * port reads or writes the selected one. Reading the index port shows the
 * INIT bit while the codec is busy.
 *
 * The model of the device: every `outp` is appended to a write trace, the
 * indirect registers are a register file selected by the low four bits of
 * the index, and the n-th read of the index port returns `status(n)`, an
 * environment oracle.
 */
module Wss {
  import opened Utils
  import opened Errno

  /** Direct register offsets from the base address. */
  const IndexRegOffset := 4
  const IdataRegOffset := 5

  /** Indirect register numbers. */
  const LadcReg: bv8 := 0x00
  const RadcReg: bv8 := 0x01
  const Laux1Reg: bv8 := 0x02
  const Raux1Reg: bv8 := 0x03
  const Laux2Reg: bv8 := 0x04
  const Raux2Reg: bv8 := 0x05
  const LdacReg: bv8 := 0x06
  const RdacReg: bv8 := 0x07
  const FormatReg: bv8 := 0x08
  const ConfigReg: bv8 := 0x09
  const PinReg: bv8 := 0x0A
  const TestInitReg: bv8 := 0x0B
  const MiscReg: bv8 := 0x0C
  const MixReg: bv8 := 0x0D
  const PlaybackUcntReg: bv8 := 0x0E
  const PlaybackLcntReg: bv8 := 0x0F

  /** Index port bits: codec busy, mode change enable. */
  const InitBit: bv8 := 0x80
  const MceBit: bv8 := 0x40
  /** Auxiliary input mute. */
  const AuxMuteBit: bv8 := 0x80
  /** Data format bits: 16-bit signed, stereo, and the 44.1 kHz clock select. */
  const FmtBit: bv8 := 0x40
  const SMBit: bv8 := 0x10
  const Cfs2Bit: bv8 := 0x08
  const Cfs0Bit: bv8 := 0x02
  const CssBit: bv8 := 0x01
  /** Interface configuration bits: auto-calibrate, playback enable. */
  const AcalBit: bv8 := 0x08
  const PenBit: bv8 := 0x01
  /** Pin control: interrupt enable. */
  const IenBit: bv8 := 0x02

  /** `WSS_TIMEOUT_LOOPS`. */
  const TimeoutLoops := 10000

  /**
   * `WSS_BYTES_TO_DMA_COUNT(x)`: a half buffer in 4-byte stereo frames,
   * minus one, `x / (2 * 2 * 2) - 1` in `uint32_t` arithmetic.
   */
  function BytesToDmaCount(x: bv32): bv32
  {
    x / 8 - 1
  }

  /**
   * The count names the frames of one half buffer: one more than the count,
   * times 8 bytes, is the buffer rounded down to a multiple of 8; below 8
   * bytes the subtraction wraps around.
   */
  lemma DmaCountMeaning(x: bv32)
    ensures x >= 8 ==> (BytesToDmaCount(x) + 1) * 8 <= x && x - (BytesToDmaCount(x) + 1) * 8 < 8
    ensures x < 8 ==> BytesToDmaCount(x) == 0xFFFF_FFFF
  {
  }

  /** The driver's 32 KiB double buffer gives the count 0x0FFF. */
  lemma FullBufferCount()
    ensures BytesToDmaCount(32768) == 0x0FFF
    ensures LoByte(BytesToDmaCount(32768)) == 0xFF && HiByte(BytesToDmaCount(32768)) == 0x0F
  {
  }

  /** A byte for an indirect register (`index`, with the MCE bit as the source sets it). */
  datatype RegWrite = RegWrite(index: bv8, value: bv8)

  /** The indirect register the codec selects for an index byte. */
  function Slot(index: bv8): (r: nat)
    ensures r < 16
  {
    (index & 0x0F) as int
  }

  /** The fourteen indirect writes of `wss_playback_start`, in order. */
  function PlaybackStartProgram(bufferSize: bv32): (p: seq<RegWrite>)
    ensures |p| == 14
  {
    var count := BytesToDmaCount(bufferSize);
    [ RegWrite(LadcReg, 0x00), RegWrite(RadcReg, 0x00),
      RegWrite(Laux1Reg, AuxMuteBit), RegWrite(Raux1Reg, AuxMuteBit),
      RegWrite(Laux2Reg, AuxMuteBit), RegWrite(Raux2Reg, AuxMuteBit),
      RegWrite(LdacReg, 0x00), RegWrite(RdacReg, 0x00),
      RegWrite(MixReg, 0x00),
      RegWrite(PinReg, IenBit),
      RegWrite(PlaybackLcntReg, LoByte(count)), RegWrite(PlaybackUcntReg, HiByte(count)),
      RegWrite(FormatReg | MceBit, FmtBit | SMBit | Cfs2Bit | Cfs0Bit | CssBit),
      RegWrite(ConfigReg | MceBit, PenBit | AcalBit) ]
  }

  /**
   * Every register of the program is written once: the fourteen registers
   * selected are pairwise distinct, and only the last two writes (format and
   * interface configuration) are made with the mode change enable bit set.
   */
  lemma PlaybackStartProgramShape(bufferSize: bv32)
    ensures var p := PlaybackStartProgram(bufferSize);
      && (forall i, j :: 0 <= i < j < |p| ==> Slot(p[i].index) != Slot(p[j].index))
      && (forall i :: 0 <= i < |p| ==> (p[i].index & MceBit != 0 <==> i >= 12))
  {
  }

  /**
   * What the program sets: line input and DAC gain 0, both auxiliary inputs
   * muted, loopback off, the interrupt pin enabled, the DMA count split low
   * byte first, format 0x5B at index 0x48 and configuration 0x09 (PEN and
   * ACAL) at index 0x49.
   */
  lemma PlaybackStartProgramValues(bufferSize: bv32)
    ensures var p := PlaybackStartProgram(bufferSize);
      && (forall i :: 2 <= i < 6 ==> Bit(p[i].value, 7))
      && p[6].value == 0 && p[7].value == 0 && p[8].value == 0
      && p[9].value == IenBit
      && p[10].value as bv32 + 0x100 * p[11].value as bv32 == BytesToDmaCount(bufferSize) % 0x1_0000
      && p[12] == RegWrite(0x48, 0x5B)
      && p[13] == RegWrite(0x49, 0x09)
  {
    ByteSplit(BytesToDmaCount(bufferSize));
  }

  /** The two port writes of one `wss_write_indirect`: the index, then the data. */
  function IndirectWrites(base: nat, w: RegWrite): seq<PortWrite>
  {
    [PortWrite(base + IndexRegOffset, w.index), PortWrite(base + IdataRegOffset, w.value)]
  }

  /** The port writes of a run of indirect writes that all complete. */
  function ProgramWrites(base: nat, p: seq<RegWrite>): seq<PortWrite>
    decreases |p|
  {
    if p == [] then [] else ProgramWrites(base, p[..|p| - 1]) + IndirectWrites(base, p[|p| - 1])
  }

  /** The register file after a run of indirect writes that all complete. */
  function Apply(regs: seq<bv8>, p: seq<RegWrite>): (r: seq<bv8>)
    requires |regs| == 16
    ensures |r| == 16
    decreases |p|
  {
    if p == [] then regs else Apply(regs, p[..|p| - 1])[Slot(p[|p| - 1].index) := p[|p| - 1].value]
  }

  /** One more completed write extends the trace and the register file. */
  lemma Extend(base: nat, regs: seq<bv8>, p: seq<RegWrite>, k: nat)
    requires |regs| == 16 && k < |p|
    ensures ProgramWrites(base, p[..k + 1]) == ProgramWrites(base, p[..k]) + IndirectWrites(base, p[k])
    ensures Apply(regs, p[..k + 1]) == Apply(regs, p[..k])[Slot(p[k].index) := p[k].value]
  {
    assert p[..k + 1][..k] == p[..k];
  }

  /** The number of `wss_wait` calls a run of indirect writes makes: two for each. */
  function Waits(p: seq<RegWrite>): nat
  {
    2 * |p|
  }

  /**
   * The trace of a run of indirect writes alternates index and data port:
   * write `i` puts its index at position `2i` and its value at `2i + 1`.
   */
  lemma {:induction false} ProgramWritesLayout(base: nat, p: seq<RegWrite>)
    ensures |ProgramWrites(base, p)| == 2 * |p|
    ensures forall i :: 0 <= i < |p| ==>
      && ProgramWrites(base, p)[2 * i] == PortWrite(base + IndexRegOffset, p[i].index)
      && ProgramWrites(base, p)[2 * i + 1] == PortWrite(base + IdataRegOffset, p[i].value)
    decreases |p|
  {
    if p != [] {
      var q := p[..|p| - 1];
      ProgramWritesLayout(base, q);
      forall i | 0 <= i < |p|
        ensures ProgramWrites(base, p)[2 * i] == PortWrite(base + IndexRegOffset, p[i].index)
        ensures ProgramWrites(base, p)[2 * i + 1] == PortWrite(base + IdataRegOffset, p[i].value)
      {
        if i < |q| {
          assert p[i] == q[i];
        }
      }
    }
  }

  /** No write after write `i` of `p` selects register `s`. */
  predicate LastSelecting(p: seq<RegWrite>, i: nat, s: nat)
  {
    forall j :: i < j < |p| ==> Slot(p[j].index) != s
  }

  /**
   * A register ends with the value of the last write that selects it, and
   * keeps its value when no write selects it.
   */
  lemma {:induction false} ApplyLastWrite(regs: seq<bv8>, p: seq<RegWrite>, s: nat)
    requires |regs| == 16 && s < 16
    ensures (forall i :: 0 <= i < |p| ==> Slot(p[i].index) != s) ==> Apply(regs, p)[s] == regs[s]
    ensures forall i :: 0 <= i < |p| && Slot(p[i].index) == s && LastSelecting(p, i, s) ==> Apply(regs, p)[s] == p[i].value
    decreases |p|
  {
    if p != [] {
      var q := p[..|p| - 1];
      var last := p[|p| - 1];
      ApplyLastWrite(regs, q, s);
      assert Apply(regs, p) == Apply(regs, q)[Slot(last.index) := last.value];
      forall i | 0 <= i < |p| && Slot(p[i].index) == s && LastSelecting(p, i, s)
        ensures Apply(regs, p)[s] == p[i].value
      {
        if i < |q| {
          assert Slot(p[|p| - 1].index) != s;
          assert q[i] == p[i];
          forall j | i < j < |q| ensures Slot(q[j].index) != s {
            assert q[j] == p[j];
          }
          assert Apply(regs, q)[s] == q[i].value;
          assert Apply(regs, p)[s] == Apply(regs, q)[s];
        } else {
          assert i == |p| - 1;
          assert Apply(regs, p)[s] == last.value;
        }
      }
      if forall i :: 0 <= i < |p| ==> Slot(p[i].index) != s {
        assert Slot(p[|p| - 1].index) != s;
        forall i | 0 <= i < |q| ensures Slot(q[i].index) != s {
          assert q[i] == p[i];
        }
        assert Apply(regs, q)[s] == regs[s];
        assert Apply(regs, p)[s] == Apply(regs, q)[s];
      }
    }
  }

  /**
   * After the program the codec holds each programmed value in the register
   * it was written to, and the registers it does not program keep theirs.
   */
  lemma PlaybackStartRegisters(regs: seq<bv8>, bufferSize: bv32)
    requires |regs| == 16
    ensures var p := PlaybackStartProgram(bufferSize);
      && (forall i :: 0 <= i < |p| ==> Apply(regs, p)[Slot(p[i].index)] == p[i].value)
      && Apply(regs, p)[Slot(TestInitReg)] == regs[Slot(TestInitReg)]
      && Apply(regs, p)[Slot(MiscReg)] == regs[Slot(MiscReg)]
  {
    var p := PlaybackStartProgram(bufferSize);
    PlaybackStartProgramShape(bufferSize);
    forall i | 0 <= i < |p| ensures Apply(regs, p)[Slot(p[i].index)] == p[i].value {
      ApplyLastWrite(regs, p, Slot(p[i].index));
    }
    ApplyLastWrite(regs, p, Slot(TestInitReg));
    ApplyLastWrite(regs, p, Slot(MiscReg));
  }

  /** Write `i` of `wss_playback_start` is what its register holds at the end. */
  lemma PlaybackStartWrite(regs: seq<bv8>, bufferSize: bv32, i: nat)
    requires |regs| == 16 && i < 14
    ensures var p := PlaybackStartProgram(bufferSize);
      Apply(regs, p)[Slot(p[i].index)] == p[i].value
  {
    PlaybackStartRegisters(regs, bufferSize);
  }

  /** The line inputs after `wss_playback_start`, by register name: gain 0 on both channels. */
  lemma PlaybackStartLineInRegisters(regs: seq<bv8>, bufferSize: bv32)
    requires |regs| == 16
    ensures var r := Apply(regs, PlaybackStartProgram(bufferSize));
      r[Slot(LadcReg)] == 0 && r[Slot(RadcReg)] == 0
  {
    var p := PlaybackStartProgram(bufferSize);
    PlaybackStartWrite(regs, bufferSize, 0);
    PlaybackStartWrite(regs, bufferSize, 1);
    assert p[1] == RegWrite(RadcReg, 0x00);
  }

  /** The auxiliary inputs after `wss_playback_start`, by register name: all four muted. */
  lemma PlaybackStartAuxRegisters(regs: seq<bv8>, bufferSize: bv32)
    requires |regs| == 16
    ensures var r := Apply(regs, PlaybackStartProgram(bufferSize));
      && r[Slot(Laux1Reg)] == AuxMuteBit && r[Slot(Raux1Reg)] == AuxMuteBit
      && r[Slot(Laux2Reg)] == AuxMuteBit && r[Slot(Raux2Reg)] == AuxMuteBit
  {
    PlaybackStartWrite(regs, bufferSize, 2);
    PlaybackStartWrite(regs, bufferSize, 3);
    PlaybackStartWrite(regs, bufferSize, 4);
    PlaybackStartWrite(regs, bufferSize, 5);
  }

  /**
   * The output side after `wss_playback_start`, by register name: DAC gain
   * 0 on both channels, loopback off and the interrupt pin enabled.
   */
  lemma PlaybackStartOutputRegisters(regs: seq<bv8>, bufferSize: bv32)
    requires |regs| == 16
    ensures var r := Apply(regs, PlaybackStartProgram(bufferSize));
      && r[Slot(LdacReg)] == 0 && r[Slot(RdacReg)] == 0 && r[Slot(MixReg)] == 0
      && r[Slot(PinReg)] == IenBit
  {
    PlaybackStartWrite(regs, bufferSize, 6);
    PlaybackStartWrite(regs, bufferSize, 7);
    PlaybackStartWrite(regs, bufferSize, 8);
    PlaybackStartWrite(regs, bufferSize, 9);
  }

  /**
   * The DMA count after `wss_playback_start`, by register name: the low and
   * high count registers put the count `BytesToDmaCount` back together.
   */
  lemma PlaybackStartCountRegisters(regs: seq<bv8>, bufferSize: bv32)
    requires |regs| == 16
    ensures var r := Apply(regs, PlaybackStartProgram(bufferSize));
      r[Slot(PlaybackLcntReg)] as bv32 + 0x100 * r[Slot(PlaybackUcntReg)] as bv32
        == BytesToDmaCount(bufferSize) % 0x1_0000
  {
    PlaybackStartWrite(regs, bufferSize, 10);
    PlaybackStartWrite(regs, bufferSize, 11);
    ByteSplit(BytesToDmaCount(bufferSize));
  }

  /**
   * The format registers after `wss_playback_start`, by name: data format
   * 0x5B and interface configuration 0x09 (PEN and ACAL); the test and
   * miscellaneous registers keep the values they had.
   */
  lemma PlaybackStartFormatRegisters(regs: seq<bv8>, bufferSize: bv32)
    requires |regs| == 16
    ensures var r := Apply(regs, PlaybackStartProgram(bufferSize));
      && r[Slot(FormatReg)] == 0x5B && r[Slot(ConfigReg)] == 0x09
      && r[Slot(TestInitReg)] == regs[Slot(TestInitReg)] && r[Slot(MiscReg)] == regs[Slot(MiscReg)]
  {
    PlaybackStartRegisters(regs, bufferSize);
    PlaybackStartWrite(regs, bufferSize, 12);
    PlaybackStartWrite(regs, bufferSize, 13);
  }

  /**
   * A run of `wss_playback_start` that stops before its last write leaves
   * the interface configuration register as it was: only write 13 selects
   * it.
   */
  lemma EarlyStopKeepsConfig(regs: seq<bv8>, bufferSize: bv32, k: nat)
    requires |regs| == 16 && k <= 13
    ensures Apply(regs, PlaybackStartProgram(bufferSize)[..k])[Slot(ConfigReg)] == regs[Slot(ConfigReg)]
  {
    var q := PlaybackStartProgram(bufferSize)[..k];
    PlaybackStartProgramShape(bufferSize);
    forall i | 0 <= i < |q| ensures Slot(q[i].index) != Slot(ConfigReg) {
      assert q[i] == PlaybackStartProgram(bufferSize)[i];
      assert Slot(PlaybackStartProgram(bufferSize)[13].index) == Slot(ConfigReg);
    }
    ApplyLastWrite(regs, q, Slot(ConfigReg));
  }

  /** Whether a status byte read from the index port shows the codec busy. */
  predicate Busy(status: bv8)
  {
    status & InitBit != 0
  }

  /** `reg &= ~WSS_PEN_BIT`: playback disabled, every other bit kept. */
  function PenCleared(r: bv8): (c: bv8)
    ensures !Bit(c, 0)
    ensures forall k: bv8 :: 1 <= k < 8 ==> Bit(c, k) == Bit(r, k)
  {
    r & !PenBit
  }

  /** `reg |= WSS_PEN_BIT`: playback enabled, every other bit kept. */
  function PenSet(r: bv8): (c: bv8)
    ensures Bit(c, 0)
    ensures forall k: bv8 :: 1 <= k < 8 ==> Bit(c, k) == Bit(r, k)
  {
    r | PenBit
  }

  /**
   * Stopping twice writes what stopping once does; stopping then continuing
   * gives the value read with PEN set, and the reverse order gives it with
   * PEN clear.
   */
  lemma StopContinueComposition(r: bv8)
    ensures PenCleared(PenCleared(r)) == PenCleared(r)
    ensures PenSet(PenCleared(r)) == r | PenBit
    ensures PenCleared(PenSet(r)) == r & !PenBit
  {
  }

  /** The `uint8_t` a `wss_read_indirect` caller passes the address of. */
  class ByteCell {
    var value: bv8

    constructor ()
      ensures value == 0
    {
      value := 0;
    }
  }

  /** The codec as the driver sees it through its two ports. */
  class Codec {
    /** The base I/O address; the driver's ports are at +4 and +5. */
    const base: nat
    /** The byte the n-th read of the index port returns. */
    const status: nat -> bv8
    /** How many times the index port has been read. */
    var polls: nat
    /** The index last written, which selects the indirect register. */
    var index: bv8
    /** The sixteen indirect registers. */
    var regs: seq<bv8>
    /** Every `outp` to the codec, in order. */
    var writes: seq<PortWrite>

    constructor (base: nat, status: nat -> bv8, regs: seq<bv8>)
      requires |regs| == 16
      ensures Valid()
      ensures this.base == base && this.status == status && this.regs == regs
      ensures polls == 0 && index == 0 && writes == []
    {
      this.base := base;
      this.status := status;
      this.regs := regs;
      polls := 0;
      index := 0;
      writes := [];
    }

    ghost predicate Valid()
      reads this
    {
      |regs| == 16
    }

    function IndexPort(): nat
    {
      base + IndexRegOffset
    }

    function DataPort(): nat
    {
      base + IdataRegOffset
    }

    /** Whether all the reads a full `wss_wait` makes from poll `start` on show the codec busy. */
    ghost predicate TimesOut(start: nat)
    {
      forall n :: start <= n <= start + TimeoutLoops ==> Busy(status(n))
    }

    /**
     * The first poll from `n` on, among those a `wss_wait` from poll `start`
     * makes, that shows the codec ready; one past the last of them when
     * none does.
     */
    ghost function FirstReady(start: nat, n: nat): (m: nat)
      requires start <= n <= start + TimeoutLoops + 1
      ensures n <= m <= start + TimeoutLoops + 1
      decreases start + TimeoutLoops + 1 - n
    {
      if n == start + TimeoutLoops + 1 then n
      else if !Busy(status(n)) then n
      else FirstReady(start, n + 1)
    }

    /** `FirstReady` is the first ready poll: every poll before it shows the codec busy. */
    lemma {:induction false} FirstReadyMeaning(start: nat, n: nat)
      requires start <= n <= start + TimeoutLoops + 1
      ensures FirstReady(start, n) <= start + TimeoutLoops ==> !Busy(status(FirstReady(start, n)))
      ensures forall j :: n <= j < FirstReady(start, n) ==> Busy(status(j))
      decreases start + TimeoutLoops + 1 - n
    {
      if n < start + TimeoutLoops + 1 && Busy(status(n)) {
        FirstReadyMeaning(start, n + 1);
      }
    }

    /**
     * The poll count after `n` calls of `wss_wait` in a row from poll
     * `start`, or `None` when one of them times out.
     */
    ghost function Reached(start: nat, n: nat): Option<nat>
      decreases n
    {
      if n == 0 then Some(start)
      else
        var m := FirstReady(start, start);
        if m > start + TimeoutLoops then None else Reached(m + 1, n - 1)
    }

    /** `a + b` waits in a row run the first `a`, then, if none timed out, the next `b`. */
    lemma {:induction false} ReachedSplit(start: nat, a: nat, b: nat)
      ensures Reached(start, a + b) ==
        if Reached(start, a).None? then None else Reached(Reached(start, a).value, b)
      decreases a
    {
      if a > 0 {
        var m := FirstReady(start, start);
        if m <= start + TimeoutLoops {
          ReachedSplit(m + 1, a - 1, b);
        }
      }
    }

    /** `outp(WSS_INDEX_REG, value)`. */
    method OutIndex(value: bv8)
      modifies this
      ensures writes == old(writes) + [PortWrite(IndexPort(), value)] && index == value
      ensures regs == old(regs) && polls == old(polls)
    {
      writes := writes + [PortWrite(IndexPort(), value)];
      index := value;
    }

    /** `outp(WSS_IDATA_REG, value)`: stored in the selected register. */
    method OutData(value: bv8)
      requires Valid()
      modifies this
      ensures writes == old(writes) + [PortWrite(DataPort(), value)]
      ensures regs == old(regs)[Slot(index) := value]
      ensures index == old(index) && polls == old(polls)
    {
      writes := writes + [PortWrite(DataPort(), value)];
      regs := regs[Slot(index) := value];
    }

    /** `inp(WSS_INDEX_REG)`: the next status byte. */
    method InIndex() returns (value: bv8)
      modifies this
      ensures value == status(old(polls)) && polls == old(polls) + 1
      ensures writes == old(writes) && regs == old(regs) && index == old(index)
    {
      value := status(polls);
      polls := polls + 1;
    }

    /** `inp(WSS_IDATA_REG)`: the selected register. */
    method InData() returns (value: bv8)
      requires Valid()
      ensures value == regs[Slot(index)]
    {
      value := regs[Slot(index)];
    }

    /**
     * `wss_wait`: poll the index port until INIT is clear, giving up with
     * `-ETIMEDOUT` after 10001 busy reads.
     */
    method Wait() returns (err: int)
      modifies this
      ensures err == 0 || err == -ETIMEDOUT
      ensures err == -ETIMEDOUT <==> TimesOut(old(polls))
      ensures err == -ETIMEDOUT ==> polls == old(polls) + TimeoutLoops + 1
      ensures err == 0 <==> Reached(old(polls), 1).Some?
      ensures err == 0 ==> Reached(old(polls), 1) == Some(polls)
      ensures err == 0 ==>
        && old(polls) < polls <= old(polls) + TimeoutLoops + 1
        && !Busy(status(polls - 1))
        && (forall n :: old(polls) <= n < polls - 1 ==> Busy(status(n)))
      ensures writes == old(writes) && regs == old(regs) && index == old(index)
    {
      err := 0;
      var timeout: int := TimeoutLoops;
      var s := InIndex();
      while Busy(s)
        invariant 0 <= timeout <= TimeoutLoops && err == 0
        invariant polls == old(polls) + (TimeoutLoops - timeout) + 1
        invariant s == status(polls - 1)
        invariant forall n :: old(polls) <= n < polls - 1 ==> Busy(status(n))
        invariant writes == old(writes) && regs == old(regs) && index == old(index)
        decreases timeout
      {
        if timeout == 0 {
          err := -ETIMEDOUT;
          break;
        }
        timeout := timeout - 1;
        s := InIndex();
      }
      FirstReadyMeaning(old(polls), old(polls));
    }

    /** `wss_read_indirect`: select the register, then read it without waiting. */
    method ReadIndirect(addr: bv8, data: ByteCell?) returns (err: int)
      requires Valid()
      modifies this, data
      ensures Valid()
      ensures data == null ==> err == -EINVAL && unchanged(this)
      ensures data != null ==>
        && err == 0
        && writes == old(writes) + [PortWrite(IndexPort(), addr)] && index == addr
        && data.value == regs[Slot(addr)]
        && regs == old(regs) && polls == old(polls)
    {
      if data == null {
        return -EINVAL;
      }
      OutIndex(addr);
      data.value := InData();
      return 0;
    }

    /**
     * `wss_write_indirect`: select the register and wait, then write the
     * value and wait. When the first wait times out the value is never
     * written.
     */
    method WriteIndirect(addr: bv8, value: bv8) returns (err: int)
      requires Valid()
      modifies this
      ensures Valid()
      ensures err == 0 || err == -ETIMEDOUT
      ensures index == addr && polls > old(polls)
      ensures err == 0 <==> Reached(old(polls), 2).Some?
      ensures err == 0 ==> Reached(old(polls), 2) == Some(polls)
      ensures TimesOut(old(polls)) ==>
        && err == -ETIMEDOUT
        && writes == old(writes) + [PortWrite(IndexPort(), addr)]
        && regs == old(regs)
      ensures !TimesOut(old(polls)) ==>
        && writes == old(writes) + IndirectWrites(base, RegWrite(addr, value))
        && regs == old(regs)[Slot(addr) := value]
    {
      OutIndex(addr);
      err := Wait();
      if err != 0 {
        return err;
      }
      OutData(value);
      err := Wait();
      if err != 0 {
        return err;
      }
      return 0;
    }

    /**
     * The first `k` writes of `p` have completed since the trace was `w0`,
     * the registers `r0` and the poll count `q0`: each found the codec
     * ready in both its waits.
     */
    ghost predicate Completed(w0: seq<PortWrite>, r0: seq<bv8>, q0: nat, p: seq<RegWrite>, k: nat)
      requires |r0| == 16 && k <= |p|
      reads this
    {
      && writes == w0 + ProgramWrites(base, p[..k]) && regs == Apply(r0, p[..k])
      && Reached(q0, Waits(p[..k])) == Some(polls)
    }

    /**
     * The run `p` from poll `q0` stopped in write `k`, after the first `k`
     * completed: one of the waits of write `k` timed out, its index went
     * out, and its data byte may or may not have; the registers hold the
     * writes whose data byte went out, applied to `r0`.
     */
    ghost predicate AbortedIn(w0: seq<PortWrite>, r0: seq<bv8>, q0: nat, p: seq<RegWrite>, k: nat)
      requires |r0| == 16 && k < |p|
      reads this
    {
      && Reached(q0, Waits(p[..k])).Some? && Reached(q0, Waits(p[..k + 1])).None?
      && (|| (&& writes == w0 + ProgramWrites(base, p[..k]) + [PortWrite(IndexPort(), p[k].index)]
              && regs == Apply(r0, p[..k]))
          || (&& writes == w0 + ProgramWrites(base, p[..k]) + IndirectWrites(base, p[k])
              && regs == Apply(r0, p[..k + 1])))
    }

    /**
     * Write `k` of the run `p`, after the first `k` completed: either it
     * completes too, or the run stops in it with `-ETIMEDOUT`.
     */
    method ProgramStep(ghost w0: seq<PortWrite>, ghost r0: seq<bv8>, ghost q0: nat, ghost p: seq<RegWrite>,
                       ghost k: nat, addr: bv8, value: bv8) returns (err: int)
      requires Valid() && |r0| == 16 && k < |p| && p[k] == RegWrite(addr, value)
      requires Completed(w0, r0, q0, p, k)
      modifies this
      ensures Valid()
      ensures err == 0 || err == -ETIMEDOUT
      ensures err != 0 ==> AbortedIn(w0, r0, q0, p, k)
      ensures err == 0 ==> Completed(w0, r0, q0, p, k + 1)
    {
      Extend(base, r0, p, k);
      ReachedSplit(q0, Waits(p[..k]), 2);
      err := WriteIndirect(addr, value);
    }

    /**
     * Writes 0 and 1 of `wss_playback_start`: line input gain and source.
     */
    method ConfigureLineIn(bufferSize: bv32, ghost w0: seq<PortWrite>, ghost r0: seq<bv8>, ghost q0: nat) returns (err: int, ghost done: nat)
      requires Valid() && |r0| == 16
      requires Completed(w0, r0, q0, PlaybackStartProgram(bufferSize), 0)
      modifies this
      ensures Valid()
      ensures err == 0 || err == -ETIMEDOUT
      ensures err == 0 ==> Completed(w0, r0, q0, PlaybackStartProgram(bufferSize), 2)
      ensures err != 0 ==> 0 <= done < 2 && AbortedIn(w0, r0, q0, PlaybackStartProgram(bufferSize), done)
    {
      ghost var p := PlaybackStartProgram(bufferSize);
      err := ProgramStep(w0, r0, q0, p, 0, LadcReg, 0x00);
      if err != 0 {
        return err, 0;
      }
      err := ProgramStep(w0, r0, q0, p, 1, RadcReg, 0x00);
      if err != 0 {
        return err, 1;
      }
      return 0, 2;
    }

    /**
     * Writes 2 and 3 of `wss_playback_start`: the first auxiliary input muted.
     */
    method ConfigureAux1(bufferSize: bv32, ghost w0: seq<PortWrite>, ghost r0: seq<bv8>, ghost q0: nat) returns (err: int, ghost done: nat)
      requires Valid() && |r0| == 16
      requires Completed(w0, r0, q0, PlaybackStartProgram(bufferSize), 2)
      modifies this
      ensures Valid()
      ensures err == 0 || err == -ETIMEDOUT
      ensures err == 0 ==> Completed(w0, r0, q0, PlaybackStartProgram(bufferSize), 4)
      ensures err != 0 ==> 2 <= done < 4 && AbortedIn(w0, r0, q0, PlaybackStartProgram(bufferSize), done)
    {
      ghost var p := PlaybackStartProgram(bufferSize);
      err := ProgramStep(w0, r0, q0, p, 2, Laux1Reg, AuxMuteBit);
      if err != 0 {
        return err, 2;
      }
      err := ProgramStep(w0, r0, q0, p, 3, Raux1Reg, AuxMuteBit);
      if err != 0 {
        return err, 3;
      }
      return 0, 4;
    }

    /**
     * Writes 4 and 5 of `wss_playback_start`: the second auxiliary input muted.
     */
    method ConfigureAux2(bufferSize: bv32, ghost w0: seq<PortWrite>, ghost r0: seq<bv8>, ghost q0: nat) returns (err: int, ghost done: nat)
      requires Valid() && |r0| == 16
      requires Completed(w0, r0, q0, PlaybackStartProgram(bufferSize), 4)
      modifies this
      ensures Valid()
      ensures err == 0 || err == -ETIMEDOUT
      ensures err == 0 ==> Completed(w0, r0, q0, PlaybackStartProgram(bufferSize), 6)
      ensures err != 0 ==> 4 <= done < 6 && AbortedIn(w0, r0, q0, PlaybackStartProgram(bufferSize), done)
    {
      ghost var p := PlaybackStartProgram(bufferSize);
      err := ProgramStep(w0, r0, q0, p, 4, Laux2Reg, AuxMuteBit);
      if err != 0 {
        return err, 4;
      }
      err := ProgramStep(w0, r0, q0, p, 5, Raux2Reg, AuxMuteBit);
      if err != 0 {
        return err, 5;
      }
      return 0, 6;
    }

    /**
     * Writes 6 and 7 of `wss_playback_start`: no DAC attenuation.
     */
    method ConfigureDacs(bufferSize: bv32, ghost w0: seq<PortWrite>, ghost r0: seq<bv8>, ghost q0: nat) returns (err: int, ghost done: nat)
      requires Valid() && |r0| == 16
      requires Completed(w0, r0, q0, PlaybackStartProgram(bufferSize), 6)
      modifies this
      ensures Valid()
      ensures err == 0 || err == -ETIMEDOUT
      ensures err == 0 ==> Completed(w0, r0, q0, PlaybackStartProgram(bufferSize), 8)
      ensures err != 0 ==> 6 <= done < 8 && AbortedIn(w0, r0, q0, PlaybackStartProgram(bufferSize), done)
    {
      ghost var p := PlaybackStartProgram(bufferSize);
      err := ProgramStep(w0, r0, q0, p, 6, LdacReg, 0x00);
      if err != 0 {
        return err, 6;
      }
      err := ProgramStep(w0, r0, q0, p, 7, RdacReg, 0x00);
      if err != 0 {
        return err, 7;
      }
      return 0, 8;
    }

    /**
     * Writes 8 and 9 of `wss_playback_start`: loopback off, interrupt pin
     * enabled.
     */
    method ConfigureMixAndPin(bufferSize: bv32, ghost w0: seq<PortWrite>, ghost r0: seq<bv8>, ghost q0: nat) returns (err: int, ghost done: nat)
      requires Valid() && |r0| == 16
      requires Completed(w0, r0, q0, PlaybackStartProgram(bufferSize), 8)
      modifies this
      ensures Valid()
      ensures err == 0 || err == -ETIMEDOUT
      ensures err == 0 ==> Completed(w0, r0, q0, PlaybackStartProgram(bufferSize), 10)
      ensures err != 0 ==> 8 <= done < 10 && AbortedIn(w0, r0, q0, PlaybackStartProgram(bufferSize), done)
    {
      ghost var p := PlaybackStartProgram(bufferSize);
      err := ProgramStep(w0, r0, q0, p, 8, MixReg, 0x00);
      if err != 0 {
        return err, 8;
      }
      err := ProgramStep(w0, r0, q0, p, 9, PinReg, IenBit);
      if err != 0 {
        return err, 9;
      }
      return 0, 10;
    }

    /**
     * Writes 10 and 11 of `wss_playback_start`: the DMA count, low byte first.
     */
    method ConfigureDmaCount(bufferSize: bv32, ghost w0: seq<PortWrite>, ghost r0: seq<bv8>, ghost q0: nat) returns (err: int, ghost done: nat)
      requires Valid() && |r0| == 16
      requires Completed(w0, r0, q0, PlaybackStartProgram(bufferSize), 10)
      modifies this
      ensures Valid()
      ensures err == 0 || err == -ETIMEDOUT
      ensures err == 0 ==> Completed(w0, r0, q0, PlaybackStartProgram(bufferSize), 12)
      ensures err != 0 ==> 10 <= done < 12 && AbortedIn(w0, r0, q0, PlaybackStartProgram(bufferSize), done)
    {
      ghost var p := PlaybackStartProgram(bufferSize);
      var count := BytesToDmaCount(bufferSize);
      err := ProgramStep(w0, r0, q0, p, 10, PlaybackLcntReg, LoByte(count));
      if err != 0 {
        return err, 10;
      }
      err := ProgramStep(w0, r0, q0, p, 11, PlaybackUcntReg, HiByte(count));
      if err != 0 {
        return err, 11;
      }
      return 0, 12;
    }

    /**
     * Writes 12 and 13 of `wss_playback_start`: the data format and the
     * interface configuration, both with MCE set.
     */
    method ConfigureFormat(bufferSize: bv32, ghost w0: seq<PortWrite>, ghost r0: seq<bv8>, ghost q0: nat) returns (err: int, ghost done: nat)
      requires Valid() && |r0| == 16
      requires Completed(w0, r0, q0, PlaybackStartProgram(bufferSize), 12)
      modifies this
      ensures Valid()
      ensures err == 0 || err == -ETIMEDOUT
      ensures err == 0 ==> Completed(w0, r0, q0, PlaybackStartProgram(bufferSize), 14)
      ensures err != 0 ==> 12 <= done < 14 && AbortedIn(w0, r0, q0, PlaybackStartProgram(bufferSize), done)
    {
      ghost var p := PlaybackStartProgram(bufferSize);
      err := ProgramStep(w0, r0, q0, p, 12, FormatReg | MceBit, FmtBit | SMBit | Cfs2Bit | Cfs0Bit | CssBit);
      if err != 0 {
        return err, 12;
      }
      err := ProgramStep(w0, r0, q0, p, 13, ConfigReg | MceBit, PenBit | AcalBit);
      if err != 0 {
        return err, 13;
      }
      return 0, 14;
    }

    /**
     * Writes 0 to 5 of `wss_playback_start`: the input side.
     */
    method ConfigureInputs(bufferSize: bv32, ghost w0: seq<PortWrite>, ghost r0: seq<bv8>, ghost q0: nat) returns (err: int, ghost done: nat)
      requires Valid() && |r0| == 16
      requires Completed(w0, r0, q0, PlaybackStartProgram(bufferSize), 0)
      modifies this
      ensures Valid()
      ensures err == 0 || err == -ETIMEDOUT
      ensures err == 0 ==> Completed(w0, r0, q0, PlaybackStartProgram(bufferSize), 6)
      ensures err != 0 ==> 0 <= done < 6 && AbortedIn(w0, r0, q0, PlaybackStartProgram(bufferSize), done)
    {
      err, done := ConfigureLineIn(bufferSize, w0, r0, q0);
      if err != 0 {
        return;
      }
      err, done := ConfigureAux1(bufferSize, w0, r0, q0);
      if err != 0 {
        return;
      }
      err, done := ConfigureAux2(bufferSize, w0, r0, q0);
      if err != 0 {
        return;
      }
      return 0, 6;
    }

    /**
     * Writes 6 to 9 of `wss_playback_start`: the output side.
     */
    method ConfigureOutputs(bufferSize: bv32, ghost w0: seq<PortWrite>, ghost r0: seq<bv8>, ghost q0: nat) returns (err: int, ghost done: nat)
      requires Valid() && |r0| == 16
      requires Completed(w0, r0, q0, PlaybackStartProgram(bufferSize), 6)
      modifies this
      ensures Valid()
      ensures err == 0 || err == -ETIMEDOUT
      ensures err == 0 ==> Completed(w0, r0, q0, PlaybackStartProgram(bufferSize), 10)
      ensures err != 0 ==> 6 <= done < 10 && AbortedIn(w0, r0, q0, PlaybackStartProgram(bufferSize), done)
    {
      err, done := ConfigureDacs(bufferSize, w0, r0, q0);
      if err != 0 {
        return;
      }
      err, done := ConfigureMixAndPin(bufferSize, w0, r0, q0);
      if err != 0 {
        return;
      }
      return 0, 10;
    }

    /**
     * Writes 10 to 13 of `wss_playback_start`: the transfer itself.
     */
    method ConfigurePlayback(bufferSize: bv32, ghost w0: seq<PortWrite>, ghost r0: seq<bv8>, ghost q0: nat) returns (err: int, ghost done: nat)
      requires Valid() && |r0| == 16
      requires Completed(w0, r0, q0, PlaybackStartProgram(bufferSize), 10)
      modifies this
      ensures Valid()
      ensures err == 0 || err == -ETIMEDOUT
      ensures err == 0 ==> Completed(w0, r0, q0, PlaybackStartProgram(bufferSize), 14)
      ensures err != 0 ==> 10 <= done < 14 && AbortedIn(w0, r0, q0, PlaybackStartProgram(bufferSize), done)
    {
      err, done := ConfigureDmaCount(bufferSize, w0, r0, q0);
      if err != 0 {
        return;
      }
      err, done := ConfigureFormat(bufferSize, w0, r0, q0);
      if err != 0 {
        return;
      }
      return 0, 14;
    }

    /**
     * `wss_playback_start`: the fourteen indirect writes in order, stopping
     * at the first that times out, then the index port write that clears
     * MCE and selects the test and initialisation register. The wait for
     * auto-calibration that follows is not part of this model.
     */
    method PlaybackStart(bufferSize: bv32) returns (err: int, ghost done: nat)
      requires Valid()
      modifies this
      ensures Valid()
      ensures err == 0 || err == -ETIMEDOUT
      ensures done <= 14
      ensures err == 0 <==> Reached(old(polls), 28).Some?
      ensures err == 0 ==>
        && done == 14 && Reached(old(polls), 28) == Some(polls)
        && writes == old(writes) + ProgramWrites(base, PlaybackStartProgram(bufferSize)) + [PortWrite(IndexPort(), TestInitReg)]
        && regs == Apply(old(regs), PlaybackStartProgram(bufferSize))
        && index == TestInitReg
      ensures err != 0 ==> done < 14 && AbortedIn(old(writes), old(regs), old(polls), PlaybackStartProgram(bufferSize), done)
    {
      ghost var p := PlaybackStartProgram(bufferSize);
      ghost var w0 := writes;
      ghost var r0 := regs;
      ghost var q0 := polls;
      assert p[..0] == [];
      err, done := ConfigureInputs(bufferSize, w0, r0, q0);
      if err != 0 {
        ReachedSplit(q0, Waits(p[..done + 1]), Waits(p[done + 1..]));
        return;
      }
      err, done := ConfigureOutputs(bufferSize, w0, r0, q0);
      if err != 0 {
        ReachedSplit(q0, Waits(p[..done + 1]), Waits(p[done + 1..]));
        return;
      }
      err, done := ConfigurePlayback(bufferSize, w0, r0, q0);
      if err != 0 {
        ReachedSplit(q0, Waits(p[..done + 1]), Waits(p[done + 1..]));
        return;
      }
      assert p[..14] == p;
      OutIndex(TestInitReg);
      return 0, 14;
    }

    /** `wss_playback_stop`: read the configuration and write it back with PEN clear. */
    method PlaybackStop() returns (err: int)
      requires Valid()
      modifies this
      ensures Valid()
      ensures err == 0 || err == -ETIMEDOUT
      ensures err == 0 <==> Reached(old(polls), 2).Some?
      ensures var r := old(regs)[Slot(ConfigReg)];
        && (TimesOut(old(polls)) ==>
              && err == -ETIMEDOUT && regs == old(regs)
              && writes == old(writes) + [PortWrite(IndexPort(), ConfigReg), PortWrite(IndexPort(), ConfigReg)])
        && (!TimesOut(old(polls)) ==>
              && regs == old(regs)[Slot(ConfigReg) := PenCleared(r)]
              && writes == old(writes) + [PortWrite(IndexPort(), ConfigReg)]
                 + IndirectWrites(base, RegWrite(ConfigReg, PenCleared(r))))
    {
      var reg := new ByteCell();
      err := ReadIndirect(ConfigReg, reg);
      if err != 0 {
        return err;
      }
      reg.value := reg.value & !PenBit;
      err := WriteIndirect(ConfigReg, reg.value);
      if err != 0 {
        return err;
      }
      return 0;
    }

    /** `wss_playback_continue`: read the configuration and write it back with PEN set. */
    method PlaybackContinue() returns (err: int)
      requires Valid()
      modifies this
      ensures Valid()
      ensures err == 0 || err == -ETIMEDOUT
      ensures err == 0 <==> Reached(old(polls), 2).Some?
      ensures var r := old(regs)[Slot(ConfigReg)];
        && (TimesOut(old(polls)) ==>
              && err == -ETIMEDOUT && regs == old(regs)
              && writes == old(writes) + [PortWrite(IndexPort(), ConfigReg), PortWrite(IndexPort(), ConfigReg)])
        && (!TimesOut(old(polls)) ==>
              && regs == old(regs)[Slot(ConfigReg) := PenSet(r)]
              && writes == old(writes) + [PortWrite(IndexPort(), ConfigReg)]
                 + IndirectWrites(base, RegWrite(ConfigReg, PenSet(r))))
    {
      var reg := new ByteCell();
      err := ReadIndirect(ConfigReg, reg);
      if err != 0 {
        return err;
      }
      reg.value := reg.value | PenBit;
      err := WriteIndirect(ConfigReg, reg.value);
      if err != 0 {
        return err;
      }
      return 0;
    }
  }
}
