/**
 * ISA DMA channel programming (DMA.C). Each operation is a fixed sequence
 * of `outp` calls to the 8237 controller of channels 0 to 3; the model
 * keeps the controller's port writes as a trace.
 */
module Dma {
  import opened Utils
  import opened Errno

  /** Controller registers shared by channels 0 to 3. */
  const MaskReg := 0x0A
  const ModeReg := 0x0B
  const ClearFlipFlopReg := 0x0C

  /** Bit 2 of a mask-register write masks the channel in bits 0 and 1. */
  const MaskChannelBit: bv8 := 0x04
  /** Single transfer, address increment, auto-initialisation, read from memory. */
  const ModeAutoinitRead: bv8 := 0x58

  /** Per-channel port lookup tables for channels 0 to 3. */
  const PagePort: seq<nat> := [0x87, 0x83, 0x81, 0x82]
  const OffsetPort: seq<nat> := [0x00, 0x02, 0x04, 0x06]
  const CountPort: seq<nat> := [0x01, 0x03, 0x05, 0x07]

  /** The channel check of both operations: `channel < ARRAY_COUNT(dma_page_port)`. */
  predicate ValidChannel(channel: bv8)
  {
    channel as int < ArrayCount(PagePort)
  }

  /** The writes `dma_autoinit_start` makes for a valid channel, in order. */
  function AutoinitWrites(channel: bv8, page: bv8, offset: bv16, length: bv32): seq<PortWrite>
    requires ValidChannel(channel)
  {
    var count := length - 1;
    var c := channel as int;
    [ PortWrite(MaskReg, MaskChannelBit | channel),
      PortWrite(ClearFlipFlopReg, 0x00),
      PortWrite(ModeReg, ModeAutoinitRead | channel),
      PortWrite(OffsetPort[c], LoByte(offset as bv32)),
      PortWrite(OffsetPort[c], HiByte(offset as bv32)),
      PortWrite(PagePort[c], page),
      PortWrite(CountPort[c], LoByte(count)),
      PortWrite(CountPort[c], HiByte(count)),
      PortWrite(MaskReg, channel) ]
  }

  /** The writes `dma_release` makes for a valid channel, in order. */
  function ReleaseWrites(channel: bv8): seq<PortWrite>
    requires ValidChannel(channel)
  {
    [ PortWrite(MaskReg, MaskChannelBit | channel),
      PortWrite(ClearFlipFlopReg, 0x00),
      PortWrite(MaskReg, channel) ]
  }

  /**
   * Whether `channel` is masked after the writes `w`, starting from
   * `masked`: a write to the single-channel mask register whose low two
   * bits select the channel sets its mask to the write's bit 2.
   */
  function MaskedAfter(w: seq<PortWrite>, channel: bv8, masked: bool): bool
    decreases |w|
  {
    if w == [] then masked
    else
      var selects := w[0].port == MaskReg && w[0].value & 0x03 == channel;
      MaskedAfter(w[1..], channel, if selects then w[0].value & MaskChannelBit != 0 else masked)
  }

  /** The mask state after two traces is the second one's, run from the first one's. */
  lemma {:induction false} MaskedAfterAppend(a: seq<PortWrite>, b: seq<PortWrite>, channel: bv8, masked: bool)
    ensures MaskedAfter(a + b, channel, masked) == MaskedAfter(b, channel, MaskedAfter(a, channel, masked))
    decreases |a|
  {
    if a == [] {
      assert a + b == b;
    } else {
      var selects := a[0].port == MaskReg && a[0].value & 0x03 == channel;
      var next := if selects then a[0].value & MaskChannelBit != 0 else masked;
      assert (a + b)[1..] == a[1..] + b;
      MaskedAfterAppend(a[1..], b, channel, next);
    }
  }

  /**
   * Each port table has four entries, so the channel check admits exactly
   * channels 0 to 3, and every table lookup it guards is in range.
   */
  lemma ValidChannelIff(channel: bv8)
    ensures ArrayCount(PagePort) == |OffsetPort| == |CountPort| == 4
    ensures ValidChannel(channel) <==> channel < 4
  {
  }

  /** A valid channel number occupies only the two channel-select bits. */
  lemma ValidChannelBits(channel: bv8)
    requires ValidChannel(channel)
    ensures channel < 4 && channel & 0x03 == channel
  {
  }

  /**
   * `dma_autoinit_start` for a valid channel: nine writes, in the order
   * mask, clear flip-flop, mode, offset low and high, page, count low and
   * high, unmask. The first write selects the channel with the mask bit set,
   * the mode write selects it under mode `0x58`, and the last selects it
   * with the mask bit clear.
   */
  lemma AutoinitWritesOrder(channel: bv8, page: bv8, offset: bv16, length: bv32)
    requires ValidChannel(channel)
    ensures var w := AutoinitWrites(channel, page, offset, length);
      && |w| == 9
      && w[0] == PortWrite(MaskReg, MaskChannelBit | channel)
      && w[0].port == MaskReg && w[0].value & 0x03 == channel && w[0].value & MaskChannelBit != 0
      && w[1] == PortWrite(ClearFlipFlopReg, 0)
      && w[2].port == ModeReg && w[2].value & 0x03 == channel && w[2].value & 0xFC == 0x58
      && w[5] == PortWrite(PagePort[channel as int], page)
      && w[8] == PortWrite(MaskReg, channel)
      && w[8].port == MaskReg && w[8].value & 0x03 == channel && w[8].value & MaskChannelBit == 0
  {
    ValidChannelBits(channel);
  }

  /** The offset goes to port `2 * channel` and the count to port `2 * channel + 1`. */
  lemma AutoinitWritesPorts(channel: bv8, page: bv8, offset: bv16, length: bv32)
    requires ValidChannel(channel)
    ensures var w := AutoinitWrites(channel, page, offset, length);
      && w[3].port == w[4].port == 2 * channel as int
      && w[6].port == w[7].port == 2 * channel as int + 1
  {
    var c := channel as int;
    assert c == 0 || c == 1 || c == 2 || c == 3;
  }

  /** The two offset bytes, low then high, put `offset` back together. */
  lemma AutoinitOffsetBytes(channel: bv8, page: bv8, offset: bv16, length: bv32)
    requires ValidChannel(channel)
    ensures var w := AutoinitWrites(channel, page, offset, length);
      w[3].value as bv32 + 0x100 * w[4].value as bv32 == offset as bv32
  {
    ByteSplit(offset as bv32);
  }

  /** The two count bytes, low then high, put `(length - 1) mod 65536` back together. */
  lemma AutoinitCountBytes(channel: bv8, page: bv8, offset: bv16, length: bv32)
    requires ValidChannel(channel)
    ensures var w := AutoinitWrites(channel, page, offset, length);
      w[6].value as bv32 + 0x100 * w[7].value as bv32 == (length - 1) % 0x1_0000
  {
    var w := AutoinitWrites(channel, page, offset, length);
    assert w[6].value == LoByte(length - 1) && w[7].value == HiByte(length - 1);
    ByteSplit(length - 1);
  }

  /** Programming a whole 32768-byte buffer writes the count bytes `0xFF`, `0x7F`. */
  lemma FullBufferCount(channel: bv8, page: bv8, offset: bv16)
    requires ValidChannel(channel)
    ensures AutoinitWrites(channel, page, offset, 32768)[6].value == 0xFF
    ensures AutoinitWrites(channel, page, offset, 32768)[7].value == 0x7F
  {
  }

  /**
   * Whatever the controller did before, `dma_autoinit_start` keeps the
   * channel masked from its first write until its last, which unmasks it.
   */
  lemma AutoinitMasksWhileProgramming(before: seq<PortWrite>, masked: bool,
                                      channel: bv8, page: bv8, offset: bv16, length: bv32)
    requires ValidChannel(channel)
    ensures forall k :: 1 <= k < 9 ==>
      MaskedAfter(before + AutoinitWrites(channel, page, offset, length)[..k], channel, masked)
    ensures !MaskedAfter(before + AutoinitWrites(channel, page, offset, length), channel, masked)
  {
    var w := AutoinitWrites(channel, page, offset, length);
    ValidChannelBits(channel);
    AutoinitWritesOrder(channel, page, offset, length);
    var m := MaskedAfter(before, channel, masked);
    forall k | 1 <= k < 9
      ensures MaskedAfter(before + w[..k], channel, masked)
    {
      MaskedAfterAppend(before, w[..k], channel, masked);
      MaskedAfterAppend(w[..1], w[1..k], channel, m);
      assert w[..1] + w[1..k] == w[..k];
      assert MaskedAfter(w[..1], channel, m);
      assert forall i :: 1 <= i < k ==> w[i].port != MaskReg;
      NoMaskWrites(w[1..k], channel, true);
    }
    MaskedAfterAppend(before, w, channel, masked);
    MaskedAfterAppend(w[..8], w[8..], channel, m);
    assert w[..8] + w[8..] == w;
  }

  /** A trace whose last write selects the channel decides its mask from that write alone. */
  lemma LastMaskWriteDecides(w: seq<PortWrite>, channel: bv8, masked: bool)
    requires |w| > 0 && w[|w| - 1].port == MaskReg && w[|w| - 1].value & 0x03 == channel
    ensures MaskedAfter(w, channel, masked) == (w[|w| - 1].value & MaskChannelBit != 0)
  {
    var n := |w| - 1;
    MaskedAfterAppend(w[..n], [w[n]], channel, masked);
    assert w[..n] + [w[n]] == w;
  }

  /**
   * `dma_release` masks the channel and then unmasks it again: the channel
   * ends unmasked, not inert.
   */
  lemma ReleaseEndsUnmasked(before: seq<PortWrite>, masked: bool, channel: bv8)
    requires ValidChannel(channel)
    ensures MaskedAfter(before + ReleaseWrites(channel)[..1], channel, masked)
    ensures !MaskedAfter(before + ReleaseWrites(channel), channel, masked)
  {
    var w := ReleaseWrites(channel);
    ValidChannelBits(channel);
    LastMaskWriteDecides(before + w[..1], channel, masked);
    LastMaskWriteDecides(before + w, channel, masked);
  }

  /** Writes that never reach the mask register leave every mask as it was. */
  lemma {:induction false} NoMaskWrites(w: seq<PortWrite>, channel: bv8, masked: bool)
    requires forall i :: 0 <= i < |w| ==> w[i].port != MaskReg
    ensures MaskedAfter(w, channel, masked) == masked
    decreases |w|
  {
    if w != [] {
      NoMaskWrites(w[1..], channel, masked);
    }
  }

  /** The DMA controller as the trace of `outp` calls made to it. */
  class Controller {
    var writes: seq<PortWrite>

    constructor ()
      ensures writes == []
    {
      writes := [];
    }

    /** `outp(port, value)`. */
    method Out(port: nat, value: bv8)
      modifies this
      ensures writes == old(writes) + [PortWrite(port, value)]
    {
      writes := writes + [PortWrite(port, value)];
    }

    /** `dma_autoinit_start`: an invalid channel is rejected before any write. */
    method AutoinitStart(channel: bv8, page: bv8, offset: bv16, length: bv32) returns (err: int)
      modifies this
      ensures !ValidChannel(channel) ==> err == -EINVAL && writes == old(writes)
      ensures ValidChannel(channel) ==>
        err == 0 && writes == old(writes) + AutoinitWrites(channel, page, offset, length)
    {
      if channel as int >= ArrayCount(PagePort) {
        return -EINVAL;
      }
      var c := channel as int;
      Out(MaskReg, MaskChannelBit | channel);
      Out(ClearFlipFlopReg, 0x00);
      Out(ModeReg, ModeAutoinitRead | channel);
      Out(OffsetPort[c], LoByte(offset as bv32));
      Out(OffsetPort[c], HiByte(offset as bv32));
      Out(PagePort[c], page);
      Out(CountPort[c], LoByte(length - 1));
      Out(CountPort[c], HiByte(length - 1));
      Out(MaskReg, channel);
      return 0;
    }

    /** `dma_release`: an invalid channel is rejected before any write. */
    method Release(channel: bv8) returns (err: int)
      modifies this
      ensures !ValidChannel(channel) ==> err == -EINVAL && writes == old(writes)
      ensures ValidChannel(channel) ==> err == 0 && writes == old(writes) + ReleaseWrites(channel)
    {
      if channel as int >= ArrayCount(PagePort) {
        return -EINVAL;
      }
      Out(MaskReg, MaskChannelBit | channel);
      Out(ClearFlipFlopReg, 0x00);
      Out(MaskReg, channel);
      return 0;
    }
  }
}
