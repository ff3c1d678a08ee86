/**
 * Installing and removing the codec's interrupt handler (IRQ.C): the
 * interrupt vector table, the master PIC's mask register and the saved
 * previous handler `old_isr`.
 */
module Irq {
  import opened Utils

  /** Hardware line 0 is interrupt vector 8. */
  const HwInterruptsOffset := 8

  /** The far address of an interrupt service routine, as the vector table holds it. */
  type Handler = nat

  /** The interrupt vector of hardware line `irq`. */
  function Vector(irq: bv8): nat
  {
    irq as int + HwInterruptsOffset
  }

  /**
   * `reg &= ~(1 << irq_num)` on the `uint8_t` mask, where a set bit disables
   * a line: for a line of 8 or more the shifted bit lies outside the byte
   * and the mask is unchanged.
   */
  function Unmask(mask: bv8, irq: bv8): bv8
  {
    if irq < 8 then mask & !(1 << irq) else mask
  }

  /** `reg |= (1 << irq_num)` on the `uint8_t` mask. */
  function Mask(mask: bv8, irq: bv8): bv8
  {
    if irq < 8 then mask | (1 << irq) else mask
  }

  /** Unmasking clears exactly the line's bit and keeps every other bit. */
  lemma UnmaskClearsOnlyLine(mask: bv8, irq: bv8)
    ensures forall k: bv8 :: k < 8 ==> Bit(Unmask(mask, irq), k) == (k != irq && Bit(mask, k))
  {
  }

  /** Masking sets exactly the line's bit and keeps every other bit. */
  lemma MaskSetsOnlyLine(mask: bv8, irq: bv8)
    ensures forall k: bv8 :: k < 8 ==> Bit(Mask(mask, irq), k) == (k == irq || Bit(mask, k))
  {
  }

  /** What IRQ.C changes: the vector table, the PIC mask and `old_isr`. */
  datatype IrqState = IrqState(vectors: map<nat, Handler>, mask: bv8, oldIsr: Handler)

  /** The state after `irq_init(irq, isr)`. */
  function Installed(s: IrqState, irq: bv8, isr: Handler): (r: IrqState)
    requires Vector(irq) in s.vectors
  {
    IrqState(s.vectors[Vector(irq) := isr], Unmask(s.mask, irq), s.vectors[Vector(irq)])
  }

  /** The state after `irq_release(irq)`. */
  function Released(s: IrqState, irq: bv8): (r: IrqState)
  {
    IrqState(s.vectors[Vector(irq) := s.oldIsr], Mask(s.mask, irq), s.oldIsr)
  }

  /**
   * `irq_init` saves the line's vector in `old_isr` before installing the
   * handler there, leaves every other vector alone, and unmasks the line
   * and nothing else.
   */
  lemma InstalledMeaning(s: IrqState, irq: bv8, isr: Handler)
    requires Vector(irq) in s.vectors
    ensures var r := Installed(s, irq, isr);
      && r.oldIsr == s.vectors[Vector(irq)]
      && r.vectors.Keys == s.vectors.Keys && r.vectors[Vector(irq)] == isr
      && (forall v :: v in s.vectors && v != Vector(irq) ==> r.vectors[v] == s.vectors[v])
      && (forall k: bv8 :: k < 8 ==> Bit(r.mask, k) == (k != irq && Bit(s.mask, k)))
  {
    UnmaskClearsOnlyLine(s.mask, irq);
  }

  /** For a line of 8 or more both operations write the mask back unchanged. */
  lemma HighLineKeepsMask(s: IrqState, irq: bv8, isr: Handler)
    requires Vector(irq) in s.vectors && irq >= 8
    ensures Installed(s, irq, isr).mask == s.mask && Released(s, irq).mask == s.mask
  {
  }

  /**
   * `irq_init` then `irq_release` restores the whole vector table, and
   * leaves the line masked with every other line as it was.
   */
  lemma InitThenReleaseRestores(s: IrqState, irq: bv8, isr: Handler)
    requires Vector(irq) in s.vectors
    ensures var r := Released(Installed(s, irq, isr), irq);
      && r.vectors == s.vectors
      && (forall k: bv8 :: k < 8 ==> Bit(r.mask, k) == (k == irq || Bit(s.mask, k)))
  {
    var i := Installed(s, irq, isr);
    UnmaskClearsOnlyLine(s.mask, irq);
    MaskSetsOnlyLine(i.mask, irq);
  }

  /**
   * A second `irq_init` overwrites `old_isr`, so the release after it
   * reinstalls the first installed handler, not the original vector.
   */
  lemma SecondInitLosesOriginal(s: IrqState, irq: bv8, first: Handler, second: Handler)
    requires Vector(irq) in s.vectors
    ensures Released(Installed(Installed(s, irq, first), irq, second), irq).vectors[Vector(irq)] == first
  {
  }

  /** The interrupt state the driver changes, updated in place. */
  class Interrupts {
    var vectors: map<nat, Handler>
    var picMask: bv8
    var oldIsr: Handler

    constructor (vectors: map<nat, Handler>, picMask: bv8)
      ensures this.vectors == vectors && this.picMask == picMask && oldIsr == 0
    {
      this.vectors := vectors;
      this.picMask := picMask;
      oldIsr := 0;
    }

    function Snapshot(): IrqState
      reads this
    {
      IrqState(vectors, picMask, oldIsr)
    }

    /** `irq_init`: save and replace the vector, then unmask the line at the PIC. */
    method Init(irq: bv8, isr: Handler)
      requires Vector(irq) in vectors
      modifies this
      ensures Snapshot() == Installed(old(Snapshot()), irq, isr)
    {
      oldIsr := vectors[Vector(irq)];
      vectors := vectors[Vector(irq) := isr];
      var reg := picMask;
      reg := Unmask(reg, irq);
      picMask := reg;
    }

    /** `irq_release`: mask the line at the PIC, then restore the saved vector. */
    method Release(irq: bv8)
      modifies this
      ensures Snapshot() == Released(old(Snapshot()), irq)
    {
      var reg := picMask;
      reg := Mask(reg, irq);
      picMask := reg;
      vectors := vectors[Vector(irq) := oldIsr];
    }
  }
}
