/**
 * The driver's arithmetic helpers (UTILS.H) and the error numbers it
 * returns (ERRNO.H), with the C unsigned widths the driver computes in.
 */
module Utils {

  /** C `uint8_t`, `uint16_t` and `uint32_t` values. */
  type U8 = x: int | 0 <= x < 0x100
  type U16 = x: int | 0 <= x < 0x1_0000
  type U32 = x: int | 0 <= x < 0x1_0000_0000

  /** A C pointer that may be NULL, or a result that may be missing. */
  datatype Option<T> = None | Some(value: T)

  /** One `outp(port, value)` call: a byte written to an I/O port. */
  datatype PortWrite = PortWrite(port: nat, value: bv8)

  /** Unsigned 32-bit wrap-around, as C does for `uint32_t` arithmetic. */
  function Wrap32(x: int): (r: U32)
    ensures 0 <= x < 0x1_0000_0000 ==> r == x
    ensures x < 0 && -0x1_0000_0000 <= x ==> r == x + 0x1_0000_0000
    ensures 0x1_0000_0000 <= x < 0x2_0000_0000 ==> r == x - 0x1_0000_0000
  {
    x % 0x1_0000_0000
  }

  /** `MIN(x, y)`: the first argument when it is strictly smaller, else the second. */
  function Min(x: int, y: int): (r: int)
    ensures r <= x && r <= y
    ensures r == x || r == y
  {
    if x < y then x else y
  }

  /** `HI_BYTE(x)`: bits 8 to 15 of an unsigned value. */
  function HiByte(x: bv32): bv8
  {
    ((x >> 8) & 0xFF) as bv8
  }

  /** `LO_BYTE(x)`: bits 0 to 7 of an unsigned value. */
  function LoByte(x: bv32): bv8
  {
    (x & 0xFF) as bv8
  }

  /** Bit `k` of a byte register. */
  predicate Bit(b: bv8, k: bv8)
    requires k < 8
  {
    (b >> k) & 1 == 1
  }

  /** `ARRAY_COUNT(a)`: the number of elements of a fixed table. */
  function ArrayCount<T>(a: seq<T>): nat
  {
    |a|
  }

  /**
   * The two bytes that every 16-bit port write is split into put the value
   * back together, low byte first: the round trip the DMA and codec
   * drivers rely on.
   */
  lemma ByteSplit(x: bv32)
    ensures LoByte(x) as bv32 + 0x100 * HiByte(x) as bv32 == x % 0x1_0000
  {
  }

  /** Splitting a value given as two bytes recovers those bytes. */
  lemma ByteJoin(lo: bv8, hi: bv8)
    ensures LoByte(lo as bv32 + 0x100 * hi as bv32) == lo
    ensures HiByte(lo as bv32 + 0x100 * hi as bv32) == hi
  {
  }
}

/** The error numbers of ERRNO.H; the driver returns their negations. */
module Errno {
  const ENOENT := 2
  const EIO := 5
  const ENOMEM := 12
  const EINVAL := 22
  const ETIMEDOUT := 110
}
