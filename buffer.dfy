/**
 * DMA-safe buffer allocation (BUFFER.C). A real-mode far pointer is turned
 * into a 20-bit linear address, which the ISA DMA controller sees as a
 * 64 KiB page number and an offset inside that page; a transfer block must
 * not cross a page boundary. `malloc` and `free` are an allocator oracle.
 */
module Buffer {
  import opened Utils
  import opened Errno

  /** `BUFFER_SIZE_BYTES`: the size of the whole double buffer. */
  const BufferSizeBytes := 32768
  /** The size of one ISA DMA page. */
  const PageSize := 0x1_0000

  /** A real-mode far pointer `segment:offset`. */
  datatype FarPtr = FarPtr(segment: U16, offset: U16)

  /** `buffer_to_linear`: `(segment << 4) + offset`, computed in 32 bits. */
  function ToLinear(p: FarPtr): (r: U32)
    ensures r == p.segment * 16 + p.offset
    ensures r <= 0x10_FFEF
  {
    Wrap32(p.segment * 0x10 + p.offset)
  }

  /** The linear address of a possibly NULL pointer (NULL is `0000:0000`). */
  function LinearOf(p: Option<FarPtr>): U32
  {
    if p.Some? then ToLinear(p.value) else 0
  }

  /** `start_page`: the page of the first byte, stored in a `uint16_t`. */
  function StartPage(linear: U32): U16
  {
    (linear / PageSize) % 0x1_0000
  }

  /** `end_page`: the page of the last byte, `linear + size - 1` in 32 bits. */
  function EndPage(linear: U32): U16
  {
    (Wrap32(linear + BufferSizeBytes - 1) / PageSize) % 0x1_0000
  }

  /** `buffer->page`: `linear >> 16` stored in a `uint8_t`. */
  function PageOf(linear: U32): U8
  {
    (linear / PageSize) % 0x100
  }

  /** `buffer->offset`: `linear & 0xFFFF`. */
  function OffsetInPage(linear: U32): U16
  {
    linear % PageSize
  }

  /**
   * For any far pointer, the page and offset that `buffer_allocate` stores
   * put the linear address back together: the page fits in its byte.
   */
  lemma PageSplit(p: FarPtr)
    ensures OffsetInPage(ToLinear(p)) < PageSize
    ensures PageOf(ToLinear(p)) * PageSize + OffsetInPage(ToLinear(p)) == ToLinear(p)
  {
    var l := ToLinear(p);
    var q, o := l / PageSize, l % PageSize;
    assert l == q * PageSize + o;
    assert q <= 0x10;
    assert PageOf(l) == q;
    assert OffsetInPage(l) == o;
  }

  /**
   * The page test of `buffer_allocate`: the first and last byte of a block
   * at a far pointer share a page exactly when the block fits in what is
   * left of the page its first byte is in.
   */
  lemma SamePageIff(p: FarPtr)
    ensures StartPage(ToLinear(p)) == EndPage(ToLinear(p))
        <==> OffsetInPage(ToLinear(p)) + BufferSizeBytes <= PageSize
  {
    var l := ToLinear(p);
    var q := l / PageSize;
    var o := l % PageSize;
    assert l == q * PageSize + o;
    assert q <= 0x10;
    assert Wrap32(l + BufferSizeBytes - 1) == q * PageSize + (o + BufferSizeBytes - 1);
    PageOfSum(q, o + BufferSizeBytes - 1);
  }

  /** Adding less than two pages to a page boundary lands in that page or the next. */
  lemma PageOfSum(q: nat, x: nat)
    requires x < 2 * PageSize
    ensures (q * PageSize + x) / PageSize == q + (if x < PageSize then 0 else 1)
  {
    if x < PageSize {
      assert q * PageSize <= q * PageSize + x < (q + 1) * PageSize;
    } else {
      assert (q + 1) * PageSize <= q * PageSize + x < (q + 2) * PageSize;
    }
  }

  /**
   * The C library allocator as an oracle: the answer to the n-th `malloc`
   * call is fixed in advance (NULL when memory is exhausted), the blocks
   * handed out and not yet freed are `live`, and every `free` is logged.
   */
  class Heap {
    const placement: nat -> Option<FarPtr>
    var calls: nat
    var live: set<FarPtr>
    var frees: seq<Option<FarPtr>>

    constructor (placement: nat -> Option<FarPtr>)
      ensures this.placement == placement
      ensures calls == 0 && live == {} && frees == []
    {
      this.placement := placement;
      calls := 0;
      live := {};
      frees := [];
    }

    /** `malloc(BUFFER_SIZE_BYTES)`. */
    method Malloc() returns (p: Option<FarPtr>)
      modifies this
      ensures p == placement(old(calls)) && calls == old(calls) + 1
      ensures live == (if p.Some? then old(live) + {p.value} else old(live))
      ensures frees == old(frees)
    {
      p := placement(calls);
      calls := calls + 1;
      if p.Some? {
        live := live + {p.value};
      }
    }

    /** `free(p)`; `free(NULL)` releases nothing but is still a call. */
    method Free(p: Option<FarPtr>)
      modifies this
      ensures frees == old(frees) + [p] && calls == old(calls)
      ensures live == (if p.Some? then old(live) - {p.value} else old(live))
    {
      frees := frees + [p];
      if p.Some? {
        live := live - {p.value};
      }
    }
  }

  /** `struct buffer_t`: the block, its DMA page and its offset in that page. */
  class DmaBuffer {
    var data: Option<FarPtr>
    var page: U8
    var offset: U16

    /** A zero-initialised static `struct buffer_t`. */
    constructor ()
      ensures data.None? && page == 0 && offset == 0
    {
      data := None;
      page := 0;
      offset := 0;
    }

    /** The stored page and offset are those of the stored pointer. */
    ghost predicate Describes()
      reads this
    {
      page == PageOf(LinearOf(data)) && offset == OffsetInPage(LinearOf(data))
    }
  }

  /**
   * `buffer_allocate` as written: when the first block crosses a page, the
   * second `malloc` result is stored and 0 returned without checking it for
   * NULL.
   */
  method AllocateAsWritten(buffer: DmaBuffer?, heap: Heap) returns (err: int)
    modifies buffer, heap
    ensures buffer == null ==> err == -EINVAL && unchanged(heap)
    ensures buffer != null && heap.placement(old(heap.calls)).None? ==>
      && err == -ENOMEM && unchanged(buffer)
      && heap.calls == old(heap.calls) + 1 && heap.live == old(heap.live) && heap.frees == old(heap.frees)
    ensures buffer != null && heap.placement(old(heap.calls)).Some? ==>
      var first := heap.placement(old(heap.calls)).value;
      && err == 0 && buffer.Describes()
      && (OffsetInPage(ToLinear(first)) + BufferSizeBytes <= PageSize ==>
            && buffer.data == Some(first)
            && heap.calls == old(heap.calls) + 1 && heap.live == old(heap.live) + {first}
            && heap.frees == old(heap.frees))
      && (OffsetInPage(ToLinear(first)) + BufferSizeBytes > PageSize ==>
            && buffer.data == heap.placement(old(heap.calls) + 1)
            && heap.calls == old(heap.calls) + 2
            && heap.frees == old(heap.frees) + [Some(first)])
  {
    if buffer == null {
      return -EINVAL;
    }
    var temp := heap.Malloc();
    if temp.None? {
      return -ENOMEM;
    }
    var linear := ToLinear(temp.value);
    SamePageIff(temp.value);
    if StartPage(linear) == EndPage(linear) {
      buffer.data := temp;
    } else {
      buffer.data := heap.Malloc();
      heap.Free(temp);
    }
    linear := LinearOf(buffer.data);
    buffer.page := PageOf(linear);
    buffer.offset := OffsetInPage(linear);
    return 0;
  }

  /**
   * `buffer_allocate` with the second `malloc` checked: a NULL second block
   * frees the first and reports `-ENOMEM`, leaving the buffer as it was.
   */
  method Allocate(buffer: DmaBuffer?, heap: Heap) returns (err: int)
    modifies buffer, heap
    ensures buffer == null ==> err == -EINVAL && unchanged(heap)
    ensures err == 0 || err == -EINVAL || err == -ENOMEM
    ensures err == -EINVAL <==> buffer == null
    ensures err == 0 ==> buffer != null && buffer.data.Some? && buffer.Describes()
    ensures buffer != null && err != 0 ==> unchanged(buffer)
    ensures buffer != null && heap.placement(old(heap.calls)).None? ==>
      && err == -ENOMEM
      && heap.calls == old(heap.calls) + 1 && heap.live == old(heap.live) && heap.frees == old(heap.frees)
    ensures buffer != null && heap.placement(old(heap.calls)).Some? ==>
      var first := heap.placement(old(heap.calls)).value;
      var second := heap.placement(old(heap.calls) + 1);
      && (OffsetInPage(ToLinear(first)) + BufferSizeBytes <= PageSize ==>
            && err == 0 && buffer.data == Some(first)
            && heap.calls == old(heap.calls) + 1 && heap.live == old(heap.live) + {first}
            && heap.frees == old(heap.frees))
      && (OffsetInPage(ToLinear(first)) + BufferSizeBytes > PageSize ==>
            && heap.calls == old(heap.calls) + 2
            && heap.frees == old(heap.frees) + [Some(first)]
            && heap.live == (old(heap.live) + {first} + (if second.Some? then {second.value} else {})) - {first}
            && (second.Some? ==> err == 0 && buffer.data == second)
            && (second.None? ==> err == -ENOMEM))
  {
    if buffer == null {
      return -EINVAL;
    }
    var temp := heap.Malloc();
    if temp.None? {
      return -ENOMEM;
    }
    var linear := ToLinear(temp.value);
    SamePageIff(temp.value);
    if StartPage(linear) == EndPage(linear) {
      buffer.data := temp;
    } else {
      var second := heap.Malloc();
      heap.Free(temp);
      if second.None? {
        return -ENOMEM;
      }
      buffer.data := second;
    }
    linear := LinearOf(buffer.data);
    buffer.page := PageOf(linear);
    buffer.offset := OffsetInPage(linear);
    return 0;
  }

  /**
   * A block at linear address 0x1F000 crosses a page, and an allocator
   * that then runs out of memory makes `buffer_allocate` report success
   * with a NULL buffer.
   */
  method SecondMallocFailureAsWritten() returns (err: int, data: Option<FarPtr>)
    ensures err == 0 && data.None?
  {
    var heap := new Heap((n: nat) => if n == 0 then Some(FarPtr(0x1F00, 0)) else None);
    var buffer := new DmaBuffer();
    assert OffsetInPage(ToLinear(FarPtr(0x1F00, 0))) == 0xF000;
    err := AllocateAsWritten(buffer, heap);
    data := buffer.data;
  }

  /** The same allocator run makes the checked allocation fail with `-ENOMEM`. */
  method SecondMallocFailureChecked() returns (err: int, data: Option<FarPtr>)
    ensures err == -ENOMEM && data.None?
  {
    var heap := new Heap((n: nat) => if n == 0 then Some(FarPtr(0x1F00, 0)) else None);
    var buffer := new DmaBuffer();
    assert OffsetInPage(ToLinear(FarPtr(0x1F00, 0))) == 0xF000;
    err := Allocate(buffer, heap);
    data := buffer.data;
  }

  /** `buffer_free`: NULL is a no-op, otherwise exactly one `free(data)`. */
  method Release(buffer: DmaBuffer?, heap: Heap)
    modifies heap
    ensures buffer == null ==> unchanged(heap)
    ensures buffer != null ==> heap.frees == old(heap.frees) + [buffer.data] && heap.calls == old(heap.calls)
    ensures buffer != null && buffer.data.Some? ==> heap.live == old(heap.live) - {buffer.data.value}
  {
    if buffer == null {
      return;
    }
    heap.Free(buffer.data);
  }
}
