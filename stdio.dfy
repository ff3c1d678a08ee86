/**
 * The C library stream calls the WAV parser and the player make (`fseek`,
 * `ftell`, `rewind`, `fread`, `fclose`), over a file that is a byte
 * sequence with a cursor. `fopen` is an environment input of the player.
 */
module Stdio {
  import opened Utils

  /** How many bytes `fread` returns when `n` are asked for at `pos` of a file of `size` bytes. */
  function ReadCount(size: nat, pos: nat, n: nat): (c: nat)
    ensures c <= n
    ensures pos + c <= size || c == 0
    ensures c < n ==> pos + c >= size
  {
    if pos >= size then 0 else Min(n, size - pos)
  }

  /** The bytes `fread` returns when `n` are asked for at `pos` of `data`. */
  function ReadBytes(data: seq<bv8>, pos: nat, n: nat): (r: seq<bv8>)
    ensures |r| == ReadCount(|data|, pos, n)
    ensures forall i :: 0 <= i < |r| ==> pos + i < |data| && r[i] == data[pos + i]
  {
    if pos >= |data| then [] else data[pos..pos + Min(n, |data| - pos)]
  }

  /** `buf` with `src` copied over it from index `at` on. */
  function Splice(buf: seq<bv8>, at: nat, src: seq<bv8>): (r: seq<bv8>)
    requires at + |src| <= |buf|
    ensures |r| == |buf|
    ensures forall i :: at <= i < at + |src| ==> r[i] == src[i - at]
    ensures forall i :: 0 <= i < |buf| && !(at <= i < at + |src|) ==> r[i] == buf[i]
  {
    seq(|buf|, i requires 0 <= i < |buf| => if at <= i < at + |src| then src[i - at] else buf[i])
  }

  /** An open or closed `FILE` over the bytes `data`, with its cursor. */
  class File {
    const data: seq<bv8>
    var pos: nat
    /** How many times `fclose` has been called on this stream. */
    var closes: nat

    /** A stream as `fopen(path, "rb")` returns it. */
    constructor (data: seq<bv8>)
      ensures this.data == data && pos == 0 && closes == 0
    {
      this.data := data;
      pos := 0;
      closes := 0;
    }

    /** `fseek(fd, offset, SEEK_SET)`; a cursor past the end is allowed. */
    method Seek(offset: nat)
      modifies this
      ensures pos == offset && closes == old(closes)
    {
      pos := offset;
    }

    /** `fseek(fd, 0, SEEK_END)`. */
    method SeekEnd()
      modifies this
      ensures pos == |data| && closes == old(closes)
    {
      pos := |data|;
    }

    /** `rewind(fd)`. */
    method Rewind()
      modifies this
      ensures pos == 0 && closes == old(closes)
    {
      pos := 0;
    }

    /** `ftell(fd)`. */
    method Tell() returns (p: nat)
      ensures p == pos
    {
      p := pos;
    }

    /**
     * `fread(&buf[at], 1, n, fd)`: copies what is left of the file, up to
     * `n` bytes, and moves the cursor past them.
     */
    method Read(buf: array<bv8>, at: nat, n: nat) returns (count: nat)
      requires closes == 0 && at + n <= buf.Length
      modifies this, buf
      ensures count == ReadCount(|data|, old(pos), n)
      ensures buf[..] == Splice(old(buf[..]), at, ReadBytes(data, old(pos), n))
      ensures pos == old(pos) + count && closes == old(closes)
    {
      count := ReadCount(|data|, pos, n);
      ghost var before := buf[..];
      ghost var src := ReadBytes(data, pos, n);
      forall i | at <= i < at + count {
        buf[i] := data[pos + (i - at)];
      }
      assert buf[..] == Splice(before, at, src) by {
        forall i | 0 <= i < buf.Length ensures buf[i] == Splice(before, at, src)[i] {
          if at <= i < at + count {
            assert Splice(before, at, src)[at + (i - at)] == src[i - at];
          }
        }
      }
      pos := pos + count;
    }

    /** `fclose(fd)`. */
    method Close()
      modifies this
      ensures closes == old(closes) + 1 && pos == old(pos)
    {
      closes := closes + 1;
    }
  }
}
