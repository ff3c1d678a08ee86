/**
 * The playback engine (PLAYER.C): a STOPPED/PAUSED/PLAYING state machine
 * that streams a WAV file through a 32 KiB DMA buffer split into two
 * halves. The codec interrupt asks for a refill (`wss_request`); the main
 * loop then reads the next 16 KiB of the file into the half the codec has
 * just finished and switches to the other half.
 *
 * The codec calls (`wss_playback_stop`, `wss_playback_continue`,
 * `wss_playback_start`), `fopen` and the header parser are environment
 * inputs: each method takes the result the call returns.
 */
module Player {
  import opened Utils
  import opened Errno
  import opened Stdio
  import opened Buffer

  /** `PLAYER_SINGLE_BUFFER_SIZE`: one half of the double buffer. */
  const HalfSize := BufferSizeBytes / 2

  /** `enum player_state_t`. */
  datatype State = Stopped | Paused | Playing

  /** What the header parser reports about an opened file. */
  datatype Header = Header(pcmStart: nat, byteRate: U32)

  /** `buffer_index * PLAYER_SINGLE_BUFFER_SIZE`: where half `index` starts. */
  function HalfOffset(index: bv8): (o: nat)
    requires index <= 1
    ensures o + HalfSize <= BufferSizeBytes
    ensures o == 0 <==> index == 0
    ensures index == 1 ==> o == HalfSize
  {
    index as int * HalfSize
  }

  /** `buffer_index ^= 1`: the other half. */
  function Flip(index: bv8): (r: bv8)
    requires index <= 1
    ensures r <= 1 && r != index
  {
    index ^ 1
  }

  /**
   * The buffer after one refill of half `index` from the file bytes `data`
   * at cursor `pos`: the half starts with what `fread` returned, and every
   * byte past those, in this half or the other, is untouched.
   */
  function Refill(buf: seq<bv8>, index: bv8, data: seq<bv8>, pos: nat): (r: seq<bv8>)
    requires |buf| == BufferSizeBytes && index <= 1
    ensures |r| == BufferSizeBytes
    ensures forall i :: HalfOffset(index) <= i < HalfOffset(index) + ReadCount(|data|, pos, HalfSize) ==>
      r[i] == data[pos + (i - HalfOffset(index))]
    ensures forall i :: 0 <= i < BufferSizeBytes && !(HalfOffset(index) <= i < HalfOffset(index) + ReadCount(|data|, pos, HalfSize)) ==>
      r[i] == buf[i]
  {
    Splice(buf, HalfOffset(index), ReadBytes(data, pos, HalfSize))
  }

  /**
   * Two refills in a row, of half `index` and then of the other half, with
   * the file holding 32 KiB more from `pos`, leave the buffer as a ring
   * over the file: reading on from the first refilled half and wrapping
   * round, which is how the auto-initialising DMA plays it, gives the 32 KiB
   * of the file from `pos` in order.
   */
  lemma TwoRefillsFormRing(buf: seq<bv8>, index: bv8, data: seq<bv8>, pos: nat)
    requires |buf| == BufferSizeBytes && index <= 1
    requires pos + BufferSizeBytes <= |data|
    ensures var r := Refill(Refill(buf, index, data, pos), Flip(index), data, pos + HalfSize);
      forall i :: 0 <= i < BufferSizeBytes ==>
        r[i] == data[pos + (i - HalfOffset(index)) % BufferSizeBytes]
  {
    var r := Refill(Refill(buf, index, data, pos), Flip(index), data, pos + HalfSize);
    assert HalfOffset(index) + HalfOffset(Flip(index)) == HalfSize by {
      if index == 0 {
        assert Flip(index) == 1;
      } else {
        assert Flip(index) == 0;
      }
    }
    forall i | 0 <= i < BufferSizeBytes
      ensures r[i] == data[pos + (i - HalfOffset(index)) % BufferSizeBytes]
    {
      RingAt(buf, HalfOffset(index), HalfOffset(Flip(index)), data, pos, i);
    }
  }

  /**
   * One byte of `TwoRefillsFormRing`, with the halves given by their
   * offsets `a` (refilled first) and `b`.
   */
  lemma RingAt(buf: seq<bv8>, a: nat, b: nat, data: seq<bv8>, pos: nat, i: nat)
    requires |buf| == BufferSizeBytes && a + b == HalfSize && (a == 0 || b == 0)
    requires pos + BufferSizeBytes <= |data| && i < BufferSizeBytes
    ensures var r1 := Splice(buf, a, ReadBytes(data, pos, HalfSize));
      Splice(r1, b, ReadBytes(data, pos + HalfSize, HalfSize))[i] == data[pos + (i - a) % BufferSizeBytes]
  {
    var s1 := ReadBytes(data, pos, HalfSize);
    var s2 := ReadBytes(data, pos + HalfSize, HalfSize);
    assert |s1| == HalfSize && |s2| == HalfSize;
    var r1 := Splice(buf, a, s1);
    WrapIndex(i - a);
    if a <= i < a + HalfSize {
      // The byte lies in the half refilled first, from `pos`.
      assert r1[i] == s1[i - a];
    } else {
      // The byte lies in the half refilled second, from `pos + 16384`.
      assert b <= i < b + HalfSize;
    }
  }

  /** An index less than one buffer length away from the buffer, wrapped into it. */
  lemma WrapIndex(x: int)
    requires -BufferSizeBytes < x < BufferSizeBytes
    ensures x % BufferSizeBytes == if x >= 0 then x else x + BufferSizeBytes
  {
  }

  /**
   * The engine's module statics. `buffer` is the DMA buffer's sample
   * bytes; `fd` the open WAV stream or NULL; `byteRate` the field of the
   * parsed header that `player_get_seconds_played` divides by.
   */
  class Player {
    var state: State
    var wssRequest: bool
    var bufferIndex: bv8
    var bytesPlayed: U32
    var fd: File?
    var byteRate: U32
    const buffer: array<bv8>

    /** The zero-initialised statics, as `player_init` leaves them. */
    constructor (buffer: array<bv8>)
      requires buffer.Length == BufferSizeBytes
      ensures Valid() && this.buffer == buffer
      ensures state == Stopped && !wssRequest && bufferIndex == 0 && bytesPlayed == 0
      ensures fd == null && byteRate == 0
    {
      this.buffer := buffer;
      state := Stopped;
      wssRequest := false;
      bufferIndex := 0;
      bytesPlayed := 0;
      fd := null;
      byteRate := 0;
    }

    /** The buffer has its full size and the cursor names one of its halves. */
    predicate Valid()
      reads this
    {
      buffer.Length == BufferSizeBytes && bufferIndex <= 1
    }

    /** The codec interrupt handler's first effect: `wss_request = true`. */
    method Request()
      modifies this
      ensures wssRequest
      ensures state == old(state) && bufferIndex == old(bufferIndex) && bytesPlayed == old(bytesPlayed)
      ensures fd == old(fd) && byteRate == old(byteRate)
    {
      wssRequest := true;
    }

    /**
     * `player_stop`, with `codecErr` the result of `wss_playback_stop`: an
     * error is returned with nothing changed; otherwise an open stream is
     * closed, `fd` becomes NULL and the state STOPPED.
     */
    method Stop(codecErr: int) returns (err: int)
      modifies this, fd
      ensures err == codecErr
      ensures codecErr != 0 ==> state == old(state) && fd == old(fd)
      ensures codecErr != 0 && fd != null ==> fd.closes == old(fd.closes) && fd.pos == old(fd.pos)
      ensures codecErr == 0 ==> state == Stopped && fd == null
      ensures codecErr == 0 && old(fd) != null ==>
        old(fd).closes == old(fd.closes) + 1 && old(fd).pos == old(fd.pos)
      ensures wssRequest == old(wssRequest) && bufferIndex == old(bufferIndex)
      ensures bytesPlayed == old(bytesPlayed) && byteRate == old(byteRate)
    {
      if codecErr != 0 {
        return codecErr;
      }
      if fd != null {
        fd.Close();
        fd := null;
      }
      state := Stopped;
      return 0;
    }

    /**
     * `player_pause`, with `codecErr` the result of `wss_playback_stop`:
     * the state becomes PAUSED exactly when the codec call succeeds,
     * whatever it was before.
     */
    method Pause(codecErr: int) returns (err: int)
      modifies this
      ensures err == codecErr
      ensures state == (if codecErr == 0 then Paused else old(state))
      ensures wssRequest == old(wssRequest) && bufferIndex == old(bufferIndex)
      ensures bytesPlayed == old(bytesPlayed) && fd == old(fd) && byteRate == old(byteRate)
    {
      if codecErr != 0 {
        return codecErr;
      }
      state := Paused;
      return 0;
    }

    /**
     * `player_resume`, with `codecErr` the result of
     * `wss_playback_continue`: the state becomes PLAYING exactly when the
     * codec call succeeds, whatever it was before.
     */
    method Resume(codecErr: int) returns (err: int)
      modifies this
      ensures err == codecErr
      ensures state == (if codecErr == 0 then Playing else old(state))
      ensures wssRequest == old(wssRequest) && bufferIndex == old(bufferIndex)
      ensures bytesPlayed == old(bytesPlayed) && fd == old(fd) && byteRate == old(byteRate)
    {
      if codecErr != 0 {
        return codecErr;
      }
      state := Playing;
      return 0;
    }

    /** Opening the stream and parsing its header: the part of `player_start` before the preload. */
    method Open(stream: File?, parseErr: int, header: Header, closeOnError: bool) returns (err: int)
      requires stream != null ==> stream.closes == 0
      modifies this, stream
      ensures stream == null ==> err == -ENOENT && fd == null
      ensures stream != null && parseErr != 0 ==> err == parseErr && stream.closes == 1
      ensures stream != null && parseErr != 0 ==> fd == (if closeOnError then null else stream)
      ensures stream != null && parseErr == 0 ==> err == 0 && fd == stream && stream.closes == 0
      ensures stream != null && parseErr == 0 ==> stream.pos == header.pcmStart && byteRate == header.byteRate
      ensures parseErr != 0 ==> byteRate == old(byteRate)
      ensures state == old(state) && wssRequest == old(wssRequest)
      ensures bufferIndex == old(bufferIndex) && bytesPlayed == old(bytesPlayed)
    {
      fd := stream;
      if fd == null {
        return -ENOENT;
      }
      if parseErr != 0 {
        fd.Close();
        if closeOnError {
          fd := null;
        }
        return parseErr;
      }
      fd.Seek(header.pcmStart);
      byteRate := header.byteRate;
      return 0;
    }

    /**
     * The preload and the codec start of `player_start`: the whole buffer
     * is read from the stream, `bytes_played` becomes the count read, and
     * the player is PLAYING unless the codec fails, when the stream is
     * closed.
     */
    method Preload(startErr: int, closeOnError: bool) returns (err: int)
      requires Valid() && fd != null && fd.closes == 0 && bytesPlayed == 0
      modifies this, buffer, fd
      ensures Valid() && err == startErr
      ensures var n := ReadCount(|old(fd).data|, old(fd.pos), BufferSizeBytes);
        && buffer[..] == Splice(old(buffer[..]), 0, ReadBytes(old(fd).data, old(fd.pos), BufferSizeBytes))
        && old(fd).pos == old(fd.pos) + n
        && bytesPlayed == n
      ensures startErr == 0 ==> state == Playing && fd == old(fd) && old(fd).closes == 0
      ensures startErr != 0 ==> state == old(state) && old(fd).closes == 1
      ensures startErr != 0 ==> fd == (if closeOnError then null else old(fd))
      ensures wssRequest == old(wssRequest) && bufferIndex == old(bufferIndex) && byteRate == old(byteRate)
    {
      var n := fd.Read(buffer, 0, BufferSizeBytes);
      bytesPlayed := Wrap32(bytesPlayed + n);
      if startErr != 0 {
        fd.Close();
        if closeOnError {
          fd := null;
        }
        return startErr;
      }
      state := Playing;
      return 0;
    }

    /**
     * `player_start` as written. A player that is not STOPPED is stopped
     * first (`stopErr`, whose result is ignored); the request flag, the
     * half index and the byte counter are reset; `stream` is what `fopen`
     * returns, `parseErr` and `header` what the header parser returns, and
     * `startErr` what `wss_playback_start` returns. After a parse or codec
     * failure the stream is closed but `fd` still points at it.
     */
    method StartAsWritten(stopErr: int, stream: File?, parseErr: int, header: Header, startErr: int)
      returns (err: int)
      requires Valid()
      requires stream != null ==> stream.closes == 0 && stream != fd
      modifies this, buffer, fd, stream
      ensures Valid()
      ensures !wssRequest && bufferIndex == 0
      ensures old(state) != Stopped && stopErr == 0 && old(fd) != null ==> old(fd).closes == old(fd.closes) + 1
      ensures stream == null ==> err == -ENOENT && fd == null && bytesPlayed == 0
      ensures stream != null && parseErr != 0 ==>
        err == parseErr && fd == stream && stream.closes == 1 && bytesPlayed == 0
      ensures stream != null && parseErr == 0 ==>
        err == startErr && buffer[..] == Splice(old(buffer[..]), 0, ReadBytes(stream.data, header.pcmStart, BufferSizeBytes))
      ensures stream != null && parseErr == 0 ==>
        bytesPlayed == ReadCount(|stream.data|, header.pcmStart, BufferSizeBytes)
        && stream.pos == header.pcmStart + bytesPlayed && byteRate == header.byteRate && fd == stream
      ensures stream != null && parseErr == 0 && startErr == 0 ==> state == Playing && stream.closes == 0
      ensures stream != null && parseErr == 0 && startErr != 0 ==> stream.closes == 1
      ensures err != 0 ==> state == (if old(state) != Stopped && stopErr == 0 then Stopped else old(state))
    {
      if state != Stopped {
        var _ := Stop(stopErr);
      }
      wssRequest := false;
      bufferIndex := 0;
      bytesPlayed := 0;
      err := Open(stream, parseErr, header, false);
      if err != 0 {
        return err;
      }
      err := Preload(startErr, false);
    }

    /**
     * `player_start` with the stream forgotten after it is closed: as
     * written, except that a parse or codec failure also sets `fd` to
     * NULL, so no later `player_stop` closes it again.
     */
    method Start(stopErr: int, stream: File?, parseErr: int, header: Header, startErr: int)
      returns (err: int)
      requires Valid()
      requires stream != null ==> stream.closes == 0 && stream != fd
      modifies this, buffer, fd, stream
      ensures Valid()
      ensures !wssRequest && bufferIndex == 0
      ensures old(state) != Stopped && stopErr == 0 && old(fd) != null ==> old(fd).closes == old(fd.closes) + 1
      ensures stream == null ==> err == -ENOENT && fd == null && bytesPlayed == 0
      ensures stream != null && parseErr != 0 ==>
        err == parseErr && fd == null && stream.closes == 1 && bytesPlayed == 0
      ensures stream != null && parseErr == 0 ==>
        err == startErr && buffer[..] == Splice(old(buffer[..]), 0, ReadBytes(stream.data, header.pcmStart, BufferSizeBytes))
      ensures stream != null && parseErr == 0 ==>
        bytesPlayed == ReadCount(|stream.data|, header.pcmStart, BufferSizeBytes)
        && stream.pos == header.pcmStart + bytesPlayed && byteRate == header.byteRate
      ensures stream != null && parseErr == 0 && startErr == 0 ==> state == Playing && fd == stream && stream.closes == 0
      ensures stream != null && parseErr == 0 && startErr != 0 ==> fd == null && stream.closes == 1
      ensures err != 0 ==> state == (if old(state) != Stopped && stopErr == 0 then Stopped else old(state))
    {
      if state != Stopped {
        var _ := Stop(stopErr);
      }
      wssRequest := false;
      bufferIndex := 0;
      bytesPlayed := 0;
      err := Open(stream, parseErr, header, true);
      if err != 0 {
        return err;
      }
      err := Preload(startErr, true);
    }

    /**
     * The refill of `player_task`: the next 16 KiB of the stream go into
     * the current half, `bytes_played` grows by the count read, a read of
     * nothing stops the player, and the other half becomes current.
     */
    method Service(stopErr: int)
      requires Valid() && fd != null && fd.closes == 0
      modifies this, buffer, fd
      ensures Valid() && !wssRequest && bufferIndex == Flip(old(bufferIndex))
      ensures var n := ReadCount(|old(fd).data|, old(fd.pos), HalfSize);
        && buffer[..] == Refill(old(buffer[..]), old(bufferIndex), old(fd).data, old(fd.pos))
        && old(fd).pos == old(fd.pos) + n
        && bytesPlayed == Wrap32(old(bytesPlayed) + n)
        && (n != 0 || stopErr != 0 ==> state == old(state) && fd == old(fd) && old(fd).closes == 0)
        && (n == 0 && stopErr == 0 ==> state == Stopped && fd == null && old(fd).closes == 1)
      ensures byteRate == old(byteRate)
    {
      var offset := HalfOffset(bufferIndex);
      var n := fd.Read(buffer, offset, HalfSize);
      bytesPlayed := Wrap32(bytesPlayed + n);
      if n == 0 {
        var _ := Stop(stopErr);
      }
      bufferIndex := Flip(bufferIndex);
      wssRequest := false;
    }

    /**
     * `player_task`: nothing happens unless the player is PLAYING and a
     * refill was requested; then one half is refilled. `stopErr` is what
     * `wss_playback_stop` returns if the refill reads nothing.
     */
    method Task(stopErr: int)
      requires Valid()
      requires state == Playing && wssRequest ==> fd != null && fd.closes == 0
      modifies this, buffer, fd
      ensures Valid()
      ensures !(old(state) == Playing && old(wssRequest)) ==>
        unchanged(this) && buffer[..] == old(buffer[..]) && (fd != null ==> unchanged(fd))
      ensures old(state) == Playing && old(wssRequest) ==>
        !wssRequest && bufferIndex == Flip(old(bufferIndex))
      ensures old(state) == Playing && old(wssRequest) ==>
        buffer[..] == Refill(old(buffer[..]), old(bufferIndex), old(fd).data, old(fd.pos))
      ensures old(state) == Playing && old(wssRequest) ==>
        var n := ReadCount(|old(fd).data|, old(fd.pos), HalfSize);
        && old(fd).pos == old(fd.pos) + n
        && bytesPlayed == Wrap32(old(bytesPlayed) + n)
        && (n != 0 || stopErr != 0 ==> state == Playing && fd == old(fd) && old(fd).closes == 0)
        && (n == 0 && stopErr == 0 ==> state == Stopped && fd == null && old(fd).closes == 1)
      ensures byteRate == old(byteRate)
    {
      if state != Playing {
        return;
      }
      if wssRequest {
        Service(stopErr);
      }
    }

    /** `player_get_seconds_played`: whole seconds of audio read so far. */
    method SecondsPlayed() returns (s: U32)
      requires byteRate != 0
      ensures s * byteRate <= bytesPlayed < (s + 1) * byteRate
    {
      s := bytesPlayed / byteRate;
    }
  }

  /**
   * As written, a codec failure in `player_start` leaves `fd` pointing at
   * the stream it has just closed, so the next `player_stop` (from
   * `player_deinit`, say) closes it a second time.
   */
  method FailedStartClosesTwiceAsWritten(p: Player, file: File, header: Header)
    returns (closes: nat)
    requires p.Valid() && p.state == Stopped && p.fd == null && file.closes == 0
    modifies p, p.buffer, file
    ensures closes == 2
  {
    var err := p.StartAsWritten(0, file, 0, header, -ETIMEDOUT);
    assert err == -ETIMEDOUT && p.fd == file && file.closes == 1;
    err := p.Stop(0);
    closes := file.closes;
  }

  /** With the stream forgotten on failure, the same sequence closes it once. */
  method FailedStartClosesOnce(p: Player, file: File, header: Header)
    returns (closes: nat)
    requires p.Valid() && p.state == Stopped && p.fd == null && file.closes == 0
    modifies p, p.buffer, file
    ensures closes == 1
  {
    var err := p.Start(0, file, 0, header, -ETIMEDOUT);
    assert err == -ETIMEDOUT && p.fd == null && file.closes == 1;
    err := p.Stop(0);
    closes := file.closes;
  }
}
