/**
 * Skipping a WAV file's header (WAV.C): the first 512 bytes are searched
 * byte by byte for the `"data"` chunk marker; the PCM samples start after
 * the marker and its 4-byte chunk length.
 */
module Wav {
  import opened Utils
  import opened Stdio

  /** `WAV_DATA_MAX_HEADER_SIZE`: the bytes read and searched. */
  const MaxHeaderSize := 512
  /** `WAV_DATA_MARKER`, `"data"`. */
  const DataMarker: seq<bv8> := [0x64, 0x61, 0x74, 0x61]
  /** `WAV_DATA_CHUNK_LENGTH_SIZE`: the `uint32_t` chunk length after the marker. */
  const ChunkLengthSize := 4
  /** The search covers offsets below `512 - 4`. */
  const ScanLimit := MaxHeaderSize - 4

  /** `memcmp(&header[offset], "data", 4) == 0`. */
  predicate MarkerAt(h: seq<bv8>, offset: nat)
    requires offset + 4 <= |h|
  {
    h[offset] == DataMarker[0] && h[offset + 1] == DataMarker[1]
    && h[offset + 2] == DataMarker[2] && h[offset + 3] == DataMarker[3]
  }

  /**
   * The local `header` array after `fread`: the file's first bytes, up to
   * 512, over the array's prior (uninitialised) contents `junk`.
   */
  function Window(data: seq<bv8>, junk: seq<bv8>): (w: seq<bv8>)
    requires |junk| == MaxHeaderSize
    ensures |w| == MaxHeaderSize
    ensures forall i :: 0 <= i < |data| && i < MaxHeaderSize ==> w[i] == data[i]
    ensures forall i :: |data| <= i < MaxHeaderSize ==> w[i] == junk[i]
  {
    Splice(junk, 0, ReadBytes(data, 0, MaxHeaderSize))
  }

  /**
   * The first marker offset in `[from, 508)`, or 508 when there is none:
   * what the search loop ends with.
   */
  function FindMarker(h: seq<bv8>, from: nat): (r: nat)
    requires |h| == MaxHeaderSize && from <= ScanLimit
    ensures from <= r <= ScanLimit
    ensures r < ScanLimit ==> MarkerAt(h, r)
    ensures forall j :: from <= j < r ==> !MarkerAt(h, j)
    decreases ScanLimit - from
  {
    if from == ScanLimit then ScanLimit
    else if MarkerAt(h, from) then from
    else FindMarker(h, from + 1)
  }

  /** The offset `FindMarker` returns is characterised by the marker search alone. */
  lemma FindMarkerIsFirst(h: seq<bv8>, k: nat)
    requires |h| == MaxHeaderSize && k <= ScanLimit
    requires k < ScanLimit ==> MarkerAt(h, k)
    requires forall j :: 0 <= j < k ==> !MarkerAt(h, j)
    ensures FindMarker(h, 0) == k
  {
  }

  /** `FindMarker` finds a marker exactly when one starts below 508. */
  lemma FindMarkerComplete(h: seq<bv8>)
    requires |h| == MaxHeaderSize
    ensures FindMarker(h, 0) < ScanLimit <==> exists j :: 0 <= j < ScanLimit && MarkerAt(h, j)
  {
  }

  /**
   * A marker at offset 508, the last place four bytes fit, is never found
   * when it is the only one.
   */
  lemma MarkerAtLimitMissed(h: seq<bv8>)
    requires |h| == MaxHeaderSize && MarkerAt(h, ScanLimit)
    requires forall j :: 0 <= j < ScanLimit ==> !MarkerAt(h, j)
    ensures FindMarker(h, 0) == ScanLimit
  {
  }

  /**
   * A canonical 44-byte header (a 12-byte RIFF chunk, a 24-byte format
   * chunk, then `"data"` at offset 36) puts the samples at offset 44.
   */
  lemma CanonicalHeader(data: seq<bv8>, junk: seq<bv8>)
    requires |junk| == MaxHeaderSize && |data| >= 44
    requires data[36..40] == DataMarker
    requires forall j :: 0 <= j < 36 ==> !MarkerAt(data, j)
    ensures FindMarker(Window(data, junk), 0) + 4 + ChunkLengthSize == 44
  {
    var w := Window(data, junk);
    forall j | 0 <= j < 36 ensures !MarkerAt(w, j) {
      assert !MarkerAt(data, j);
      assert w[j..j + 4] == data[j..j + 4];
    }
    assert MarkerAt(w, 36) by {
      assert data[36..40][0] == data[36];
    }
    FindMarkerIsFirst(w, 36);
  }

  /**
   * The search loop of `wav_skip_header`: the offsets below 508 are tried
   * in turn and the first that holds the marker ends the loop.
   */
  method ScanHeader(header: array<bv8>) returns (offset: nat)
    requires header.Length == MaxHeaderSize
    ensures offset == FindMarker(header[..], 0)
  {
    ghost var h := header[..];
    offset := 0;
    while offset < ScanLimit
      invariant offset <= ScanLimit
      invariant forall j :: 0 <= j < offset ==> !MarkerAt(h, j)
    {
      if header[offset] == DataMarker[0] && header[offset + 1] == DataMarker[1]
        && header[offset + 2] == DataMarker[2] && header[offset + 3] == DataMarker[3]
      {
        break;
      }
      offset := offset + 1;
    }
    FindMarkerIsFirst(h, offset);
  }

  /**
   * The rewind and the read of the first 512 bytes into the local `header`
   * array of `wav_skip_header`, whose prior contents are `junk`.
   */
  method ReadHeader(fd: File, junk: seq<bv8>) returns (header: array<bv8>)
    requires |junk| == MaxHeaderSize && fd.closes == 0
    modifies fd
    ensures fresh(header) && header[..] == Window(fd.data, junk)
    ensures fd.pos == ReadCount(|fd.data|, 0, MaxHeaderSize) && fd.closes == 0
  {
    fd.Rewind();
    header := new bv8[MaxHeaderSize](i requires 0 <= i < MaxHeaderSize => junk[i]);
    assert header[..] == junk;
    var _ := fd.Read(header, 0, MaxHeaderSize);
  }

  /**
   * `wav_skip_header`: a NULL stream gives 0. Otherwise the file size is
   * taken from the end of the file, the first 512 bytes are read into a
   * local array, and the array is searched for the marker. Without one the
   * result is 0 and the cursor stays after what was read; with one the
   * cursor moves to the samples and the result is the file size minus
   * their offset, in `uint32_t`.
   */
  method SkipHeader(fd: File?, junk: seq<bv8>) returns (size: U32)
    requires |junk| == MaxHeaderSize
    requires fd != null ==> fd.closes == 0
    modifies fd
    ensures fd == null ==> size == 0
    ensures fd != null ==> fd.closes == 0
    ensures fd != null && FindMarker(Window(fd.data, junk), 0) == ScanLimit ==>
      size == 0 && fd.pos == ReadCount(|fd.data|, 0, MaxHeaderSize)
    ensures fd != null && FindMarker(Window(fd.data, junk), 0) < ScanLimit ==>
      fd.pos == FindMarker(Window(fd.data, junk), 0) + 4 + ChunkLengthSize
    ensures fd != null && FindMarker(Window(fd.data, junk), 0) < ScanLimit ==>
      size == Wrap32(Wrap32(|fd.data|) - (FindMarker(Window(fd.data, junk), 0) + 4 + ChunkLengthSize))
  {
    if fd == null {
      return 0;
    }

    fd.SeekEnd();
    var end := fd.Tell();
    var fileSize: U32 := Wrap32(end);
    var header := ReadHeader(fd, junk);

    var offset := ScanHeader(header);
    ghost var m := FindMarker(Window(fd.data, junk), 0);
    assert offset == m;
    if offset == ScanLimit {
      return 0;
    }

    var pcmOffset: U32 := offset + 4 + ChunkLengthSize;
    fd.Seek(pcmOffset);
    return Wrap32(fileSize - pcmOffset);
  }
}
