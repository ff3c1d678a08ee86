# WAVWSS driver core in Dafny

A model of the core of WAVWSS, a DOS player that streams 16-bit stereo
44.1 kHz WAV files to a Windows Sound System (AD1848-class) sound card, with
proofs about it. The model covers:

- the byte-splitting helpers (`UTILS.H`);
- the DMA-safe double buffer (`BUFFER.C`): far pointer to linear address,
  64 KiB page and offset, page-crossing retry;
- ISA DMA channel programming (`DMA.C`) as a trace of `outp` writes;
- the PIC mask and interrupt vector save and restore (`IRQ.C`);
- the codec's index/data register protocol (`WSS.C`): the bounded busy-wait,
  the fourteen-register playback program and the playback-enable flip.
  The codec is a register file with a write trace and a status-read oracle;
- the WAV header skip (`WAV.C`): a first-match search for `"data"` in a
  512-byte prefix;
- the playback engine (`PLAYER.C`): a STOPPED/PAUSED/PLAYING state machine
  with a two-half buffer cursor and a byte counter;
- the doubly linked list of the file browser (`LIST.C`): prepend, append, the
  in-place bubble sort that swaps data pointers, traversal and destroy.

Each C file is one Dafny module: `Utils` (with `Errno`), `Buffer`, `Dma`,
`Irq`, `Wss`, `Wav`, `Player` and `LinkedList`. `Stdio` models the C stream
calls the parser and the player make, over a file that is a byte sequence
with a cursor. Code that updates state step by step is a class with
`modifies` clauses:

- the DMA controller;
- the interrupt state;
- the codec;
- the DMA buffer and the allocator;
- the player's statics;
- the list and its nodes.

Each method is tied to a specification function or to an explicit new
state, and the lemmas state what the source promises about those functions.
`malloc`, `fopen`, the header parser, the codec calls made by the player and
the codec's status reads are environment inputs (an oracle or a method
parameter).

Where the driver's design documentation and its code differ, the model
follows the code:

- `dma_release` ends with an unmask write, so the channel is left unmasked,
  not inert.
- `wss_playback_start` takes only the buffer size and always programs
  16-bit stereo at 44.1 kHz.
- `wav_skip_header` takes the data size from the file length, not from a
  declared chunk size, and does not validate the RIFF or format tags.
- `buffer_allocate` does not report a failed second allocation.
- `PLAYER.C` calls a newer codec and parser interface than the one in
  `WSS.C` and `WAV.C`. Its calls are environment inputs here.

## Model

| member | source | states |
|---|---|---|
| Utils.Wrap32 | BUFFER.C:9 | `uint32_t` arithmetic: a value already in range is kept; a negative value down to -2^32 wraps by adding 2^32; a value from 2^32 up to below 2^33 wraps by subtracting 2^32 |
| Utils.Min | UTILS.H:4 | `MIN(x, y)` is at most both arguments and is one of them |
| Utils.ByteSplit | UTILS.H:6-7 | `LO_BYTE(x) + 256 * HI_BYTE(x) == x mod 65536`, the round trip of every 16-bit port write |
| Utils.ByteJoin | UTILS.H:6-7 | splitting a value built from two bytes gives back those bytes |
| Buffer.ToLinear | BUFFER.C:7-10 | the linear address is `segment * 16 + offset`, without wrap-around, and is at most 0x10FFEF |
| Buffer.PageSplit | BUFFER.C:44-46 | the stored page and offset rebuild the linear address: `page * 65536 + offset == linear`, with `offset < 65536` |
| Buffer.SamePageIff | BUFFER.C:32-35 | `start_page == end_page` holds exactly when `(linear mod 65536) + 32768 <= 65536`, so the block does not cross a 64 KiB boundary |
| Buffer.AllocateAsWritten | BUFFER.C:12-49 | NULL gives `-EINVAL` and no allocation; a failed first `malloc` gives `-ENOMEM` and nothing is kept; a first block inside one page is kept with no second `malloc`; otherwise the second block is stored unchecked, the first is freed, and 0 is returned; page and offset always describe the stored pointer |
| Buffer.Allocate | BUFFER.C:12-49 | as written, except that a NULL second block frees the first and returns `-ENOMEM`, leaving the buffer as it was; on every path it states the `malloc` and `free` calls made and the blocks left live; the result is 0, `-EINVAL` or `-ENOMEM`, and 0 always comes with a non-NULL block whose page and offset describe it |
| Buffer.SecondMallocFailureAsWritten | BUFFER.C:38-48 | a first block at linear 0x1F000 followed by an allocator failure makes `buffer_allocate` return 0 with NULL data |
| Buffer.SecondMallocFailureChecked | BUFFER.C:38-48 | the same allocator run makes the checked allocation return `-ENOMEM` |
| Buffer.Release | BUFFER.C:51-58 | `buffer_free(NULL)` does nothing; otherwise exactly one `free(data)` |
| Dma.ValidChannelIff | DMA.C:15-24 | each port table has 4 entries, so the channel check admits exactly channels 0 to 3 |
| Dma.ValidChannelBits | DMA.C:22-27 | a valid channel number lies in the two channel-select bits of the mask and mode bytes |
| Dma.AutoinitWritesOrder | DMA.C:27-47 | for a valid channel, exactly nine writes in this order: mask register gets exactly 0x04 OR channel, clear flip-flop, mode (0x58 OR channel), offset, page, count, and the mask register gets exactly `channel` (mask bit clear) |
| Dma.AutoinitWritesPorts | DMA.C:15-17 | the offset bytes go to port `2 * channel` and the count bytes to `2 * channel + 1` |
| Dma.AutoinitOffsetBytes | DMA.C:36-37 | the two offset bytes, low then high, rebuild `offset` |
| Dma.AutoinitCountBytes | DMA.C:43-44 | the two count bytes, low then high, rebuild `(length - 1) mod 65536` |
| Dma.FullBufferCount | DMA.C:43-44 | for a 32768-byte buffer the count bytes are `0xFF`, `0x7F` |
| Dma.AutoinitMasksWhileProgramming | DMA.C:27-47 | whatever came before, the channel stays masked from the first write to the eighth, and the last write unmasks it |
| Dma.ReleaseEndsUnmasked | DMA.C:59-66 | `dma_release` masks the channel and then unmasks it, so the channel ends unmasked |
| Dma.Controller.AutoinitStart | DMA.C:19-50 | an invalid channel returns `-EINVAL` with no port write; a valid one returns 0 and appends exactly the nine autoinit writes |
| Dma.Controller.Release | DMA.C:52-69 | an invalid channel returns `-EINVAL` with no port write; a valid one returns 0 and appends the mask, clear flip-flop and unmask writes |
| Irq.UnmaskClearsOnlyLine | IRQ.C:20-22 | `reg &= ~(1 << irq)` clears the line's bit and keeps every other bit |
| Irq.MaskSetsOnlyLine | IRQ.C:30-32 | setting `1 << irq` in the mask sets the line's bit and keeps every other bit |
| Irq.InstalledMeaning | IRQ.C:9-23 | `irq_init` saves vector `irq + 8` in `old_isr` before installing the handler there, leaves every other vector as it was, and unmasks only the line |
| Irq.HighLineKeepsMask | IRQ.C:21 | for a line of 8 or more, both operations write the mask byte back unchanged |
| Irq.InitThenReleaseRestores | IRQ.C:14-35 | `irq_init` then `irq_release` restores the whole vector table and leaves the line masked, with every other line unchanged |
| Irq.SecondInitLosesOriginal | IRQ.C:7-14 | after two `irq_init` calls, the release reinstalls the first handler, not the original vector |
| Irq.Interrupts.Init | IRQ.C:9-23 | the in-place update matches the `irq_init` state transformer |
| Irq.Interrupts.Release | IRQ.C:25-36 | the in-place update matches the `irq_release` state transformer |
| Wss.DmaCountMeaning | WSS.C:11 | from 8 bytes up, one more than the count, times 8, is the buffer size rounded down to a multiple of 8; below 8 bytes the count wraps to 0xFFFFFFFF |
| Wss.FullBufferCount | WSS.C:128-132 | for 32768 bytes the count is 0x0FFF, with low byte 0xFF and high byte 0x0F |
| Wss.PlaybackStartProgramShape | WSS.C:76-147 | the fourteen writes select fourteen different registers, and only the last two (format, configuration) carry the MCE bit |
| Wss.PlaybackStartProgramValues | WSS.C:76-147 | the values written: the four auxiliary inputs muted; DAC and mix set to 0; the interrupt pin enabled; the count split low byte first; format 0x5B at index 0x48; configuration 0x09 at index 0x49 |
| Wss.ProgramWritesLayout | WSS.C:56-62 | a run of completed indirect writes alternates index port and data port: write `i` is at trace positions `2i` and `2i + 1` |
| Wss.ApplyLastWrite | WSS.C:52-69 | a register ends with the value of the last write selecting it, and keeps its value when none does |
| Wss.PlaybackStartRegisters | WSS.C:76-147 | after the program each register holds the value written to it; the test/init and misc registers keep theirs |
| Wss.PlaybackStartLineInRegisters | WSS.C:76-83 | after the program the left and right ADC input registers hold 0 |
| Wss.PlaybackStartAuxRegisters | WSS.C:86-103 | after the program all four auxiliary input registers hold the mute bit 0x80 |
| Wss.PlaybackStartOutputRegisters | WSS.C:106-125 | after the program both DAC registers and the mix register hold 0, and the pin register holds IEN |
| Wss.PlaybackStartCountRegisters | WSS.C:128-135 | after the program the low and high count registers put together give the DMA count of the buffer size, modulo 2^16 |
| Wss.PlaybackStartFormatRegisters | WSS.C:138-147 | after the program the format register holds 0x5B and the configuration register 0x09; the test/init and misc registers keep their old values |
| Wss.EarlyStopKeepsConfig | WSS.C:143-146 | a run that stops before its last write leaves the configuration register as it was, since only the last write selects it |
| Wss.PenCleared | WSS.C:170 | `reg &= ~PEN` clears bit 0 and keeps bits 1 to 7 |
| Wss.PenSet | WSS.C:192 | setting PEN sets bit 0 and keeps bits 1 to 7 |
| Wss.StopContinueComposition | WSS.C:164-193 | stopping twice writes what stopping once does; stop then continue gives `r` with bit 0 set; continue then stop gives `r` with bit 0 clear |
| Wss.Codec.FirstReadyMeaning | WSS.C:19-25 | the poll at which a wait stops is the first, within its 10001 reads, that shows INIT clear; every poll before it shows INIT set |
| Wss.Codec.ReachedSplit | WSS.C:52-69 | running `a + b` waits in a row is running `a`, then, if none timed out, `b` more from where they stopped |
| Wss.Codec.Wait | WSS.C:14-28 | the result is `-ETIMEDOUT` exactly when 10001 consecutive reads show INIT set, and then exactly 10001 reads are made; otherwise it is 0, the last read shows INIT clear, all earlier reads show it set, and at most 10001 reads are made; the poll count after it is the one `Reached` names |
| Wss.Codec.ReadIndirect | WSS.C:40-50 | NULL gives `-EINVAL` and touches no port; otherwise one index write, then the selected register is read with no wait |
| Wss.Codec.WriteIndirect | WSS.C:52-69 | the index is written, then a wait; if that wait times out the data byte is never written and `-ETIMEDOUT` is returned; otherwise the data byte goes to the selected register; the result is 0 exactly when both waits find the codec ready, and then the poll count is where the second one stopped |
| Wss.Codec.ConfigureLineIn | WSS.C:75-83 | writes 0 and 1 of the program, stopping at the first timeout |
| Wss.Codec.ConfigureAux1 | WSS.C:85-93 | writes 2 and 3 of the program, stopping at the first timeout |
| Wss.Codec.ConfigureAux2 | WSS.C:95-103 | writes 4 and 5 of the program, stopping at the first timeout |
| Wss.Codec.ConfigureInputs | WSS.C:75-103 | writes 0 to 5 of the program, stopping at the first timeout |
| Wss.Codec.ConfigureDacs | WSS.C:105-113 | writes 6 and 7 of the program, stopping at the first timeout |
| Wss.Codec.ConfigureMixAndPin | WSS.C:115-125 | writes 8 and 9 of the program, stopping at the first timeout |
| Wss.Codec.ConfigureOutputs | WSS.C:105-125 | writes 6 to 9 of the program, stopping at the first timeout |
| Wss.Codec.ConfigureDmaCount | WSS.C:127-135 | writes 10 and 11 of the program, stopping at the first timeout |
| Wss.Codec.ConfigureFormat | WSS.C:137-147 | writes 12 and 13 of the program, stopping at the first timeout |
| Wss.Codec.ConfigurePlayback | WSS.C:127-147 | writes 10 to 13 of the program, stopping at the first timeout |
| Wss.Codec.PlaybackStart | WSS.C:71-150 | success exactly when all 28 waits find the codec ready; on success, the trace is the fourteen index/data pairs in order followed by the index write selecting the test/init register, and the registers are the program applied to the old ones; on a timeout, `done` is the write whose wait timed out, all writes before it completed, the trace ends inside that write, and the registers hold exactly the writes whose data byte went out |
| Wss.Codec.PlaybackStop | WSS.C:158-177 | the configuration register read is written back with PEN cleared and every other bit kept; a timeout of the first wait writes nothing; the result is 0 exactly when both waits find the codec ready |
| Wss.Codec.PlaybackContinue | WSS.C:180-199 | the configuration register read is written back with PEN set and every other bit kept; a timeout of the first wait writes nothing; the result is 0 exactly when both waits find the codec ready |
| Wav.Window | WAV.C:26-29 | the 512-byte local array holds the file's first bytes, up to 512, and its earlier contents after them |
| Wav.FindMarker | WAV.C:32-36 | the search result is the first offset in `[0, 508)` holding `"data"`, or 508 when there is none |
| Wav.FindMarkerIsFirst | WAV.C:32-36 | the search result is determined by the marker positions alone: the first match, or 508 |
| Wav.FindMarkerComplete | WAV.C:32-39 | a marker is found exactly when one starts below offset 508 |
| Wav.MarkerAtLimitMissed | WAV.C:32-39 | a marker starting at offset 508, with none before it, is not found |
| Wav.CanonicalHeader | WAV.C:32-46 | with `"data"` at offset 36 of a canonical header, the PCM data starts at offset 44 |
| Wav.ScanHeader | WAV.C:32-36 | the search loop returns the first match offset, or 508 |
| Wav.ReadHeader | WAV.C:26-29 | after the rewind, the local array holds the first 512 bytes and the cursor is past what was read |
| Wav.SkipHeader | WAV.C:11-47 | NULL gives 0; without a marker the result is 0; with one the cursor is at the match offset plus 8 and the result is the file size minus that offset, in `uint32_t` |
| Player.HalfOffset | PLAYER.C:12 | half 0 starts at 0 and half 1 at 16384, and each half fits in the 32768-byte buffer |
| Player.Flip | PLAYER.C:198 | `buffer_index ^= 1` stays in {0, 1} and always changes the index |
| Player.Refill | PLAYER.C:190-192 | a refill writes the bytes read into the current half, from its start; every other byte, in the rest of the half after a short read and in the other half, is untouched |
| Player.TwoRefillsFormRing | PLAYER.C:189-199 | two refills in a row, with 32 KiB of file left, leave the buffer as a ring over the file: read from the half refilled first and wrapping round, it gives the file's next 32768 bytes in order |
| Player.Player.Request | PLAYER.C:24 | the interrupt's effect on the engine: `wss_request` becomes true and nothing else changes |
| Player.Player.Stop | PLAYER.C:144-163 | a codec error is returned with the state and the stream unchanged; success closes an open stream once and ends STOPPED with `fd == NULL` |
| Player.Player.Pause | PLAYER.C:116-128 | the state becomes PAUSED exactly when the codec call returns 0, whatever it was before |
| Player.Player.Resume | PLAYER.C:130-142 | the state becomes PLAYING exactly when the codec call returns 0, whatever it was before |
| Player.Player.Open | PLAYER.C:80-91 | a missing file gives `-ENOENT`; a parse error closes the file once and is returned; success leaves the cursor at the PCM data |
| Player.Player.Preload | PLAYER.C:93-111 | the first read fills the buffer from offset 0 and sets `bytes_played` to the count read; the state becomes PLAYING unless the codec start fails, which closes the file |
| Player.Player.StartAsWritten | PLAYER.C:64-114 | the flag, half index and byte counter are reset; a missing file gives `-ENOENT`; after a parse or codec failure the file is closed but `fd` still points at it; success ends PLAYING with the first 32 KiB preloaded |
| Player.Player.Start | PLAYER.C:64-114 | as written, except that after a parse or codec failure `fd` is NULL |
| Player.Player.Service | PLAYER.C:189-200 | one refill of the current half; `bytes_played` grows by the count read; a read of nothing stops the player; the index flips and the flag is cleared |
| Player.Player.Task | PLAYER.C:180-201 | nothing changes unless the player is PLAYING with a refill requested; then exactly one half is refilled, as `Service` states |
| Player.Player.SecondsPlayed | PLAYER.C:175-178 | the result is the whole number of seconds in `bytes_played`: `s * byte_rate <= bytes_played < (s + 1) * byte_rate` |
| Player.FailedStartClosesTwiceAsWritten | PLAYER.C:105-109 | a codec start failure followed by `player_stop` closes the same stream twice |
| Player.FailedStartClosesOnce | PLAYER.C:105-109 | with `fd` set to NULL on failure, the same sequence closes the stream once |
| LinkedList.SwapNext | LIST.C:86-89 | exchanging two neighbours changes only those two places and keeps the multiset of elements |
| LinkedList.PassStep | LIST.C:84-94 | one compare-and-swap step of a pass keeps the pass invariant: a permutation; the tail beyond `last` is untouched; with no swap yet, nothing moved and the pairs behind the cursor are in order; for a strict weak order the cursor carries the largest element so far |
| LinkedList.PassSettles | LIST.C:84-95 | a finished pass, for a strict weak order, leaves one more element settled at the end |
| LinkedList.SettledAndCalmIsAscending | LIST.C:97 | a pass that swapped nothing in front of the settled part leaves the whole list in order |
| LinkedList.StopsBeforeLast | LIST.C:84-95 | the pass stops at the node just before `last`, which becomes the new `last` |
| LinkedList.NextBeforeLast | LIST.C:84-93 | while the successor is not `last`, it is the next node in the chain |
| LinkedList.List.constructor | LIST.C:5-9 | `list_create` gives an empty, well-formed list |
| LinkedList.Node.constructor | LIST.C:21-25 | a new node holds a copy of the data and has no neighbours |
| LinkedList.Add | LIST.C:11-60 | NULL list, NULL data or zero size leave the list unchanged; PREPEND puts the new element first and APPEND puts it last, keeping the order of the rest; an unknown position leaves the elements unchanged; adding to an empty list gives `head == tail` with NULL links |
| LinkedList.PrependNode | LIST.C:36-41 | linking a node in front of a non-empty list keeps it well formed, with the element first |
| LinkedList.AppendNode | LIST.C:50-55 | linking a node after a non-empty list keeps it well formed, with the element last |
| LinkedList.SwapWithNext | LIST.C:86-89 | swapping the data pointers of a node and its successor swaps the two elements; the chain stays as it was |
| LinkedList.BubblePass | LIST.C:81-95 | one pass keeps the chain and the multiset of elements and stops at the node before `last`; a pass with no swap changed nothing and found the prefix in order; for a strict weak order it settles one more element |
| LinkedList.PassWalk | LIST.C:84-94 | the inner loop ends at the node whose successor is `last`, with the pass invariant holding |
| LinkedList.PassStepAt | LIST.C:85-93 | one iteration of the inner loop keeps the pass invariant and moves the cursor one node on |
| LinkedList.Sort | LIST.C:62-98 | the node chain stays; the elements afterwards are a permutation of those before; a NULL comparator changes nothing; for a strict weak order the elements end ascending; there are at most as many passes as elements |
| LinkedList.Traverse | LIST.C:100-129 | NULL list, NULL callback or an unknown direction visit nothing; forward visits the elements head to tail; backward visits exactly the reverse |
| LinkedList.WalkForward | LIST.C:110-116 | the walk from `head` along `next` visits the elements in order |
| LinkedList.WalkBackward | LIST.C:118-124 | the walk from `tail` along `prev` visits the elements in reverse order |
| LinkedList.Destroy | LIST.C:131-151 | NULL frees nothing; otherwise, head to tail, each node's data and then the node are freed, and the list last; nothing is freed twice |
| LinkedList.FreedOnce | LIST.C:143-150 | when the nodes are distinct, the `free` calls in the order `list_destroy` makes them never repeat one |

## Left out

- `HI_BYTE`, `LO_BYTE`: their 0..255 range is the `bv8` result type, so there is no separate lemma for it.
- Raw `inp`/`outp`, `getvect`/`setvect`, `FP_SEG`/`FP_OFF`, `malloc`/`free` and the C stream calls are stood in for by models:
  - port writes are a trace;
  - codec status reads come from an oracle;
  - the vector table is a map;
  - the allocator answers from a fixed placement;
  - a file is a byte sequence with a cursor.
- `player_irq_handler` (PLAYER.C:22-27): it runs in interrupt context. Only its effect on the engine, `wss_request = true`, is modelled (`Player.Player.Request`). Clearing the codec status bit and acknowledging the PIC are left out.
- `player_init`, `player_deinit` (PLAYER.C:29-62): they put modelled operations in sequence with the unseen `wss_init` and `wss_get_*` calls:
  - `player_init` calls `buffer_allocate` (`Buffer.Allocate`) and `irq_init` (`Irq.Interrupts.Init`);
  - `player_deinit` calls `player_stop` (`Player.Player.Stop`), `dma_release` (`Dma.Controller.Release`), `irq_release` (`Irq.Interrupts.Release`) and `buffer_free` (`Buffer.Release`).

  Each call is modelled on its own; the two sequences are not composed into one member.
- `player_set_volume`, `player_get_state`: the first only forwards to the unseen `wss_set_volume`; the second returns the `state` field.
- `wss_init`, `wss_set_volume`, `wss_get_irq_number`, `wss_get_dma_channel`, `wav_parse_header` and `struct wss_playback_cfg_t` are not part of this model. Their results are method parameters.
- Player.Player.StartAsWritten: the player model holds no DMA controller, so the `dma_autoinit_start` call inside `player_start` changes nothing in it. Its nine port writes are modelled separately, by `Dma.Controller.AutoinitStart`. The new stream is assumed distinct from the previous one.
- Player.Player.Start: the same as `StartAsWritten`, for the DMA call and the new stream.
- Wss.Codec.PlaybackStart: the wait for auto-calibration (WSS.C:151-153) is left out, because it has no bound. The model ends after the index write that clears MCE.
- Buffer.Allocate: nothing is claimed about whether the retry block avoids a page boundary. That depends on where the allocator places it.
- Buffer.AllocateAsWritten: the same as `Allocate`, for the retry block.
- Player.Player.Task: it requires an open stream when PLAYING with a refill requested. A `player_resume` from STOPPED would make the source `fread` from NULL.
- Player.Player.SecondsPlayed: it requires a non-zero byte rate. The source divides by it without a check.
- LinkedList.List.constructor: a failing `calloc` in `list_create` is not modelled.
- LinkedList.Add: a failing `calloc` is not modelled. The node made and leaked for an unknown position is not tracked.
- LinkedList.Traverse: the callback's effects and its user data are not modelled. The result is the sequence of elements it would be called with.
- LinkedList.Sort: an ascending result is proved only for comparators that are strict weak orders, such as `strcmp(a, b) > 0`.
- Wav.SkipHeader: the bytes of the local array beyond a short file are its uninitialised contents, a parameter `junk`. The `fseek` and `ftell` error results are not modelled.

## Findings

| source | as written | input that shows it | evidently intended | confidence | as-written member | corrected member |
|---|---|---|---|---|---|---|
| BUFFER.C:38-48 | when the first block crosses a page, the second `malloc` result is stored and 0 is returned without checking it for NULL | first `malloc` returns `1F00:0000` (linear 0x1F000, which crosses 0x20000); the second returns NULL | free the first block and return `-ENOMEM`, so success always comes with a buffer | not executed | Buffer.SecondMallocFailureAsWritten | Buffer.Allocate |
| PLAYER.C:105-109 | after a parse or codec failure `fclose(fd)` is called but `fd` keeps the closed stream, so the next `player_stop` (for example from `player_deinit`, PLAYER.C:54) closes it again | `wss_playback_start` returns `-ETIMEDOUT`, then `player_stop` succeeds | set `fd` to NULL after closing, so each stream is closed once | not executed | Player.FailedStartClosesTwiceAsWritten | Player.Player.Start |
