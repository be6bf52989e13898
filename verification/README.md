# A verified model of the muxers and demuxers

This project models, in Dafny 4.11, the parts of the repository where one side compresses, packs or
reorders and another side must undo it: RTMP chunk streams, MP4 sample tables and the segment index of
fragmented MP4, presentation and decode order, MPEG-TS packets, Ogg pages, bit streams and the hvcC record
on top of them, EBML and the Matroska cluster layout, NAL unit framing, and SRT loss lists. `dafny verify
dfyconfig.toml` checks all of it.

Each component is described twice. A specification gives the state as a value and every step as a function;
the main theorems are lemmas about it, over all inputs and whole runs. Beside it stands the code in the
source's own form: classes whose methods change fields, and loops over arrays, sequences and buffers, each
proved to do what the specification says. Machine integers are ranges of `int` with their wrap-around
written out; shifts and masks are division and remainder by powers of two.

| files | component |
|---|---|
| `Arithmetic`, `Bytes`, `Wrappers` | products and remainders, machine integers, byte encodings, `Option` and `Result` |
| `RtmpWire`, `RtmpWriter`, `RtmpReader`, `RtmpRoundTrip`, `RtmpObjects` | chunk headers, the writer, the resumable reader, their simulation, both as objects (section 5.3.1 of Adobe's RTMP 1.0 specification) |
| `Mp4Tables`, `Mp4RoundTrip`, `Mp4Objects`, `Mp4Boxes` | sample tables, their expansion, both as loops, and the edit list and chunk offset boxes (sections 8.6 and 8.7 of ISO/IEC 14496-12) |
| `FmpIndex`, `FmpFile` | the segment index and the file it is patched into (section 8.16.3 of ISO/IEC 14496-12) |
| `EsOrder` | presentation order from a bounded window |
| `MkvDts`, `MkvDtsObjects`, `MkvQueue` | decode times from presentation times, and the offset of a whole file |
| `TsWire`, `TsFields`, `TsEncoding`, `TsDecoding` | packets, PES headers and tables as bytes, as bit fields, and through bit writers and readers (section 2.4.3 of ISO/IEC 13818-1) |
| `TsMux`, `TsMuxObjects`, `TsDemux`, `TsObjects`, `TsRoundTrip`, `TsReceive` | the muxer, the demuxer, and audio through both |
| `OggPages`, `OggMux`, `OggReader`, `OggRoundTrip`, `OggInterleave`, `OggGranules`, `OggObjects`, `OggDemuxer` | pages, both sides, and files of many streams (section 6 of RFC 3533) |
| `BitCodes`, `BitFields`, `BitStreams`, `BitWriter` | numbers as bits, fields and Exp-Golomb codes, reader and writer |
| `HvccRecord`, `HvccObjects` | the HEVC decoder configuration record (section 8.3.3.1 of ISO/IEC 14496-15) |
| `Ebml`, `EbmlLoops` | EBML elements (section 4 of RFC 8794) |
| `MkvLayout`, `MkvObjects` | clusters, blocks, cues and the seek head |
| `NalFraming`, `NalScanner`, `NalPrefixes` | Annex-B streams, the scanner, length prefixes |
| `SrtLoss` | sequence numbers and loss lists |

## Where the code does not keep a promise

Some promises hold only under a condition. The condition is proved exact; where the failure is surprising, a
concrete input is given.

- A zero-length RTMP message moves the writer's header state but is never sent, so a run comes back as
  written if and only if it holds no empty message; the others come back with their times and stream ids if and
  only if each finds the reader in step (`RtmpRoundTrip.RoundTripIffNoEmpty`, `RtmpRoundTrip.EmptyLosesStreamId`).
- MP4 tables give samples back if and only if sizes, steps and composition offsets fit their fields; one
  negative offset makes offsets of 2^31 or more unreadable (`Mp4RoundTrip.RoundTripIff`). Through the edit list
  and chunk offset boxes they do if and only if, besides, the chunk offset table is within the reader's limit, no
  chunk offset is past 32 bits when the last one is not, and the first sample is not shown exactly 2^32 - 1 ticks after it is decoded, unless that moves nothing
  (`Mp4Boxes.BoxesIff`, `Mp4Boxes.LargeOffsetLost`, `Mp4Boxes.EmptyEditLost`). Durations are conserved
  if and only if the steps of 2^63 ticks or more, forward or back, make up for each other
  (`Mp4RoundTrip.ConservedIff`, `Mp4RoundTrip.WideStepLost`, `Mp4RoundTrip.WideStepBackLost`).
- The orderer's rank is the true one if and only if no two frames are inverted across more than its window
  (`EsOrder.WindowExactIff`, `EsOrder.LateLeaderMisplaced`); every frame is shown at its rank plus the delay if and
  only if, besides, the measured delay covers them all (`EsOrder.AllAtRankIff`).
- The comment on `dtsReorder` says a decode time never passes the presentation time. It can, with tied
  presentation times even within the measured delay (`MkvDts.TiedDecodesLate`); it never does if and only if every
  proposed time leaves room for one tick per frame up to each later frame, or a frame in between is shown early
  enough to hold the times back (`MkvDts.NeverLateIff`); distinct times reordered no deeper than measured always
  qualify (`MkvDts.DistinctNeverLate`). The comment also says the n-th frame decodes at the n-th smallest time,
  shifted back by the depth; with distinct times it does if and only if the measured delay covers every frame
  (`MkvDts.DistinctOnTimelineIff`).
- A Matroska track measured early, or not read at all, when another track settles the offset of the file may start
  below zero (`MkvDts.EarlyStartsBelow`, `MkvDts.UnreadStartsBelow`), and the clamp to zero then moves decode times.
  With any offset of the file, the clamp leaves all its frames alone if and only if the earliest time of the track's
  first window plus that offset covers the measured head start (`MkvQueue.EarlyTrackMoved`). The offset settled covers
  what each track asks for (`MkvQueue.PacketQueue.SettleFile`), and a track asks for enough if and only if its
  earliest frame had been read by then or covers the head start unmoved (`MkvDts.EarlyMeasureIff`).
- A NAL unit is accepted up to the size cap and refused from the cap and one read on; between the two it depends on
  how the reads fall (`NalScanner.NalScanner.Next`).
- TS time stamps come back if and only if their 90 kHz form fits 33 bits (`TsRoundTrip.BackIff`).
- An Ogg page carries a granule if and only if a packet ends on it, except the last page of a stream without packets,
  which has no segment and carries granule 0 (`OggGranules.GranulesRise`, `OggGranules.EmptyStreamStamped`). A header
  packet longer than one page makes a page that is not read as it was written (`OggRoundTrip.HeadPageIff`).
- An hvcC record comes back if and only if its fields fit their widths and a parallelism type that means nothing is
  clear (`HvccRecord.RoundTripIff`); two fields of a new configuration do not fit (`HvccRecord.NewRecordLost`).
- EBML sizes from 2^56 - 1 on and ids that misstate their length do not come back
  (`Ebml.SizeRoundTripIff`, `Ebml.IdRoundTripIff`).
- A Matroska block with padding is always read as a key frame (`MkvLayout.ChildParses`), and one at 2^63 or later at
  time 0 (`MkvLayout.TimesKeptIff`).
- `ReadSE` is wrong for odd codes from 2^63 - 1 on (`BitFields.SignedIff`).
- `PutByte` off a byte boundary stores the low bits of the byte at the wrong end of the next one, so it appends the
  byte if and only if those bits are zero (`BitWriter.BitStreamWriter.PutByte`).
- `NextBits` of more than 64 bits rewinds without having read (`BitStreams.BitStream.NextBits`).
- An SRT loss list loses every run longer than 65537 numbers (`SrtLoss.LossListIff`).

## Model

| member | source | states |
|---|---|---|
| `RtmpRoundTrip.RoundTrip` | go-rtmp/chunk.go:255-546 | For every run of messages on chunk stream ids 2..65599 (any types, stream ids, 32-bit times, payloads of 1 to 0xFFFFFF bytes within the reader's limits), one writer per id, fed to a new reader in any split: the reader ends without an error, delivers exactly those messages in order and buffers nothing, also when the callback changes the chunk size along the way |
| `RtmpRoundTrip.RoundTripIffNoEmpty` | go-rtmp/chunk.go:291-293 | With empty messages allowed and a fixed chunk size: the contents of exactly the non-empty messages are delivered, in order; they equal the written run if and only if it holds no empty message; and the non-empty ones come back with their times and stream ids too if and only if each finds the reader in step: format 0, or the stream id and time the reader last got on its chunk stream are those of the last call on it |
| `RtmpRoundTrip.LossyRun` | go-rtmp/chunk.go:263-293 | However many empty messages disturb the writers' idea of the last header, the reader never reports an error and delivers the payloads and types of exactly the messages that were not empty, in order |
| `RtmpRoundTrip.EmptySend` | go-rtmp/chunk.go:283-293 | An empty message puts nothing on the wire but moves the writer's header and time, so that the reader may miss the stream id and the time of later messages; lengths and types stay in step |
| `RtmpRoundTrip.ReceivedIff` | go-rtmp/chunk.go:261-289 | After any calls, a message comes back with its time and stream id if and only if it goes out in format 0 (another stream id than the last call, or an earlier time), or what the reader last got on the chunk stream is what the last call had |
| `RtmpRoundTrip.RunHeard` | go-rtmp/chunk.go:263-546 | A run with empty messages in it is read without an error, and what is delivered, times and stream ids included, is what a reader that was only sent the others makes of the formats chosen |
| `RtmpRoundTrip.HeardIff` | go-rtmp/chunk.go:261-293 | Over whole runs: the non-empty messages come back exactly if and only if every one of them finds the reader in step |
| `RtmpRoundTrip.EmptyLosesStreamId` | go-rtmp/chunk.go:261-293 | After an empty message with stream id 1 and time 10, the next one with the same id and time is read with stream id 0 and time 0 |
| `RtmpRoundTrip.SendOne` | go-rtmp/chunk.go:255-331 | Simulation step: what one writeData call emits makes the reader complete exactly that message, or, after empty ones, one with the same payload and type and the time and stream id it works out; writers and reader are left in step again |
| `RtmpRoundTrip.ReadMessage` | go-rtmp/chunk.go:493-540 | The chunks of a message, read from between two chunks with other streams' messages half done, complete exactly that message and disturb no other stream |
| `RtmpRoundTrip.ParseHead` | go-rtmp/chunk.go:421-492 | A chunk header of any format, with or without extended timestamp, leaves the reader at the payload with the header the writer meant |
| `RtmpReader.SplitIndependence` | go-rtmp/chunk.go:415-546 | For every state satisfying the invariant and all a, b: reading a ++ b gives the outcome (messages, error, final state) of reading a and then b, with interleaved chunks, empty messages and chunk size changes |
| `RtmpReader.AnySplit` | go-rtmp/chunk.go:415-546 | Any cutting of an input into calls has the outcome of one call on the whole |
| `RtmpReader.StepKeepsInv` | go-rtmp/chunk.go:419-544 | Every turn of the parser loop keeps the invariant: buffered is the total of all incomplete messages and within its limit, the number of chunk streams is within its limit, partial chunks exist only on the current stream in the payload state; and an advancing turn consumes input or ends an empty message |
| `RtmpReader.Reachable` | go-rtmp/chunk.go:388-413 | In every state reached without error from a new reader, over any pieces and any callback: buffered equals the total held, both limits hold, and chunkRead is non-zero only for the current stream in the payload state |
| `RtmpReader.HeldUpdate` | go-rtmp/chunk.go:505-536 | Storing one chunk stream changes the total held by exactly the change of its own message |
| `RtmpReader.StepIgnoresTail` | go-rtmp/chunk.go:419-544 | A turn that did not run out of input does exactly the same with more input behind it |
| `RtmpReader.StepResumes` | go-rtmp/chunk.go:429-513 | A turn that ran out of input, resumed with the rest, does what it would have done on all of it at once |
| `RtmpWire.BasicRoundTrip` | go-rtmp/chunk.go:42-91 | Every basic header with an id in 2..65599 decodes to itself, and its first byte announces the length it has |
| `RtmpWire.MsgHeadRoundTrip` | go-rtmp/chunk.go:100-160 | Decoding a message header of format 0, 1 or 2 over the previous one yields exactly the fields that format carries and keeps the others; a time that needs the extension reads as 0xFFFFFF |
| `RtmpObjects.ChunksFill` | go-rtmp/chunk.go:300-330 | The buffer size computed up front is exactly the number of bytes the chunk loop writes |
| `RtmpObjects.ChunkStreamWriter.StartMessage` | go-rtmp/chunk.go:261-289 | The new current header and time are those of the writer specification, whatever the state before |
| `RtmpObjects.ChunkStreamWriter.EmitChunks` | go-rtmp/chunk.go:295-330 | The loop fills the allocated array exactly with the specified chunks and leaves a format 3 header behind |
| `RtmpObjects.ChunkStreamWriter.WriteData` | go-rtmp/chunk.go:255-331 | Output, error and new state of the call are those of the writer specification the round trip is about |
| `RtmpObjects.ChunkStream.Take` | go-rtmp/chunk.go:515-540 | The last bytes of a chunk extend the message; a complete one is handed over with absolute or accumulated time |
| `RtmpObjects.ChunkStreamReader.constructor` | go-rtmp/chunk.go:403-413 | A new reader is in the initial state of the reader specification and satisfies the invariant |
| `RtmpObjects.ChunkStreamReader.BasicHeadTurn` | go-rtmp/chunk.go:421-460 | The basic header turn on the object, caching split headers, refines the specified turn |
| `RtmpObjects.ChunkStreamReader.MsgHeadTurn` | go-rtmp/chunk.go:461-480 | The message header turn on the object refines the specified turn; other streams are untouched |
| `RtmpObjects.ChunkStreamReader.ExtendTsTurn` | go-rtmp/chunk.go:481-492 | The extended timestamp turn on the object refines the specified turn |
| `RtmpObjects.ChunkStreamReader.PayloadTurn` | go-rtmp/chunk.go:493-540 | The payload turn on the object, with both length errors, refines the specified turn |
| `RtmpObjects.ChunkStreamReader.ReadRtmpMessage` | go-rtmp/chunk.go:415-546 | The loop over mutable chunk streams has exactly the outcome of the specified call, keeps the invariant when there is no error, and counts received bytes modulo 2^64 |
| `Mp4RoundTrip.RoundTripIff` | go-mp4/mp4track.go:214-320 | For every non-empty list of samples (below 2^32 of them, held by the file): expanding the tables, with stsc cut to entryCount, succeeds and gives back every offset, size, dts and pts counted from the first dts, if and only if sizes are below 2^32, dts never steps back or by 2^32 or more, and the pts-dts offsets are all in unsigned or all in signed 32 bits (all zero for a track without ctts) |
| `Mp4Boxes.BoxesIff` | go-mp4/edts-box.go:122-146 | With the edit list and the chunk offsets written to their boxes and read back: every sample comes back if and only if the tables give it back, the chunk offset table is within the reader's limit and loses no offset, and the edit is not taken for an empty one that moves the start |
| `Mp4Boxes.OffsetBoxBack` | go-mp4/stco-box.go:42-161 | The reader refuses a chunk offset box over its limit and else gets exactly what the form chosen by the last offset has kept of each one |
| `Mp4Boxes.KeptIff` | go-mp4/stco-box.go:149-161 | No offset is lost if and only if the last one is past 32 bits or none is |
| `Mp4Boxes.EditBoxBack` | go-mp4/edts-box.go:35-110 | The edit comes back alone, its media time taken for signed 32 bits unless the wide form was chosen |
| `Mp4Boxes.EmptyEditIff` | go-mp4/edts-box.go:122-146 | The edit written is read as an empty one if and only if the first sample is shown 2^32 - 1 ticks after it is decoded |
| `Mp4Boxes.LostOffsetShows` | go-mp4/mp4demuxer.go:637-669 | A chunk offset that is cut is the offset of some sample, which then does not come back |
| `Mp4Boxes.EmptyEditLost` | go-mp4/mp4demuxer.go:673-683 | A sample shown 2^32 - 1 ticks late, which the tables can express, comes back later than it was |
| `Mp4Boxes.LargeOffsetLost` | go-mp4/stco-box.go:149-161 | Two chunks, the first past 2^32 and the second not: the first is read at another place |
| `Mp4Boxes.EncodeOffsets` | go-mp4/stco-box.go:74-84 | The loop writes the specified chunk offset box |
| `Mp4Boxes.DecodeOffsets` | go-mp4/stco-box.go:42-72 | The loop reads the specified offsets or their error |
| `Mp4Boxes.DecodeEdits` | go-mp4/edts-box.go:59-110 | The loop reads the specified edits of either version or their error |
| `Mp4RoundTrip.TablesReadBack` | go-mp4/mp4demuxer.go:609-719 | Without any condition on times, the expansion of the written tables accepts them and gives back every position and size |
| `Mp4RoundTrip.BigSizesLost` | go-mp4/mp4track.go:288-295 | A size of 2^32 or more never comes back |
| `Mp4RoundTrip.PtsIff` | go-mp4/mp4demuxer.go:695-716 | With decode times right, presentation times come back just when one ctts box can express the offsets |
| `Mp4RoundTrip.SttsExpands` | go-mp4/mp4track.go:238-254 | The stts entries expand to one delta per sample, in order |
| `Mp4RoundTrip.CttsExpands` | go-mp4/mp4track.go:256-266 | The ctts entries expand to one offset per sample, read in either box version |
| `Mp4RoundTrip.CttsVersion` | go-mp4/mp4track.go:231-236 | The signed box version is chosen exactly when some offset is negative |
| `Mp4RoundTrip.ChunksFlatten` | go-mp4/mp4track.go:270-276 | The chunks cover every sample once; a sample opens a chunk exactly when it does not start where the one before it ends |
| `Mp4RoundTrip.IteratorFinds` | go-mp4/mp4demuxer.go:639-647 | The forward-only stsc iterator stands, at every chunk, on the entry that was last when that chunk was written |
| `Mp4RoundTrip.ChunksExpand` | go-mp4/mp4demuxer.go:656-669 | Expanding stsc and stco gives the same chunk starts as the chunks the muxer formed |
| `Mp4RoundTrip.OffsetComesBack` | go-mp4/mp4demuxer.go:656-669 | Every sample gets its own file offset back, chained through the sizes of its chunk |
| `Mp4RoundTrip.SizeComesBack` | go-mp4/mp4track.go:278-295 | The uniform and the per-sample form of stsz both give every size back, an all-zero run included |
| `Mp4RoundTrip.DurationConserved` | go-mp4/mp4track.go:200-254 | Corollary: with no step of 2^63 ticks or more forward or of more than that back, and even with dts going backwards, the sum of count times delta over stts equals mediaDuration() modulo 2^32, and exactly while the total is below 2^32 |
| `Mp4RoundTrip.ConservedIff` | go-mp4/mp4track.go:200-254 | For all decode times: the sum of count times delta over stts equals mediaDuration() modulo 2^32 if and only if the skews of the steps beyond 63 bits, each known from two neighbouring decode times, add up to zero modulo 2^32 |
| `Mp4RoundTrip.WideStepLost` | go-mp4/mp4track.go:204-209 | Two samples 2^63 + 2 ticks apart: the signed span and the unsigned table disagree although the total is small |
| `Mp4RoundTrip.WideStepBackLost` | go-mp4/mp4track.go:204-209 | A step back by more than 2^63 ticks makes them disagree as well |
| `Mp4Tables.StscFits` | go-mp4/mp4track.go:297-308 | Never more stsc entries than chunks, so the array allocated up front suffices |
| `Mp4Objects.Mp4Track.AddSampleEntry` | go-mp4/mp4track.go:200-212 | The sample is appended and the duration field stays the accumulated span of the list |
| `Mp4Objects.Mp4Track.LastSampleDelta` | go-mp4/mp4track.go:667-677 | The last step, or one tick where there is none or it is not forward |
| `Mp4Objects.Mp4Track.GetMediaDuration` | go-mp4/mp4track.go:683-688 | The media duration of the samples held; of an empty list, the duration left from before |
| `Mp4Objects.Mp4Track.CompressTimes` | go-mp4/mp4track.go:222-277 | The single pass with its look-ahead, last entry updates and chunk counter computes the specified stts, ctts, chunks and size flag |
| `Mp4Objects.Mp4Track.MakeStblTable` | go-mp4/mp4track.go:214-320 | The tables are replaced by those of the samples held, or by empty ones |
| `Mp4Objects.CompressChunks` | go-mp4/mp4track.go:297-308 | The stsc array holds the specified entries first and unused ones behind, with their number in entryCount |
| `Mp4Objects.ChunkCounts` | go-mp4/mp4demuxer.go:637-647 | The chunk loop finds the samples per chunk with one iterator that only moves forward |
| `Mp4Objects.FillSizes` | go-mp4/mp4demuxer.go:648-655 | Every element gets its size in place and nothing else changes |
| `Mp4Objects.FillOffsets` | go-mp4/mp4demuxer.go:656-669 | The nested loop places every sample in place; samples past the last chunk keep offset 0 |
| `Mp4Objects.FillDts` | go-mp4/mp4demuxer.go:670-693 | The nested loop gives every sample its running decode time in place |
| `Mp4Objects.FillPts` | go-mp4/mp4demuxer.go:695-716 | Presentation times in place from the signed offsets; samples past ctts keep pts == dts |
| `Mp4Objects.StartTime` | go-mp4/mp4demuxer.go:670-683 | The start of the decode times from empty edits; an error exactly when one is needed and the movie timescale is 0 |
| `Mp4Objects.BuildSampleList` | go-mp4/mp4demuxer.go:609-719 | The five passes over the array together give the specified sample list, or its error |
| `EsOrder.WindowExactIff` | go-es/order.go:61-81 | rank(0) at every resolve is the stable rank among all frames of the run if and only if no two frames shown against their push order are more than 16 pushes apart |
| `EsOrder.SeenRankError` | go-es/order.go:61-110 | Always, the rank used is the true rank plus the inversions that left the history less those not yet pushed |
| `EsOrder.RankCounts` | go-es/order.go:61-81 | The stable rank, defined as the number of frames shown before, is what the counting formula gives with nothing out of sight |
| `EsOrder.RankOrders` | go-es/order.go:15-20 | Ranks order frames exactly as they are shown, equal keys in push order, and no two frames share one |
| `EsOrder.RanksPermute` | go-es/order.go:61-81 | Together with RankBounded and RankOrders, the ranks are a permutation of 0..N-1: every place is taken |
| `EsOrder.RankBounded` | go-es/order.go:61-81 | Every rank is below the number of frames |
| `EsOrder.ShownAtRank` | go-es/order.go:92-110 | Where the window sees true ranks, ptsIndex is rank + delay if and only if the delay covers the frame; otherwise it is held to its decode index |
| `EsOrder.AtRankIff` | go-es/order.go:92-110 | In any stream, ptsIndex is rank + delay if and only if the delay covers the frame and the inversions out of sight behind and ahead of it cancel, or fewer are behind and the clamp puts it right |
| `EsOrder.AllAtRankIff` | go-es/order.go:45-110 | Every frame of a stream is shown at rank + delay if and only if no two are inverted across more than the window and the delay covers all |
| `EsOrder.FirstWindowCovered` | go-es/order.go:83-90 | The measured delay covers every frame of the first window, wherever the stream goes |
| `EsOrder.ShownInOrder` | go-es/order.go:45-110 | Then presentation indexes are distinct and sort the frames exactly as they are shown |
| `EsOrder.ShortStreamShownInOrder` | go-es/order.go:45-59 | A stream no longer than the first window is always put in order |
| `EsOrder.LateLeaderMisplaced` | go-es/order.go:3-6 | A concrete stream reordering deeper than the window whose first frame gets a wrong rank |
| `EsOrder.DelayReached` | go-es/order.go:85-90 | The measured delay is not only a bound: some frame of the first window is that far ahead |
| `EsOrder.Orderer.RankOf` | go-es/order.go:64-81 | The two loops over history and window compute the counting formula |
| `EsOrder.Orderer.Measure` | go-es/order.go:85-90 | The loop finds the largest lead of the first window |
| `EsOrder.Orderer.Resolve` | go-es/order.go:92-110 | The oldest frame leaves with its indexes, computed from all keys pushed so far; window and history move on by one |
| `EsOrder.Orderer.Push` | go-es/order.go:45-51 | A frame enters the window; once it is full, exactly the oldest leaves |
| `EsOrder.Orderer.Flush` | go-es/order.go:53-59 | All frames left leave in push order |
| `EsOrder.OrderStream` | go-es/order.go:45-110 | A stream pushed and flushed: frames leave once, in push order, with dtsIndex 0..N-1 and ptsIndex >= dtsIndex, and with the indexes the theorems above are about |
| `MkvDts.NeverBackwards` | go-mkv/dts.go:90-116 | In every run, with any measurement, decode times never decrease |
| `MkvDts.OnTimelineIff` | go-mkv/dts.go:13-24 | The n-th decode time is the (n - delay)-th smallest presentation time of the whole run (extended backwards by the spacing) and never after the frame is shown, if and only if no frame is shown before its place there and coinciding places leave no room to spread |
| `MkvDts.DistinctOnTimelineIff` | go-mkv/dts.go:13-24 | With distinct presentation times this holds if and only if no frame's decode position exceeds its stable rank by more than the measured delay |
| `MkvDts.NeverLateIff` | go-mkv/dts.go:13-15 | In every run, with any measurement, no decode time passes its presentation time if and only if every time proposed for an earlier frame leaves room for one tick per frame up to a later one, or a frame in between is shown early enough to hold the times back |
| `MkvDts.NeverLateWithinDelay` | go-mkv/dts.go:13-22 | Where no frame is reordered deeper than measured, that is a condition on the sorted presentation times alone |
| `MkvDts.DistinctNeverLate` | go-mkv/dts.go:13-22 | Distinct presentation times, reordered no deeper than measured, are never decoded late |
| `MkvDts.WithinDelayReaches` | go-mkv/dts.go:79-83 | Reordering no deeper than measured makes every place of that timeline reachable, ties or not |
| `MkvDts.TiedDecodesLate` | go-mkv/dts.go:107-111 | Frames with equal presentation times can be given a decode time after their presentation time although the delay covers them |
| `MkvDts.PoppedAreSmallest` | go-mkv/dts.go:96-102 | What has been taken off the heap by the n-th frame is exactly the n - delay smallest presentation times of the whole run, although only a window of it has been seen |
| `MkvDts.RawIsTimeline` | go-mkv/dts.go:96-102 | Every time proposed before clamping then lies on the ideal timeline, the frames before the first presentation time included |
| `MkvDts.SortedAtRank` | go-mkv/dts.go:76-83 | The frame of stable rank r holds the r-th smallest presentation time |
| `MkvDts.ShiftIsLeast` | go-mkv/dts.go:57-62 | shift() is the smallest move that makes the first decode time zero or later |
| `MkvDts.ShiftedNotNegative` | go-mkv/mkv-demuxer.go:633-634 | For a track measured before the offset is settled, the clamp to zero never acts on any frame |
| `MkvDts.EarlyMeasureIff` | go-mkv/mkv-demuxer.go:600-610 | Moved by the shift the track asks for when the offset is settled (none if it has no frame by then), all its decode times are zero or later if and only if some frame had been read and no earlier one turns up later in its window, or the earliest frame covers the measured head start unmoved |
| `MkvDts.CoveredIff` | go-mkv/mkv-demuxer.go:600-636 | Whenever the track is measured and whatever offset the file is given, all its decode times plus the offset are zero or later if and only if the earliest time of its first window plus the offset covers the measured delay times the spacing |
| `MkvDts.UnreadStartsBelow` | go-mkv/dts.go:57-62 | The times 0, 80, 40, none of them read when the offset is settled: the track asks for nothing, is measured with its earliest frame, and its first decode time is -40 |
| `MkvDts.EarlyStartsBelow` | go-mkv/mkv-demuxer.go:602-610 | Times 100, 60, 20, measured after two frames: no shift, and a first decode time of -20 |
| `MkvDts.MeasureIsPlausible` | go-mkv/dts.go:66-88 | A measurement is less deep than the window, with non-negative spacing and the earliest time of the window |
| `MkvDts.MinOfSorted` | go-mkv/dts.go:118-129 | The top of the heap is the smallest presentation time held |
| `MkvDts.StableOrder` | go-mkv/dts.go:72-78 | A stable sort of the window; ties keep decode order |
| `MkvDts.OrderIsRank` | go-mkv/dts.go:76-83 | That order lists the frames by stable rank, hence by presentation time |
| `MkvDts.MeasureWindow` | go-mkv/dts.go:66-88 | The loop over the stable order computes depth, spacing and earliest time as defined by ranks |
| `MkvDtsObjects.DtsReorder.Measure` | go-mkv/dts.go:66-88 | Measures once, and not on an empty window |
| `MkvDtsObjects.DtsReorder.Shift` | go-mkv/dts.go:57-62 | Nothing while unmeasured, else the shift of the measurement |
| `MkvDtsObjects.DtsReorder.ResolveOldest` | go-mkv/dts.go:90-116 | The oldest pending frame, and only it, gets its decode time in place |
| `MkvDtsObjects.DtsReorder.Push` | go-mkv/dts.go:41-47 | A frame joins the window and the heap; a full window resolves its oldest frame |
| `MkvDtsObjects.DeriveStream` | go-mkv/dts.go:41-53 | A stream pushed and flushed, with the offset settled after any number of its frames: every frame object is resolved once, in push order, with the decode time the theorems above are about, for the measurement of the first window or of the frames read by then |
| `MkvDtsObjects.MeasureEarly` | go-mkv/dts.go:66-88 | Settling the offset after any number of frames of a track fixes what it is measured as and what it asks for, and nothing else |
| `MkvQueue.PacketQueue.SettleOffset` | go-mkv/mkv-demuxer.go:602-610 | Every track is measured on what it holds, and the offset becomes the largest shift any of them needs, no more |
| `MkvQueue.PacketQueue.SettleFile` | go-mkv/mkv-demuxer.go:600-610 | In a file of which any number of frames of each track have been read, every track becomes measured on those as the theorems say, and the offset covers what each track asks for and is what one of them asks for |
| `MkvQueue.PacketQueue.Emit` | go-mkv/mkv-demuxer.go:629-636 | The head of the queue leaves once it has its decode time, moved by the offset |
| `MkvQueue.TrackMoved` | go-mkv/mkv-demuxer.go:614-636 | For a track that settles the offset, emitted decode times start at zero or later, never go backwards and keep their distance from the presentation time; a file that moves starts decoding exactly at zero |
| `MkvQueue.EarlyTrackMoved` | go-mkv/mkv-demuxer.go:602-636 | For a track measured after any number of its frames, in a file with any offset: emitted decode times never go backwards, and every frame keeps its distance from the presentation time if and only if the earliest time of its first window plus that offset covers the measured head start |
| `MkvQueue.AskedTrackMoved` | go-mkv/mkv-demuxer.go:600-636 | With an offset that covers what the track asks for, a track whose earliest frame had been read by then is left alone, and so is one whose earliest frame covers the head start unmoved; where the offset is exactly what the track asks for, no other track is |
| `TsRoundTrip.AudioRoundTrip` | go-mpeg2/ts-muxer.go:136-363 | For any streams (up to 33, the most one PMT packet holds) and any run of writes to any of them, known or not, empty or not: the demuxer reads all packets without an error, and for every audio stream reports, by the time it is flushed, exactly the non-empty frames written to it, in order, with their time stamps through 33 bits |
| `TsRoundTrip.BackIff` | go-mpeg2/ts-muxer.go:226 | A time in milliseconds comes back unchanged if and only if 90 times it is below 2^33 |
| `TsRoundTrip.RunLinked` | go-mpeg2/ts-demuxer.go:112-250 | From any moment on, with muxer and demuxer in step, what is reported and left pending is what was pending and what is written |
| `TsRoundTrip.WriteFrameLinked` | go-mpeg2/ts-muxer.go:136-227 | One write, tables due or not, keeps muxer and demuxer in step and moves every audio stream by exactly the frame written to it |
| `TsRoundTrip.WriteTablesLinked` | go-mpeg2/ts-muxer.go:182-216 | Program tables, sent for the first time or again, are read without an error, announce every stream and disturb no frame under assembly |
| `TsRoundTrip.RunContinuous` | go-mpeg2/ts-demuxer.go:51-71 | In any run of writes, audio or video, every packet that reaches a known stream carries the counter that stream waits for: none is taken for a duplicate, and no frame is dropped at a gap |
| `TsRoundTrip.WholeJob` | go-mpeg2/ts-demuxer.go:327-347 | A whole PES packet, first and continuation packets, reports the frame before it and leaves its own data assembled with its time stamps |
| `TsRoundTrip.LaterPackets` | go-mpeg2/ts-muxer.go:272-362 | The continuation packets complete the data exactly, however it falls on packet boundaries and stuffing |
| `TsRoundTrip.RunOnStream` | go-mpeg2/ts-demuxer.go:211-248 | Packets of one elementary stream change the state and reports of that stream only |
| `TsMux.NextPacketSize` | go-mpeg2/ts-muxer.go:259-363 | Every packet built for a PES packet is exactly 188 bytes, and its adaptation field length fits its byte |
| `TsMux.WriteKeeps` | go-mpeg2/ts-muxer.go:136-363 | Every packet of every write is 188 bytes and every continuity counter stays below 16 |
| `TsWire.PacketRoundTrip` | go-mpeg2/ts-proto.go:93-135 | A packet of 188 bytes, with or without adaptation field, decodes to its start flag, PID, counter and payload |
| `TsWire.FieldRoundTrip` | go-mpeg2/ts-proto.go:271-374 | Decoding skips exactly the adaptation field encoded, PCR and stuffing included |
| `TsWire.StampRoundTrip` | go-mpeg2/pes-proto.go:161-285 | A time stamp comes back modulo 2^33 past its marker bits |
| `TsWire.PesRoundTrip` | go-mpeg2/pes-proto.go:161-417 | A PES header gives back both time stamps (one when they are equal) and exactly the payload, for bounded and unbounded lengths |
| `TsWire.PatRoundTrip` | go-mpeg2/ts-proto.go:478-540 | A PAT decodes to the programs encoded, whatever stuffing follows |
| `TsWire.PmtRoundTrip` | go-mpeg2/ts-proto.go:602-690 | A PMT decodes to its program number and streams, whatever stuffing follows |
| `TsDemux.RunConcat` | go-mpeg2/ts-demuxer.go:112-250 | Packets read in two runs give the state and reports of one run |
| `TsMuxObjects.TsMuxer.AddStream` | go-mpeg2/ts-muxer.go:114-130 | A stream gets the next pid and joins the program |
| `TsMuxObjects.TsMuxer.WriteProgramTables` | go-mpeg2/ts-muxer.go:182-216 | Tables go out exactly when due, with their counters moved |
| `TsMuxObjects.TsMuxer.EmitNext` | go-mpeg2/ts-muxer.go:272-362 | One packet of the loop leaves, its stream's counter moves, the data taken is dropped |
| `TsMuxObjects.TsMuxer.WritePes` | go-mpeg2/ts-muxer.go:259-363 | The loop emits the specified packets of the PES packet and moves only its stream's counter, once per packet |
| `TsMuxObjects.TsMuxer.Write` | go-mpeg2/ts-muxer.go:136-227 | Output, new state and error of the call are those of the muxer specification |
| `TsMuxObjects.BuildPacket` | go-mpeg2/ts-muxer.go:261-358 | The header length bookkeeping, field, delimiter and stuffing decisions of the loop, through a bit writer, build exactly the specified packet and leave exactly the data it did not take |
| `TsMuxObjects.BuildPat` | go-mpeg2/ts-muxer.go:229-242 | Header, pointer byte, section and stuffing make up the specified packet |
| `TsMuxObjects.BuildPmt` | go-mpeg2/ts-muxer.go:244-257 | The same for the map of any streams that fit one packet |
| `TsEncoding.EncodeHeader` | go-mpeg2/ts-proto.go:93-101 | The bit fields written are the four bytes of the header |
| `TsEncoding.AdaptationField.Encode` | go-mpeg2/ts-proto.go:271-308 | Length patched in afterwards included, what is written is the adaptation field in bytes, and the length counts all of it |
| `TsEncoding.EncodePes` | go-mpeg2/pes-proto.go:362-417 | Start code, flags and both stamps with their marker bits are the specified bytes, followed by the payload |
| `TsEncoding.EncodePat` | go-mpeg2/ts-proto.go:478-505 | The section with its length patched in is the PAT in bytes |
| `TsEncoding.EncodePmt` | go-mpeg2/ts-proto.go:602-636 | The same for the PMT |
| `TsEncoding.Pad` | go-mpeg2/ts-muxer.go:82-86 | Fills up to the packet size and leaves a packet already too long alone |
| `TsDecoding.DecodePacket` | go-mpeg2/ts-proto.go:107-135 | Reading the header bit by bit gives the packet the byte description gives, errors included |
| `TsDecoding.DecodeField` | go-mpeg2/ts-proto.go:314-331 | Leaves the reader exactly behind the field, or reports that it is longer than the packet |
| `TsDecoding.DecodeFlags` | go-mpeg2/ts-proto.go:337-374 | Fails exactly when something the flags announce does not fit the field: clocks, splice countdown, private data or extension |
| `TsDecoding.DropExtension` | go-mpeg2/ts-proto.go:363-399 | An extension ends where its length says, or where its flags end when that is later |
| `TsDecoding.DecodePes` | go-mpeg2/pes-proto.go:161-285 | Reading the header bit by bit gives the stamps and payload of the byte description, or asks for more in the same cases |
| `TsDecoding.SkipFill` | go-mpeg2/ts-proto.go:413-418 | The loop skips exactly the fill bytes before a section |
| `TsDecoding.DecodePat` | go-mpeg2/ts-proto.go:507-540 | The entry loop gives the programs of the byte description, or its error |
| `TsDecoding.DecodePmt` | go-mpeg2/ts-proto.go:638-690 | The stream loop, skipping descriptors, gives the streams of the byte description, or its error |
| `TsObjects.TsStream.CheckContinuity` | go-mpeg2/ts-demuxer.go:51-71 | Duplicates are ignored, gaps drop the partial frame, as specified |
| `TsObjects.TsStream.DropPartial` | go-mpeg2/ts-demuxer.go:73-80 | The partial frame is gone and the stream waits for a start |
| `TsObjects.TsStream.DoAudio` | go-mpeg2/ts-demuxer.go:327-347 | What was collected before a new start is delivered, the payload is collected |
| `TsObjects.TsStream.Input` | go-mpeg2/ts-demuxer.go:187-248 | A packet of an elementary stream: header reassembly, time stamps and delivery as specified |
| `TsObjects.TsDemuxer.InputPat` | go-mpeg2/ts-demuxer.go:152-170 | New programs are added, known ones keep their streams |
| `TsObjects.TsDemuxer.InputPmt` | go-mpeg2/ts-demuxer.go:171-196 | New streams are added, known ones keep their state |
| `TsObjects.TsDemuxer.InputPacket` | go-mpeg2/ts-demuxer.go:112-250 | One packet is dispatched as specified: tables, known stream or ignored |
| `TsObjects.TsDemuxer.Input` | go-mpeg2/ts-demuxer.go:112-250 | The packet loop refines the specified run, up to its first error |
| `TsObjects.TsDemuxer.Flush` | go-mpeg2/ts-demuxer.go:289-310 | In whatever order the streams are visited, each reports exactly the frame it has under assembly, if any, and none has one afterwards |
| `TsReceive.ReceiveAll` | go-mpeg2/ts-demuxer.go:112-310 | A new demuxer object that reads all packets of a run of writes and flushes meets no error and has reported, for every audio stream, exactly the non-empty frames written to it, in order |
| `OggInterleave.FileRoundTrip` | go-ogg/ogg-muxer.go:125-331 | For any calls on any streams, then WriteTrailer: the bytes, fed to the demuxer in any pieces, give back for every stream its header packets and then every packet accepted for it, whole, once and in order; a stream left out gives nothing |
| `OggInterleave.RunTold` | go-ogg/ogg-muxer.go:133-331 | After any calls, every page has at most 255 segments that sum to its body, and the pages of each stream are those of its accepted packets alone, whatever was interleaved |
| `OggInterleave.EndTold` | go-ogg/ogg-muxer.go:305-331 | After WriteTrailer the pages of a stream are its whole life: head, tags, packets, last page |
| `OggRoundTrip.LifeRoundTrip` | go-ogg/ogg-muxer.go:173-331 | One stream written to its end reads back as OpusHead, OpusTags and its packets, each once and in order |
| `OggRoundTrip.HeadPageIff` | go-ogg/ogg-muxer.go:264-300 | The page of a header packet, written with its number of segments cut to a byte, is read as it was made if and only if the packet fits one page |
| `OggRoundTrip.AddPacketDelivers` | go-ogg/ogg-muxer.go:211-261 | A packet added to any open page is, once pages are written, delivered after what was there, nothing lost, even when a page that was due goes out first |
| `OggRoundTrip.AddDataDelivers` | go-ogg/ogg-muxer.go:235-257 | A packet spread over any number of full pages comes out whole |
| `OggRoundTrip.FlushFollows` | go-ogg/ogg-muxer.go:274-301 | Writing the open page delivers its packets, keeps the unfinished one, and leaves reader and writer in step |
| `OggGranules.GranulesRise` | go-ogg/ogg-muxer.go:211-331 | In a stream with packets, a page carries a granule if and only if a packet ends on it, granules never decrease, and the last is the end of the stream less the padding of its last packet |
| `OggGranules.FileGranulesRise` | go-ogg/ogg-muxer.go:211-331 | The same for each stream of a file with any interleaving; a stream without packets has no page at all or its two headers and the page that breaks the rule |
| `OggGranules.EmptyStreamStamped` | go-ogg/ogg-muxer.go:305-331 | A stream opened and closed without packets: after its headers comes a last page with no segment, on which nothing ends, and which carries granule 0 |
| `OggReader.SplitIndependence` | go-ogg/ogg-demuxer.go:58-213 | Input in any pieces gives the packets, the error and, without one, the final state of the whole input at once |
| `OggReader.AdvanceSplit` | go-ogg/ogg-demuxer.go:58-213 | Bytes that arrive later change nothing about what earlier ones gave, also in the middle of a header or body |
| `OggReader.AdvancePages` | go-ogg/ogg-demuxer.go:76-213 | The bytes of well-formed pages, with any checksums, are read as exactly those pages and leave the reader between pages |
| `OggReader.StreamAlone` | go-ogg/ogg-demuxer.go:130-205 | Each stream's packets and state depend on its own pages only |
| `OggPages.HeadRoundTrip` | go-ogg/ogg-proto.go:103-146 | readPage gives back every field of a page header the muxer writes |
| `OggPages.CompleteUnpacks` | go-ogg/ogg-demuxer.go:140-205 | With nothing lost, a page goes on exactly where the stream's last one stopped |
| `OggPages.UnpackConcat` | go-ogg/ogg-demuxer.go:160-205 | Reassembling two stretches of segments one after the other is reassembling them at once |
| `OggPages.UnpackLace` | go-ogg/ogg-muxer.go:264-271 | The segments of a packet, a multiple of 255 long or not, reassemble to it |
| `OggMux.AddDataLaced` | go-ogg/ogg-muxer.go:235-257 | Every page written on the way, and the open one, has at most 255 segments summing to its body length |
| `OggObjects.MuxStream.AddSegments` | go-ogg/ogg-muxer.go:264-271 | The segment loop appends the specified lacing |
| `OggObjects.MuxStream.AddAll` | go-ogg/ogg-muxer.go:235-257 | The packet loop writes the specified pages and leaves the specified open page |
| `OggObjects.MuxStream.FlushPage` | go-ogg/ogg-muxer.go:274-301 | The page written is that of the open state; the state is that after it |
| `OggObjects.MuxStream.AddPacket` | go-ogg/ogg-muxer.go:211-261 | Due page, times, padding and packet together refine the specification |
| `OggObjects.Muxer.AddOpusStream` | go-ogg/ogg-muxer.go:86-112 | A stream joins only before the file has started; others are untouched |
| `OggObjects.Muxer.WritePadded` | go-ogg/ogg-muxer.go:133-168 | Holding back, starting or writing straight through, with errors, as specified |
| `OggObjects.Muxer.Start` | go-ogg/ogg-muxer.go:173-209 | Every head page, then every tags page, then the packets held back |
| `OggObjects.Muxer.WriteTrailer` | go-ogg/ogg-muxer.go:305-331 | Starts if it must and closes every stream in the file with its last page, once |
| `OggDemuxer.Demuxer.StepHead` | go-ogg/ogg-demuxer.go:60-138 | The header state on the object refines the specified turn, keeping an incomplete header |
| `OggDemuxer.Demuxer.StepPayload` | go-ogg/ogg-demuxer.go:139-210 | The payload state on the object refines the specified turn, keeping an incomplete body |
| `OggDemuxer.Demuxer.Input` | go-ogg/ogg-demuxer.go:58-213 | The loop over the two states refines the specified call |
| `OggDemuxer.ParsePage` | go-ogg/ogg-proto.go:103-146 | The page read from a header, with the body length summed up in 16 bits that never overflow |
| `OggDemuxer.FirstRun` | go-ogg/ogg-demuxer.go:156-168 | The loop over a continued packet stops behind its first short segment |
| `OggDemuxer.Collect` | go-ogg/ogg-demuxer.go:182-205 | The loop over the rest of the table finds every packet that ends on the page and the start of one that does not |
| `OggDemuxer.Reassemble` | go-ogg/ogg-demuxer.go:145-205 | Lost, continued and plain pages complete what the specification says, and leave its open packet |
| `BitFields.FieldsRoundTrip` | go-codec/bitstream.go:91-433 | For every list of values and widths 1..64, reading the widths from the bits written gives every value modulo 2^width and leaves what follows unread |
| `BitWriter.FieldsThrough` | go-codec/bitstream.go:302-470 | The same through the writer object, at every initial capacity, its Bits() and a reader object on them |
| `BitFields.GetJoins` | go-codec/bitstream.go:91-132 | GetBits(a + b) is GetBits(a) followed by GetBits(b) joined, while a + b <= 64 and the bits are there |
| `BitFields.GolombRoundTrip` | go-codec/bitstream.go:211-231 | ReadUE undoes the Exp-Golomb code of every value below 2^64 - 1 and fails for every longer one |
| `BitFields.SignedIff` | go-codec/bitstream.go:234-241 | The signed mapping is right if and only if the code is even or below 2^63 - 1 |
| `BitStreams.BitStream.GetBits` | go-codec/bitstream.go:91-132 | The bytewise loop reads the next bits as a number and consumes exactly them; too many or a bad count is a sticky error |
| `BitStreams.BitStream.GetBit` | go-codec/bitstream.go:134-149 | One bit, by the same specification as GetBits(1) |
| `BitStreams.BitStream.SkipBits` | go-codec/bitstream.go:151-168 | Skips exactly n bits or fails |
| `BitStreams.BitStream.TakeBytes` | go-codec/bitstream.go:74-86 | Whole bytes on a boundary, or a sticky error |
| `BitStreams.BitStream.UnRead` | go-codec/bitstream.go:249-262 | Moves back by exactly n bits, to the start with an error when there are fewer |
| `BitStreams.BitStream.NextBits` | go-codec/bitstream.go:265-276 | Gives what GetBits would and consumes nothing, whether it succeeds, runs out of data or gets a negative count; a count above 64 that the data still holds fails without reading and then rewinds by that count |
| `BitStreams.BitStream.ReadUE` | go-codec/bitstream.go:211-231 | The zero-counting loop computes the Exp-Golomb reading |
| `BitWriter.BitStreamWriter.ExpandSpace` | go-codec/bitstream.go:312-324 | There is room for n more bits afterwards, whatever the capacity, and nothing written changes |
| `BitWriter.BitStreamWriter.PutUint64` | go-codec/bitstream.go:403-433 | Appends exactly the low n bits, or sets the sticky error and appends nothing |
| `BitWriter.BitStreamWriter.PutByte` | go-codec/bitstream.go:345-355 | Appends the eight bits of the byte, with nothing set behind them, if and only if the bits of the byte below the current bit offset are zero, hence always on a boundary; off it, the low bits land as a number of their own in the next byte |
| `BitWriter.BitStreamWriter.PutBytes` | go-codec/bitstream.go:359-370 | Appends the bytes on a boundary; off it, sets the sticky error and appends nothing |
| `BitWriter.BitStreamWriter.PutRepeated` | go-codec/bitstream.go:372-385 | The loop appends n copies of the byte on a boundary; off it, sets the sticky error and appends nothing |
| `BitWriter.BitStreamWriter.SetByte` | go-codec/bitstream.go:437-443 | Changes one byte of the buffer, or reports a position outside it; at or behind the write position the buffer stays zero beyond it if and only if the byte sets nothing there |
| `BitWriter.BitStreamWriter.SetUint16` | go-codec/bitstream.go:446-452 | Changes two bytes of the buffer, or reports a position outside it, with the same condition on each byte |
| `BitWriter.BitStreamWriter.Reset` | go-codec/bitstream.go:493-502 | Nothing written, no error, same capacity |
| `BitWriter.BitStreamWriter.Bits` | go-codec/bitstream.go:461-470 | The bits written, the last byte filled with zeros and no byte more |
| `HvccRecord.RoundTripIff` | go-codec/h265.go:721-836 | For every record, Encode succeeds if and only if it has 3 arrays or more, and Decode(Encode(r)) is r if and only if moreover every field is within its width, every count and length counts, and parallelismType is 0 when min_spatial_segmentation_idc is 0 |
| `HvccRecord.DecodedFits` | go-codec/h265.go:773-836 | Whatever bytes a record is decoded from, its fields are within their widths and its counts and lengths count what they should |
| `HvccRecord.NewRecordLost` | go-codec/h265.go:711-719 | A record left with the constraint flags or the spatial segmentation of a new configuration never comes back |
| `HvccRecord.RecordRoundTrip` | go-codec/h265.go:721-836 | For every record whose fields fit, it is r with a parallelism type that means nothing cleared |
| `HvccObjects.HevcRecord.Encode` | go-codec/h265.go:721-769 | The writer sequence gives the specified record, clears the parallelism type in the object too, and never writes bytes off a boundary |
| `HvccObjects.HevcRecord.PutUnits` | go-codec/h265.go:763-766 | Every unit's bytes are written on a byte boundary |
| `HvccObjects.HevcRecord.PutArrays` | go-codec/h265.go:758-767 | The arrays' bits are appended and the writer stays on a boundary without an error |
| `HvccObjects.HevcRecord.ReadArray` | go-codec/h265.go:804-829 | One array or its error: truncation, or a count beyond the record |
| `HvccObjects.HevcRecord.Decode` | go-codec/h265.go:773-836 | The record specified, or its error with the arrays left as they were |
| `Ebml.ChildrenRoundTrip` | go-mkv/mkv-demuxer.go:227-255 | eachChild over the payload of a master returns its children's ids and payloads, in order, without an error |
| `Ebml.MasterRoundTrip` | go-mkv/ebml.go:139-157 | A whole master element is read as one child of what encloses it, and walking it returns its children |
| `Ebml.IdRoundTripIff` | go-mkv/ebml.go:125-136 | An element comes back if and only if its id announces its own length |
| `Ebml.ReadIdsValid` | go-mkv/mkv-demuxer.go:227-255 | Whatever is read as an id is one that announces its own length |
| `Ebml.VintRoundTrip` | go-mkv/ebml.go:117-222 | readVint undoes appendSize at every length that can hold the value, and flags exactly the reserved all-ones value as unknown |
| `Ebml.SizeLenShortest` | go-mkv/ebml.go:109-115 | sizeLen is the shortest length whose values, the reserved one aside, include v |
| `Ebml.SizeRoundTripIff` | go-mkv/ebml.go:109-222 | At sizeLen, a size comes back as a known size if and only if it is below 2^56 - 1 |
| `Ebml.VintLenIs` | go-mkv/ebml.go:98-105 | The length is the position of the first set bit, for every first byte |
| `Ebml.UintRoundTrip` | go-mkv/ebml.go:159-233 | readUint undoes uintElement for every unsigned 64-bit value |
| `Ebml.IntRoundTrip` | go-mkv/ebml.go:171-248 | readInt undoes intElement for every signed 64-bit value, sign extension included |
| `Ebml.VoidFills` | go-mkv/ebml.go:195-204 | A void element takes exactly the space asked for, from 2 bytes on, and is skipped exactly |
| `EbmlLoops.VintLength` | go-mkv/ebml.go:98-105 | The loop finds the first set bit |
| `EbmlLoops.SizeLength` | go-mkv/ebml.go:109-115 | The loop finds the specified length |
| `EbmlLoops.PutSize` | go-mkv/ebml.go:117-123 | The shifting loop writes the marked big-endian size |
| `EbmlLoops.GetVint` | go-mkv/ebml.go:209-222 | The loop reads a marked size or its error |
| `EbmlLoops.PutUint` | go-mkv/ebml.go:159-169 | The shortest big-endian form |
| `EbmlLoops.GetUint` | go-mkv/ebml.go:224-233 | The shifting loop reads it, or fails past 8 bytes |
| `EbmlLoops.PutInt` | go-mkv/ebml.go:171-181 | The shortest two's complement form |
| `EbmlLoops.GetInt` | go-mkv/ebml.go:235-248 | The sign-extending loop reads it, or fails past 8 bytes |
| `EbmlLoops.WalkChildren` | go-mkv/mkv-demuxer.go:227-255 | The loop over the shrinking buffer calls back with the specified children, up to the first error |
| `MkvLayout.FileRoundTrip` | go-mkv/mkv-muxer.go:748-836 | For every run of blocks in any order of times: the file after its head is a run of clusters that reads back to exactly those blocks, in order, each with its track, padding and data, and with its time where that fits 63 bits, else 0 |
| `MkvLayout.TimesKeptIff` | go-mkv/mkv-demuxer.go:726-728 | Every block comes back at the time written, in units of the timestamp scale, if and only if all times are below 2^63; a later one comes back as 0 |
| `MkvLayout.TimesAddUp` | go-mkv/mkv-demuxer.go:706-728 | Cluster time plus relative time is the block's time, through 64-bit wrap-around, as a signed number |
| `MkvLayout.ChildParses` | go-mkv/mkv-muxer.go:772-790 | A simple block or block group reads back to its frame; one written with padding always as a key frame |
| `MkvLayout.CuesPoint` | go-mkv/mkv-muxer.go:757-769 | Every cue position is the offset, from the segment's data start, of a Cluster that begins with a key frame of the track and time of the cue, as the demuxer hands it on |
| `MkvLayout.BlockTells` | go-mkv/mkv-muxer.go:748-790 | One writeBlock, in the open cluster or a new one, keeps what was written and adds exactly its block |
| `MkvLayout.CueAtOpen` | go-mkv/mkv-muxer.go:758-769 | A key block that opens a cluster adds one cue, at the byte where that cluster will stand |
| `MkvLayout.KeepsBounded` | go-mkv/mkv-muxer.go:753-758 | The open cluster never outgrows what its element size can express |
| `MkvObjects.MkvMuxer.FlushCluster` | go-mkv/mkv-muxer.go:830-836 | Closing writes the open cluster once |
| `MkvObjects.MkvMuxer.WriteBlock` | go-mkv/mkv-muxer.go:748-790 | The method refines the specified step: new cluster or not, cue or not, simple block or group |
| `MkvObjects.WriteFile` | go-mkv/mkv-muxer.go:841-865 | Blocks written one by one and the last cluster flushed give the file and cues the theorems are about |
| `MkvObjects.SeekPatchFills` | go-mkv/mkv-muxer.go:883-888 | Up to three seek entries and their void take exactly the room reserved, and read back as a seek head and a void |
| `MkvObjects.SeekReads` | go-mkv/mkv-muxer.go:919-927 | A seek entry gives back its id and position |
| `FmpIndex.EntriesFit` | go-mp4/fmp4index.go:173-217 | For any number n >= 1 of fragments and reserve r >= 1, grouping by ceil(n/r) yields at least one and at most r entries |
| `FmpIndex.EntriesCount` | go-mp4/fmp4index.go:188-217 | All groups but the last are full |
| `FmpIndex.EntriesPoint` | go-mp4/fmp4index.go:188-216 | The sizes before entry k lead from the first fragment exactly to the first fragment of entry k; all sizes sum to end minus the first fragment's offset |
| `FmpIndex.DurationsKept` | go-mp4/fmp4index.go:204-213 | Durations are conserved while the whole fits 32 bits, and never made up |
| `FmpIndex.WrittenIff` | go-mp4/fmp4index.go:197-203 | An index is returned if and only if no group of fragments, counted off from the first, runs backwards or past 31 bits |
| `FmpIndex.RoomFilled` | go-mp4/fmp4index.go:146-163 | Index and free filler occupy exactly the reserved room, a filler is never too small to be a box, and FirstOffset is the filler |
| `FmpIndex.CountExact` | go-mp4/fmp4index.go:218 | The 16-bit reference count is exact if and only if there are fewer than 65536 entries, which the cap on the reserve ensures |
| `FmpIndex.MakeGlobalSidx` | go-mp4/fmp4index.go:173-224 | The loop over groups, with its inner sum, computes the specified index or none |
| `FmpFile.IndexFinds` | go-mp4/fmp4index.go:114-224 | Seeking through the index: with the room filled, the index box is read where the room began, only a free box lies between it and the first fragment, and the end of the index plus FirstOffset plus the sizes before entry k is exactly where the first fragment of entry k starts, for every k |
| `FmpFile.IndexFits` | go-mp4/fmp4index.go:146-163 | An index that is returned can always be written: its count, sizes and offset fit their fields and its box fits the room |
| `FmpFile.SidxRoundTrip` | go-mp4/sidx-box.go:65-154 | The encoded index box is read back as one box with the same header, offset and references |
| `FmpFile.PutSidx` | go-mp4/sidx-box.go:122-154 | The loop over the counted entries writes the specified box |
| `FmpFile.FinishFileHeader` | go-mp4/fmp4index.go:146-163 | In place, exactly the room changes, into index and filler; without an index nothing changes |
| `NalFraming.SplitJoinIff` | go-codec/util.go:19-61 | Units joined with four-byte start codes come apart again if and only if none is empty or holds 00 00 01 |
| `NalFraming.ScanJoinIff` | go-es/h26x.go:31-77 | The scanner gives the units back if and only if, in addition, none ends in 00 |
| `NalFraming.ThereAndBack` | go-mkv/mkv-codec.go:162-212 | For any access unit, going to length prefixes and back joins exactly the units that are kept |
| `NalFraming.ThereAndBackIff` | go-mkv/mkv-codec.go:162-212 | A well-formed access unit comes back as it was if and only if it holds no parameter set or delimiter |
| `NalFraming.PiecesClean` | go-codec/util.go:45-61 | No unit ever handed out is empty or holds a start code, whatever the input |
| `NalFraming.ScannedClean` | go-es/h26x.go:31-77 | No unit ever scanned is empty, holds a start code or ends in 00 |
| `NalPrefixes.PutPrefixes` | go-mkv/mkv-codec.go:162-189 | The loop writes the specified units, and reports a key frame exactly when some unit of the access unit is one of a random access picture |
| `NalPrefixes.GetAnnexB` | go-mkv/mkv-codec.go:193-212 | The loop rebuilds the specified stream, or reports a length or unit cut short |
| `NalScanner.WholeUnit` | go-es/h26x.go:33-66 | A unit between two start codes is final: more bytes cannot change it |
| `NalScanner.NalScanner.Next` | go-es/h26x.go:31-68 | Under any read chunking, the next unit of the whole stream; the size error only for a unit that does not end within the cap, however long the stream, and always for one that does not end within the cap and one read |
| `NalScanner.ScanStream` | go-es/h26x.go:31-68 | All units of a stream, however it is read: stopped only at a unit that goes on beyond the cap, so any number of joined units that fit it all come back, and no error is reported |
| `NalScanner.JoinedEnds` | go-es/h26x.go:11-13 | A joined stream of clean units, each of at most the cap less seven bytes, has none that goes on beyond the cap |
| `NalScanner.UnendedBehind` | go-es/h26x.go:31-58 | A whole unit found in the buffer tells the same about the cap as the stream behind the buffer |
| `NalScanner.SplitLoop` | go-codec/util.go:45-61 | The loop with its moving start code hands out the specified units |
| `SrtLoss.LossListIff` | go-srt/packet.go:141-189 | decodeLossList undoes encodeLossList, runs wrapping past 0x7FFFFFFF included, if and only if no run of consecutive numbers is longer than 65537 |
| `SrtLoss.NeverMore` | go-srt/packet.go:141-189 | The decoder never yields more numbers than were encoded |
| `SrtLoss.DiffOfSumIff` | go-srt/packet.go:121-136 | seqDiff(a, seqAdd(a, n)) == n if and only if -2^30 <= n < 2^30 |
| `SrtLoss.SumOfDiff` | go-srt/packet.go:121-136 | Adding a difference leads to the other number, always |
| `SrtLoss.LessIsTotal` | go-srt/packet.go:138-140 | Of two different numbers exactly one comes first, unless they are half way round from each other; never both |
| `SrtLoss.Encode` | go-srt/packet.go:145-161 | The run-finding loop writes the specified list |
| `SrtLoss.EndOfRun` | go-srt/packet.go:148-152 | The inner loop stops at the last number of the run |
| `SrtLoss.Decode` | go-srt/packet.go:168-189 | The loop over singles and ranges, with the range limit and truncated ends, yields the specified numbers |

## Left out

Everywhere:

- Writers, readers and seeking: output is a byte sequence (an array where it is patched), input a list of pieces; write errors are not modelled.
- RTMP handshake, client and server, RTSP, SDP, authentication and CENC: string, crypto and callback plumbing.
- Opus, MP3 and ADTS tables, SPS, PPS and VUI parsing, and fixed-layout boxes: long but easy.
- Floating point: nanosecond maths, frame rates, float elements and AMF numbers.
- Checksums: any 32-bit value stands for one, so nothing depends on the tables of CRC values.
- Counts, indexes and buffer lengths are unbounded where the source uses `int`.

By component:

- RtmpRoundTrip.RoundTrip: chunk stream ids 0 and 1 are excluded, as they are reserved forms the two-byte and three-byte headers announce; the callback is a function of the messages delivered so far that may change the chunk size or stop the reader, and it does not call the reader again.
- Chunk packets and the fields of a chunk stream are values inside the stream object; the source shares one packet object per writer, with no alias outside it.
- Mp4RoundTrip.RoundTripIff: tables of fewer than 2^32 samples; the edit list is any without empty edits, the one the muxer writes is the subject of `Mp4Boxes.BoxesIff`; sync samples and sample descriptions are not modelled; the demuxer's file size check is a condition (`Held`) since a real file always holds its samples.
- Mp4Boxes: the other sample table boxes are left out, with the reader's limit of 256 MiB on each; a box of 4 GiB or more, which the writer cannot encode, is over that limit; the header of a box is its size and type.
- Mp4RoundTrip.ConservedIff: for tables of fewer than 2^32 samples, as the counts of a table are 32 bits.
- FmpFile: the box header with a 64-bit size, the patching of mehd inside the moov, and a missing reference track are not modelled; the earliest presentation time is a parameter.
- EsOrder.Orderer: frames and keys are values; the frame index arithmetic is unbounded.
- MkvDtsObjects.DtsReorder: the binary heap is a list kept smallest first; presentation times are below 2^63.
- MkvDts.ShiftedNotNegative: for tracks measured on their first window; a track measured earlier, or not read when the offset is settled, is the subject of `MkvDts.CoveredIff` and `MkvDts.EarlyMeasureIff`.
- MkvQueue.PacketQueue: reading blocks into the queue is not part of this model, only settling the offset and emitting; that blocks already read have led to what `SettleFile` requires of each track is what `MkvDtsObjects.DeriveStream` proves for one track.
- TsRoundTrip.AudioRoundTrip: probing for sync is not modelled, the model stops at a packet without sync byte, and a trailing partial packet does not occur; video access unit splitting is left out, as a split start code changes an access unit by a zero byte; random access and delimiter detection are flags of the frame; a PID announced by two programs is not modelled.
- TsMuxObjects.TsMuxer: every packet gets a new bit writer instead of the reused one reset; a map too large for one packet is refused before it is encoded, where the source encodes it and refuses the packet.
- TsMuxObjects.BuildPmt: for maps that fit one packet (up to 33 streams); a larger one, which the source encodes before its packet is refused, is not built here.
- TsEncoding and TsDecoding: a run of fields is written or read from a list of fields and widths, skipped bits are read and dropped; a PES header that needs more data is read again from its own bytes, where the source rewinds its reader to them.
- OggInterleave.FileRoundTrip: streams are added before the first write; Opus durations, built headers and serial numbers come from the caller; a header packet must fit one page, as `OggRoundTrip.HeadPageIff` says of its page (a longer one also shifts what is read behind it, which is not modelled); after `OnPacket` the codec parsers are not modelled; the precondition on the pages only states what `OggInterleave.RunTold` proves of them.
- OggReader: the path for lost pages is modelled, but the round trip is about files without loss; the state after a header error is not compared.
- BitWriter: FillRemainData is left out; what later writes make of a buffer that is not zero beyond the write position is not modelled.
- HvccObjects.HevcRecord: header fields go through lists of fields and widths; the reserved bits are read and dropped where the source skips them.
- Ebml: float and string elements, and readers' limits on element sizes.
- MkvLayout: the header before the first cluster is any byte string; lacing, content encodings, block durations, the file duration and the encoding of the cue elements are left out; times are in units of the timestamp scale, the demuxer's change to milliseconds being floating point; block data below 2^48 bytes.
- NalScanner.NalScanner.Next: read errors other than the end of the stream are not modelled.
- SrtLoss: the other packet types are left out.
