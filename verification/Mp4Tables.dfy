/**
 The sample tables of an MP4 track (sections 8.6.1 and 8.7 of ISO/IEC
 14496-12): what the muxer compresses a list of samples into, and what the
 demuxer expands the tables back to.
 */
module Mp4Tables {
  import opened Bytes
  import opened Wrappers

  const TWO_31: int := 0x8000_0000
  const TWO_63: int := 0x8000_0000_0000_0000

  datatype SampleEntry = SampleEntry(pts: u64, dts: u64, offset: u64, size: u64)

  datatype SttsEntry = SttsEntry(sampleCount: u32, sampleDelta: u32)
  datatype CttsEntry = CttsEntry(sampleCount: u32, sampleOffset: u32)
  datatype Ctts = Ctts(version: byte, entrys: seq<CttsEntry>)
  datatype StscEntry = StscEntry(firstChunk: u32, samplesPerChunk: u32)

  /** The muxer allocates one entry per chunk and fills the first `entryCount`. */
  datatype Stsc = Stsc(entrys: seq<StscEntry>, entryCount: nat)
  datatype Stsz = Stsz(sampleSize: u32, sampleCount: u32, entrySizelist: seq<u32>)
  datatype Stbl = Stbl(stts: seq<SttsEntry>, ctts: Option<Ctts>, stsc: Stsc, stsz: Stsz, stco: seq<u64>)

  datatype MovChunk = MovChunk(chunknum: u32, samplenum: u32, chunkoffset: u64)

  // --------------------------------------------------- machine arithmetic

  /** The signed reading of a 64 bit pattern. */
  function S64(v: u64): int {
    if v < TWO_63 then v else v - TWO_64
  }

  function S32(v: u32): int {
    if v < TWO_31 then v else v - TWO_32
  }

  function Wrap32(v: int): u32 {
    v % TWO_32
  }

  function Wrap64(v: int): u64 {
    v % TWO_64
  }

  /** int64(a) - int64(b), which wraps like the machine does. */
  function Diff64(a: u64, b: u64): int {
    S64(Wrap64(a as int - b as int))
  }

  // ----------------------------------------------------------- compressing

  /** The duration given to the last sample. */
  function LastDelta(list: seq<SampleEntry>): u32 {
    if |list| < 2 then 1
    else
      var d := Diff64(list[|list| - 1].dts, list[|list| - 2].dts);
      if d <= 0 then 1 else Wrap32(d)
  }

  /** The decode time step from sample `i` to the next; a step back counts as one tick. */
  function Gap(list: seq<SampleEntry>, i: nat): u64
    requires i + 1 < |list|
  {
    if list[i + 1].dts >= list[i].dts then list[i + 1].dts - list[i].dts else 1
  }

  function AddDelta(stts: seq<SttsEntry>, delta: u64): seq<SttsEntry> {
    var n := |stts|;
    if n > 0 && delta == stts[n - 1].sampleDelta
    then stts[n - 1 := stts[n - 1].(sampleCount := Wrap32(stts[n - 1].sampleCount as int + 1))]
    else stts + [SttsEntry(1, Wrap32(delta))]
  }

  /** The stts entries after `i` samples; the last sample always gets one of its own. */
  function SttsOf(list: seq<SampleEntry>, i: nat): seq<SttsEntry>
    requires i <= |list|
  {
    if i == 0 then []
    else if i == |list| then SttsOf(list, i - 1) + [SttsEntry(1, LastDelta(list))]
    else AddDelta(SttsOf(list, i - 1), Gap(list, i - 1))
  }

  /** The signed composition offset of a sample. */
  function Offset(s: SampleEntry): int {
    Diff64(s.pts, s.dts)
  }

  function AddOffset(entrys: seq<CttsEntry>, offset: u32): seq<CttsEntry> {
    var n := |entrys|;
    if n > 0 && entrys[n - 1].sampleOffset == offset
    then entrys[n - 1 := entrys[n - 1].(sampleCount := Wrap32(entrys[n - 1].sampleCount as int + 1))]
    else entrys + [CttsEntry(1, offset)]
  }

  function CttsOf(list: seq<SampleEntry>, i: nat): Ctts
    requires i <= |list|
  {
    if i == 0 then Ctts(0, [])
    else
      var c := CttsOf(list, i - 1);
      var offset := Offset(list[i - 1]);
      Ctts(if offset < 0 then 1 else c.version, AddOffset(c.entrys, Wrap32(offset)))
  }

  /** Whether sample `i` starts where the one before it ends. */
  predicate Contiguous(list: seq<SampleEntry>, i: nat)
    requires i < |list|
  {
    i > 0 && list[i].offset == Wrap64(list[i - 1].offset as int + list[i - 1].size as int)
  }

  function ChunksOf(list: seq<SampleEntry>, i: nat): (chunks: seq<MovChunk>)
    requires i <= |list|
    ensures |chunks| <= i && (i > 0 ==> chunks != [])
  {
    if i == 0 then []
    else
      var chunks := ChunksOf(list, i - 1);
      var n := |chunks|;
      if Contiguous(list, i - 1)
      then chunks[n - 1 := chunks[n - 1].(samplenum := Wrap32(chunks[n - 1].samplenum as int + 1))]
      else chunks + [MovChunk(Wrap32(n), 1, list[i - 1].offset)]
  }

  predicate SameSize(list: seq<SampleEntry>) {
    forall i :: 0 <= i < |list| - 1 ==> list[i].size == list[i + 1].size
  }

  function SizesOf(list: seq<SampleEntry>): seq<u32> {
    seq(|list|, i requires 0 <= i < |list| => Wrap32(list[i].size))
  }

  /** One common size when there is one and it is not zero, else a table of sizes. */
  function StszOf(list: seq<SampleEntry>): Stsz {
    var count := Wrap32(|list|);
    if list != [] && SameSize(list) && list[0].size != 0
    then Stsz(Wrap32(list[0].size), count, [])
    else Stsz(0, count, SizesOf(list))
  }

  /** The stsc entries of the first `k` chunks: one where the samples per chunk change. */
  function StscOf(chunks: seq<MovChunk>, k: nat): seq<StscEntry>
    requires k <= |chunks|
  {
    if k == 0 then []
    else
      var e := StscOf(chunks, k - 1);
      if k == 1 || chunks[k - 1].samplenum != chunks[k - 2].samplenum
      then e + [StscEntry(Wrap32(chunks[k - 1].chunknum as int + 1), chunks[k - 1].samplenum)]
      else e
  }

  const NO_STSC := StscEntry(0, 0)

  function OffsetsOf(chunks: seq<MovChunk>): seq<u64> {
    seq(|chunks|, i requires 0 <= i < |chunks| => chunks[i].chunkoffset)
  }

  /** Everything the muxer writes for a track with samples. */
  function TablesOf(list: seq<SampleEntry>, video: bool): Stbl
    requires list != []
  {
    var chunks := ChunksOf(list, |list|);
    var stsc := StscOf(chunks, |chunks|);
    StscFits(chunks, |chunks|);
    Stbl(SttsOf(list, |list|),
         if video then Some(CttsOf(list, |list|)) else None,
         Stsc(stsc + seq(|chunks| - |stsc|, i => NO_STSC), |stsc|),
         StszOf(list),
         OffsetsOf(chunks))
  }

  const EMPTY_STBL := Stbl([], None, Stsc([], 0), Stsz(0, 0, []), [])

  lemma {:induction false} StscFits(chunks: seq<MovChunk>, k: nat)
    requires k <= |chunks|
    ensures |StscOf(chunks, k)| <= k
  {
    if k > 0 {
      StscFits(chunks, k - 1);
    }
  }

  /** The box writer encodes `entryCount` stsc entries; that is all a reader gets. */
  function Written(t: Stbl): Stbl
    requires t.stsc.entryCount <= |t.stsc.entrys|
  {
    t.(stsc := Stsc(t.stsc.entrys[..t.stsc.entryCount], t.stsc.entryCount))
  }

  /** The span addSampleEntry has accumulated after `i` samples. */
  function SpanOf(list: seq<SampleEntry>, i: nat): u32
    requires i <= |list|
  {
    if i <= 1 then 0
    else
      var d := Diff64(list[i - 1].dts, list[i - 2].dts);
      if d < 0 then Wrap32(SpanOf(list, i - 1) as int + 1)
      else Wrap32(SpanOf(list, i - 1) as int + Wrap32(d) as int)
  }

  function MediaDuration(list: seq<SampleEntry>): u32 {
    if list == [] then 0 else Wrap32(SpanOf(list, |list|) as int + LastDelta(list) as int)
  }

  // ------------------------------------------------------------- expanding

  function Repeat<T>(n: nat, x: T): (s: seq<T>)
    ensures |s| == n && forall i :: 0 <= i < n ==> s[i] == x
  {
    seq(n, i => x)
  }

  function ExpandStts(e: seq<SttsEntry>): seq<u32> {
    if e == [] then []
    else ExpandStts(e[..|e| - 1]) + Repeat(e[|e| - 1].sampleCount, e[|e| - 1].sampleDelta)
  }

  /** The signed offset of an entry under the version of its box. */
  function EntryOffset(version: byte, offset: u32): int {
    if version == 1 then S32(offset) else offset
  }

  function ExpandCtts(version: byte, e: seq<CttsEntry>): seq<int> {
    if e == [] then []
    else ExpandCtts(version, e[..|e| - 1]) + Repeat(e[|e| - 1].sampleCount, EntryOffset(version, e[|e| - 1].sampleOffset))
  }

  /** Moves along the stsc entries to the one in force for chunk number `num`. */
  function Advance(e: seq<StscEntry>, it: nat, num: int): (r: nat)
    ensures it < |e| ==> r < |e|
    decreases |e| - it
  {
    if it + 1 < |e| && e[it + 1].firstChunk <= num then Advance(e, it + 1, num) else it
  }

  /** The entry in force for chunk `k`, counting from 0. */
  function IteratorAt(e: seq<StscEntry>, k: nat): (r: nat)
    ensures e != [] ==> r < |e|
  {
    Advance(e, if k == 0 then 0 else IteratorAt(e, k - 1), k + 1)
  }

  /** For every sample the chunks place: the chunk's offset if it comes first in it. */
  function Marks(samplenum: u32, offset: u64): seq<Option<u64>> {
    if samplenum == 0 then [] else [Some(offset)] + Repeat(samplenum - 1, None)
  }

  function ExpandChunks(e: seq<StscEntry>, stco: seq<u64>, k: nat): seq<Option<u64>>
    requires e != [] && k <= |stco|
  {
    if k == 0 then []
    else ExpandChunks(e, stco, k - 1) + Marks(e[IteratorAt(e, k - 1)].samplesPerChunk, stco[k - 1])
  }

  function SizeAt(z: Stsz, i: nat): u64
    requires z.sampleSize == 0 ==> i < |z.entrySizelist|
  {
    if z.sampleSize == 0 then z.entrySizelist[i] else z.sampleSize
  }

  /** Offset of sample `i`: its chunk's, or the end of the sample before it; 0 past the last chunk. */
  function OffsetAt(z: Stsz, marks: seq<Option<u64>>, i: nat): u64
    requires z.sampleSize == 0 ==> i < |z.entrySizelist|
  {
    if i >= |marks| then 0
    else if marks[i].Some? then marks[i].value
    else if i == 0 then 0
    else Wrap64(OffsetAt(z, marks, i - 1) as int + SizeAt(z, i - 1) as int)
  }

  /** Decode time of sample `i`, a running sum from `start`; 0 past the last delta. */
  function DtsAt(start: u64, deltas: seq<u32>, i: nat): u64 {
    if i == 0 then start
    else if i > |deltas| then 0
    else Wrap64(deltas[i - 1] as int + DtsAt(start, deltas, i - 1) as int)
  }

  function PtsAt(dts: u64, ctts: Option<Ctts>, i: nat): u64 {
    if ctts.None? || ctts.value.entrys == [] then dts
    else
      var offsets := ExpandCtts(ctts.value.version, ctts.value.entrys);
      if i < |offsets| then Wrap64(dts as int + offsets[i]) else dts
  }

  datatype Edit = Edit(segmentDuration: u64, mediaTime: int)

  /** Where the edit list starts the decode times; only empty edits move it. */
  function StartOf(edits: seq<Edit>, timescale: u32, movieTimescale: u32): u64
    requires (exists e :: e in edits && e.mediaTime == -1) ==> movieTimescale != 0
    decreases |edits|
  {
    if edits == [] then 0
    else
      var e := edits[|edits| - 1];
      if e.mediaTime == -1 then Wrap64(e.segmentDuration as int * timescale as int) / movieTimescale
      else StartOf(edits[..|edits| - 1], timescale, movieTimescale)
  }

  datatype DemuxError =
    | EmptyStsc
    | ShortStsz
    | MoreThanFileHolds
    | NoMovieTimescale

  function SampleAt(t: Stbl, start: u64, i: nat): SampleEntry
    requires t.stsc.entrys != [] && (t.stsz.sampleSize == 0 ==> i < |t.stsz.entrySizelist|)
  {
    var marks := ExpandChunks(t.stsc.entrys, t.stco, |t.stco|);
    var dts := DtsAt(start, ExpandStts(t.stts), i);
    SampleEntry(PtsAt(dts, t.ctts, i), dts, OffsetAt(t.stsz, marks, i), SizeAt(t.stsz, i))
  }

  /** The sample list the demuxer builds from the tables. */
  function SamplesOf(t: Stbl, edits: seq<Edit>, timescale: u32, movieTimescale: u32, fileSize: u64): Result<seq<SampleEntry>, DemuxError> {
    var z := t.stsz;
    if z.sampleCount == 0 then Ok([])
    else if t.stsc.entryCount == 0 || t.stsc.entrys == [] then Err(EmptyStsc)
    else if z.sampleSize == 0 && |z.entrySizelist| < z.sampleCount then Err(ShortStsz)
    else if z.sampleSize != 0 && z.sampleCount > fileSize / z.sampleSize then Err(MoreThanFileHolds)
    else if movieTimescale == 0 && exists e :: e in edits && e.mediaTime == -1 then Err(NoMovieTimescale)
    else
      var start := StartOf(edits, timescale, movieTimescale);
      Ok(seq(z.sampleCount, i requires 0 <= i < z.sampleCount => SampleAt(t, start, i)))
  }
}
