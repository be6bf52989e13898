/**
 The two boxes whose form depends on what they hold: the edit list (section
 8.6.6 of ISO/IEC 14496-12) and the chunk offsets (section 8.7.5), and the
 round trip of a track through them.
 */
module Mp4Boxes {
  import opened Bytes
  import opened Wrappers
  import opened Mp4Tables
  import opened Mp4RoundTrip

  const BOX_LEN := 8
  const FULL_BOX_LEN := 12
  const MAX_TABLE := 0x1000_0000

  datatype Error = Truncated | TooSmall | TooLarge

  /** A box behind its size and type, and the size. */
  datatype Box = Box(size: nat, payload: bytes)

  function BoxOf(payload: bytes): Box {
    Box(BOX_LEN + |payload|, payload)
  }

  /** Whether a table of `need` bytes fits the box, where its size is known, and the reader's limit. */
  function TableError(size: nat, need: nat): Option<Error> {
    if 0 < size < FULL_BOX_LEN + 4 then Some(TooSmall)
    else if need > MAX_TABLE || (size > 0 && need > size - FULL_BOX_LEN - 4) then Some(TooLarge)
    else None
  }

  // ---------------------------------------------------------- chunk offsets

  function Width(large: bool): nat {
    if large then 8 else 4
  }

  function OffsetsSize(large: bool, n: nat): nat {
    if large then 8 * n else 4 * n
  }

  /** The last offset alone decides for the large form. */
  predicate Large(offsets: seq<u64>) {
    offsets != [] && offsets[|offsets| - 1] > 0xFFFF_FFFF
  }

  function PutOffset(large: bool, offset: u64): (b: bytes)
    ensures |b| == Width(large)
  {
    if large then PutU64(offset) else PutU32(Wrap32(offset))
  }

  function PutOffsets(large: bool, offsets: seq<u64>): bytes {
    if offsets == [] then [] else PutOffset(large, offsets[0]) + PutOffsets(large, offsets[1..])
  }

  /** An stco box or, in the large form, a co64 box. */
  function OffsetBox(offsets: seq<u64>): Box
    requires |offsets| < TWO_32
  {
    BoxOf([0, 0, 0, 0] + (PutU32(|offsets|) + PutOffsets(Large(offsets), offsets)))
  }

  function TakeOffset(large: bool, b: bytes): u64
    requires |b| >= Width(large)
  {
    if large then U64(b) else U32(b)
  }

  function TakeOffsets(large: bool, b: bytes, n: nat): seq<u64>
    requires |b| >= OffsetsSize(large, n)
    decreases n
  {
    if n == 0 then [] else [TakeOffset(large, b)] + TakeOffsets(large, b[Width(large)..], n - 1)
  }

  /** Reads from the data behind the size and type of a box of that size. */
  function ReadOffsets(size: nat, large: bool, b: bytes): Result<seq<u64>, Error> {
    if |b| < 8 then Err(Truncated)
    else
      var count := U32(b[4..]);
      var e := TableError(size, OffsetsSize(large, count));
      if e.Some? then Err(e.value)
      else if |b| - 8 < OffsetsSize(large, count) then Err(Truncated)
      else Ok(TakeOffsets(large, b[8..], count))
  }

  /** What is left of an offset in the form chosen. */
  function Kept(large: bool, offset: u64): u64 {
    if large then offset else Wrap32(offset)
  }

  function AllKept(large: bool, offsets: seq<u64>): (k: seq<u64>)
    ensures |k| == |offsets|
  {
    seq(|offsets|, i requires 0 <= i < |offsets| => Kept(large, offsets[i]))
  }

  lemma {:induction false} OffsetBack(large: bool, offset: u64, rest: bytes)
    ensures TakeOffset(large, PutOffset(large, offset) + rest) == Kept(large, offset)
  {
    if large {
      U64RoundTrip(offset, rest);
    } else {
      U32RoundTrip(Wrap32(offset), rest);
    }
  }

  lemma {:induction false} OffsetsBack(large: bool, offsets: seq<u64>, rest: bytes)
    ensures |PutOffsets(large, offsets)| == OffsetsSize(large, |offsets|)
    ensures TakeOffsets(large, PutOffsets(large, offsets) + rest, |offsets|) == AllKept(large, offsets)
    decreases |offsets|
  {
    hide PutOffset, TakeOffset, Kept;
    if offsets != [] {
      var first, more := PutOffset(large, offsets[0]), PutOffsets(large, offsets[1..]);
      var b := PutOffsets(large, offsets) + rest;
      assert b == first + (more + rest) && b[Width(large)..] == more + rest;
      OffsetBack(large, offsets[0], more + rest);
      OffsetsBack(large, offsets[1..], rest);
      assert AllKept(large, offsets) == [Kept(large, offsets[0])] + AllKept(large, offsets[1..]);
    }
  }

  /** The reader accepts the box unless its table is over the limit, and gets what the form has kept of each offset. */
  lemma {:induction false} OffsetBoxBack(offsets: seq<u64>, rest: bytes)
    requires |offsets| < TWO_32
    ensures var box := OffsetBox(offsets); var large := Large(offsets);
      ReadOffsets(box.size, large, box.payload + rest)
      == if OffsetsSize(large, |offsets|) > MAX_TABLE then Err(TooLarge) else Ok(AllKept(large, offsets))
  {
    hide PutOffsets, TakeOffsets, AllKept, Large, PutU32, U32, OffsetsSize;
    var large := Large(offsets);
    var entries := PutOffsets(large, offsets);
    var b := OffsetBox(offsets).payload + rest;
    assert b[4..] == PutU32(|offsets|) + (entries + rest);
    assert b[8..] == entries + rest;
    U32RoundTrip(|offsets|, entries + rest);
    OffsetsBack(large, offsets, rest);
  }

  /** All offsets are kept exactly when the last one is large or all are small. */
  predicate OffsetsKept(offsets: seq<u64>) {
    Large(offsets) || forall i :: 0 <= i < |offsets| ==> offsets[i] < TWO_32
  }

  lemma {:induction false} KeptIff(offsets: seq<u64>)
    ensures AllKept(Large(offsets), offsets) == offsets <==> OffsetsKept(offsets)
  {
    var k := AllKept(Large(offsets), offsets);
    if OffsetsKept(offsets) {
      assert k == offsets;
    } else {
      var i :| 0 <= i < |offsets| && offsets[i] >= TWO_32;
      assert k[i] != offsets[i];
    }
  }

  // --------------------------------------------------------------- edit list

  /** Starts the presentation at the composition offset of the first sample. */
  function EditOf(list: seq<SampleEntry>): (e: Edit)
    requires list != []
    ensures 0 <= e.mediaTime < TWO_63
  {
    Edit(MediaDuration(list), Max(Offset(list[0]), 0))
  }

  predicate Wide(e: Edit) {
    e.segmentDuration > 0xFFFF_FFFF || e.mediaTime > 0xFFFF_FFFF
  }

  function EditBox(e: Edit): Box {
    if Wide(e)
    then BoxOf([1, 0, 0, 0] + (PutU32(1) + (PutU64(e.segmentDuration) + (PutU64(Wrap64(e.mediaTime)) + [0, 1, 0, 0]))))
    else BoxOf([0, 0, 0, 0] + (PutU32(1) + (PutU32(Wrap32(e.segmentDuration)) + (PutU32(Wrap32(e.mediaTime)) + [0, 1, 0, 0]))))
  }

  function EntrySize(wide: bool): nat {
    if wide then 20 else 12
  }

  function TakeEdit(wide: bool, b: bytes): Edit
    requires |b| >= EntrySize(wide)
  {
    if wide then Edit(U64(b), S64(U64(b[8..]))) else Edit(U32(b), S32(U32(b[4..])))
  }

  function EditsSize(wide: bool, n: nat): nat {
    if wide then 20 * n else 12 * n
  }

  function TakeEdits(wide: bool, b: bytes, n: nat): seq<Edit>
    requires |b| >= EditsSize(wide, n)
    decreases n
  {
    if n == 0 then [] else [TakeEdit(wide, b)] + TakeEdits(wide, b[EntrySize(wide)..], n - 1)
  }

  function ReadEdits(size: nat, b: bytes): Result<seq<Edit>, Error> {
    if |b| < 8 then Err(Truncated)
    else
      var wide, count := b[0] != 0, U32(b[4..]);
      var e := TableError(size, EditsSize(wide, count));
      if e.Some? then Err(e.value)
      else if |b| - 8 < EditsSize(wide, count) then Err(Truncated)
      else Ok(TakeEdits(wide, b[8..], count))
  }

  /** The media time as it is read: a wide one is kept, a narrow one is taken for signed. */
  function EditKept(e: Edit): Edit {
    if Wide(e) then e else Edit(e.segmentDuration, S32(Wrap32(e.mediaTime)))
  }

  lemma {:induction false} EditBack(e: Edit, rest: bytes)
    requires 0 <= e.mediaTime < TWO_63
    ensures var b := EditBox(e).payload[8..] + rest;
      |b| >= EntrySize(Wide(e)) && TakeEdit(Wide(e), b) == EditKept(e)
  {
    hide PutU32, U32, PutU64, U64;
    var b, tail := EditBox(e).payload[8..] + rest, [0, 1, 0, 0] + rest;
    if Wide(e) {
      var time := PutU64(e.mediaTime) + tail;
      assert b == PutU64(e.segmentDuration) + time && b[8..] == time;
      U64RoundTrip(e.segmentDuration, time);
      U64RoundTrip(e.mediaTime, tail);
    } else {
      var time := PutU32(e.mediaTime) + tail;
      assert b == PutU32(e.segmentDuration) + time && b[4..] == time;
      U32RoundTrip(e.segmentDuration, time);
      U32RoundTrip(e.mediaTime, tail);
    }
  }

  lemma {:induction false} EditBoxIs(e: Edit, rest: bytes)
    requires 0 <= e.mediaTime < TWO_63
    ensures var box := EditBox(e); var b := box.payload + rest;
      && |b| >= 8 && (b[0] != 0 <==> Wide(e)) && b[4..] == PutU32(1) + (box.payload[8..] + rest)
      && b[8..] == box.payload[8..] + rest && box.size == 16 + EntrySize(Wide(e))
  {
    hide PutU32, PutU64;
  }

  /** The edit comes back alone, as the form keeps it. */
  lemma {:induction false} EditBoxBack(e: Edit, rest: bytes)
    requires 0 <= e.mediaTime < TWO_63
    ensures ReadEdits(EditBox(e).size, EditBox(e).payload + rest) == Ok([EditKept(e)])
  {
    hide PutU32, U32, EditBox, TakeEdit, EditKept, Wide;
    EditBoxIs(e, rest);
    U32RoundTrip(1, EditBox(e).payload[8..] + rest);
    EditBack(e, rest);
    OneEdit(Wide(e), EditBox(e).payload[8..] + rest);
  }

  lemma {:induction false} OneEdit(wide: bool, b: bytes)
    requires |b| >= EntrySize(wide)
    ensures TakeEdits(wide, b, 1) == [TakeEdit(wide, b)]
  {
    hide TakeEdit;
    assert TakeEdits(wide, b[EntrySize(wide)..], 0) == [];
  }

  /** One media time of all is taken for an empty edit, and then moves the start of the track. */
  predicate StartKept(list: seq<SampleEntry>, timescale: u32, movieTimescale: u32)
    requires list != []
  {
    Offset(list[0]) == 0xFFFF_FFFF ==>
      movieTimescale != 0 && Wrap64(MediaDuration(list) as int * timescale as int) / movieTimescale == 0
  }

  lemma {:induction false} EmptyEditIff(list: seq<SampleEntry>)
    requires list != []
    ensures EditKept(EditOf(list)).mediaTime == -1 <==> Offset(list[0]) == 0xFFFF_FFFF
    ensures EditKept(EditOf(list)).segmentDuration == MediaDuration(list)
  {
    hide MediaDuration, Offset;
    OffsetInRange(list[0]);
  }

  // ---------------------------------------------------------- the round trip

  /** The tables as the box writer leaves them. */
  function TrackTables(list: seq<SampleEntry>, video: bool): Stbl
    requires list != []
  {
    Written(TablesOf(list, video))
  }

  /** What the demuxer makes of a track whose edit list and chunk offsets went through their boxes. */
  function FromBoxes(list: seq<SampleEntry>, video: bool, timescale: u32, movieTimescale: u32, fileSize: u64, rest: bytes)
    : Option<seq<SampleEntry>>
    requires 0 < |list| < TWO_32
  {
    var t := TrackTables(list, video);
    var elst := EditBox(EditOf(list));
    var stco := OffsetBox(t.stco);
    var edits := ReadEdits(elst.size, elst.payload + rest);
    var offsets := ReadOffsets(stco.size, Large(t.stco), stco.payload + rest);
    if edits.Err? || offsets.Err? then None
    else
      var r := SamplesOf(t.(stco := offsets.value), edits.value, timescale, movieTimescale, fileSize);
      if r.Ok? then Some(r.value) else None
  }

  predicate TableInLimit(offsets: seq<u64>) {
    OffsetsSize(Large(offsets), |offsets|) <= MAX_TABLE
  }

  function ChunkOffsets(list: seq<SampleEntry>): seq<u64> {
    OffsetsOf(ChunksOf(list, |list|))
  }

  /** With the offsets kept and the start where it was, the boxes make no difference. */
  lemma {:induction false} SameSamples(t: Stbl, e: Edit, timescale: u32, movieTimescale: u32, fileSize: u64)
    requires e.mediaTime == -1 ==> movieTimescale != 0 && Wrap64(e.segmentDuration as int * timescale as int) / movieTimescale == 0
    ensures SamplesOf(t, [e], timescale, movieTimescale, fileSize) == SamplesOf(t, [], timescale, movieTimescale, fileSize)
  {
    hide SampleAt;
    OneEmptyEdit(e, timescale, movieTimescale);
  }

  lemma {:induction false} OneEmptyEdit(e: Edit, timescale: u32, movieTimescale: u32)
    requires e.mediaTime == -1 ==> movieTimescale != 0
    ensures StartOf([e], timescale, movieTimescale)
      == if e.mediaTime == -1 then Wrap64(e.segmentDuration as int * timescale as int) / movieTimescale else 0
    ensures StartOf([], timescale, movieTimescale) == 0
  {
    hide Wrap64;
    assert [e][..0] == [];
  }

  /** A start other than zero is the first decode time. */
  lemma {:induction false} StartShows(list: seq<SampleEntry>, t: Stbl, e: Edit, timescale: u32,
      movieTimescale: u32, fileSize: u64)
    requires list != [] && e.mediaTime == -1
    requires movieTimescale == 0 || Wrap64(e.segmentDuration as int * timescale as int) / movieTimescale != 0
    ensures var r := SamplesOf(t, [e], timescale, movieTimescale, fileSize); !(r.Ok? && Faithful(list, r.value))
  {
    hide Rebased, PtsAt, OffsetAt, SizeAt, Wrap64, ExpandStts, ExpandChunks;
    var r := SamplesOf(t, [e], timescale, movieTimescale, fileSize);
    assert e in [e];
    if r.Ok? && |r.value| == |list| {
      OneEmptyEdit(e, timescale, movieTimescale);
      assert r.value[0] == SampleAt(t, StartOf([e], timescale, movieTimescale), 0);
    }
  }

  /** Every chunk begins with a sample at its offset. */
  lemma {:induction false} ChunkOpened(list: seq<SampleEntry>, i: nat, j: nat) returns (s: nat)
    requires i <= |list| < TWO_32 && j < |ChunksOf(list, i)|
    ensures s < i && MarkAt(list, s) == Some(ChunksOf(list, i)[j].chunkoffset)
  {
    ChunkCases(list, i);
    hide ChunksOf, Contiguous, Wrap32;
    if !Contiguous(list, i - 1) && j == |ChunksOf(list, i - 1)| {
      s := i - 1;
    } else {
      s := ChunkOpened(list, i - 1, j);
    }
  }

  function MarkKept(large: bool, mark: Option<u64>): Option<u64> {
    if mark.Some? then Some(Kept(large, mark.value)) else None
  }

  lemma {:induction false} ChunkMarksKept(n: u32, offset: u64, large: bool)
    ensures var marks, back := Marks(n, offset), Marks(n, Kept(large, offset));
      |back| == |marks| && forall i :: 0 <= i < |marks| ==> back[i] == MarkKept(large, marks[i])
  {
    hide Kept;
  }

  lemma {:induction false} MarksKept(e: seq<StscEntry>, offsets: seq<u64>, large: bool, k: nat)
    requires e != [] && k <= |offsets|
    ensures var marks, back := ExpandChunks(e, offsets, k), ExpandChunks(e, AllKept(large, offsets), k);
      |back| == |marks| && forall i :: 0 <= i < |marks| ==> back[i] == MarkKept(large, marks[i])
  {
    hide Kept, IteratorAt, Marks, MarkKept;
    if k > 0 {
      MarksKept(e, offsets, large, k - 1);
      ChunkMarksKept(e[IteratorAt(e, k - 1)].samplesPerChunk, offsets[k - 1], large);
    }
  }

  /** An offset that is not kept is the offset of some sample, which then does not come back. */
  lemma {:induction false} LostOffsetShows(list: seq<SampleEntry>, video: bool, edits: seq<Edit>,
      timescale: u32, movieTimescale: u32, fileSize: u64)
    requires 0 < |list| < TWO_32 && !OffsetsKept(ChunkOffsets(list))
    ensures var t := TrackTables(list, video);
      var r := SamplesOf(t.(stco := AllKept(Large(t.stco), t.stco)), edits, timescale, movieTimescale, fileSize);
      !(r.Ok? && Faithful(list, r.value))
  {
    hide SttsOf, CttsOf, ChunksOf, StscOf, StszOf, PtsAt, DtsAt, ExpandStts, ExpandChunks, StartOf, Rebased, Large;
    var t := TrackTables(list, video);
    assert t.stco == ChunkOffsets(list);
    PositionsReadBack(list, video);
    MarksKept(t.stsc.entrys, t.stco, Large(t.stco), |t.stco|);
    hide TrackTables, MarkAt;
    var j :| 0 <= j < |t.stco| && t.stco[j] >= TWO_32;
    var s := ChunkOpened(list, |list|, j);
    MarkOffset(list, s);
    var back := t.(stco := AllKept(Large(t.stco), t.stco));
    var r := SamplesOf(back, edits, timescale, movieTimescale, fileSize);
    if r.Ok? && |r.value| == |list| {
      assert r.value[s] == SampleAt(back, StartOf(edits, timescale, movieTimescale), s);
    }
  }

  lemma {:induction false} MarkOffset(list: seq<SampleEntry>, s: nat)
    requires s < |list| && MarkAt(list, s).Some?
    ensures list[s].offset == MarkAt(list, s).value
  {
  }

  /**
   The round trip through the boxes: every sample comes back if and only if
   the tables do it as they are, the chunk offset table is within the
   reader's limit and loses no offset, and the edit is not taken for an empty
   one that moves the start.
   */
  lemma {:induction false} BoxesIff(list: seq<SampleEntry>, video: bool, timescale: u32,
      movieTimescale: u32, fileSize: u64, rest: bytes)
    requires 0 < |list| < TWO_32 && Held(list, fileSize)
    ensures var r := FromBoxes(list, video, timescale, movieTimescale, fileSize, rest);
      r.Some? && Faithful(list, r.value)
      <==> && SizesFit(list) && GapsFit(list) && OffsetsFit(list, video)
           && TableInLimit(ChunkOffsets(list)) && OffsetsKept(ChunkOffsets(list)) && StartKept(list, timescale, movieTimescale)
  {
    hide TrackTables, ReadEdits, ReadOffsets, EditBox, OffsetBox, SamplesOf, Faithful, SizesFit, GapsFit, OffsetsFit, Held,
      OffsetsSize, OffsetsKept, EditKept, EditOf, AllKept, Offset, MediaDuration, ChunkOffsets, Large, Wrap64;
    var t, e, offsets := TrackTables(list, video), EditKept(EditOf(list)), ChunkOffsets(list);
    StcoIs(list, video);
    EditBoxBack(EditOf(list), rest);
    OffsetBoxBack(offsets, rest);
    EmptyEditIff(list);
    if !OffsetsKept(offsets) {
      LostOffsetShows(list, video, [e], timescale, movieTimescale, fileSize);
    } else if !StartKept(list, timescale, movieTimescale) {
      StartShows(list, t.(stco := AllKept(Large(offsets), offsets)), e, timescale, movieTimescale, fileSize);
    } else {
      KeptIff(offsets);
      assert t.(stco := offsets) == t;
      SameSamples(t, e, timescale, movieTimescale, fileSize);
      TablesIff(list, video, timescale, movieTimescale, fileSize);
    }
  }

  lemma {:induction false} TablesIff(list: seq<SampleEntry>, video: bool, timescale: u32,
      movieTimescale: u32, fileSize: u64)
    requires 0 < |list| < TWO_32 && Held(list, fileSize)
    ensures var r := SamplesOf(TrackTables(list, video), [], timescale, movieTimescale, fileSize);
      r.Ok? && Faithful(list, r.value) <==> SizesFit(list) && GapsFit(list) && OffsetsFit(list, video)
  {
    hide SamplesOf, Faithful, SizesFit, GapsFit, OffsetsFit, Held, TablesOf;
    RoundTripIff(list, video, [], timescale, movieTimescale, fileSize);
  }

  lemma {:induction false} StcoIs(list: seq<SampleEntry>, video: bool)
    requires 0 < |list| < TWO_32
    ensures TrackTables(list, video).stco == ChunkOffsets(list) && |ChunkOffsets(list)| < TWO_32
  {
    hide SttsOf, CttsOf, StscOf, StszOf;
  }

  // ------------------------------------------------- inputs that are lost

  /** The first sample is shown 2^32 - 1 ticks after it is decoded: the tables could do it. */
  const LATEST_SHOWN := [SampleEntry(0xFFFF_FFFF, 0, 0, 1)]

  lemma {:induction false} EmptyEditLost(rest: bytes)
    ensures SizesFit(LATEST_SHOWN) && GapsFit(LATEST_SHOWN) && OffsetsFit(LATEST_SHOWN, true)
    ensures var r := FromBoxes(LATEST_SHOWN, true, 1000, 1000, 1, rest); !(r.Some? && Faithful(LATEST_SHOWN, r.value))
  {
    hide FromBoxes, Faithful;
    var list := LATEST_SHOWN;
    assert SpanOf(list, 1) == 0 && MediaDuration(list) == 1;
    BoxesIff(list, true, 1000, 1000, 1, rest);
  }

  /** The first of two chunks lies past 2^32, the second does not. */
  const WRITTEN_BACKWARDS := [SampleEntry(0, 0, TWO_32, 1), SampleEntry(1, 1, 0, 1)]

  lemma {:induction false} LargeOffsetLost(rest: bytes)
    ensures SizesFit(WRITTEN_BACKWARDS) && GapsFit(WRITTEN_BACKWARDS) && OffsetsFit(WRITTEN_BACKWARDS, true)
    ensures var r := FromBoxes(WRITTEN_BACKWARDS, true, 1000, 1000, 2, rest); !(r.Some? && Faithful(WRITTEN_BACKWARDS, r.value))
  {
    hide FromBoxes, Faithful;
    var list := WRITTEN_BACKWARDS;
    assert ChunksOf(list, 1) == [MovChunk(0, 1, TWO_32)] by { assert ChunksOf(list, 0) == []; }
    assert ChunksOf(list, 2) == [MovChunk(0, 1, TWO_32), MovChunk(1, 1, 0)];
    assert ChunkOffsets(list) == [TWO_32, 0];
    assert ChunkOffsets(list)[0] >= TWO_32;
    BoxesIff(list, true, 1000, 1000, 2, rest);
  }

  // ----------------------------------------------------------------- loops

  method EncodeOffsets(offsets: seq<u64>) returns (box: Box)
    requires |offsets| < TWO_32
    ensures box == OffsetBox(offsets)
  {
    hide PutU32, PutOffset, Large;
    var large := Large(offsets);
    var entries: bytes := [];
    ghost var all := PutOffsets(large, offsets);
    assert offsets[0..] == offsets;
    for i := 0 to |offsets|
      invariant entries + PutOffsets(large, offsets[i..]) == all
    {
      assert offsets[i..][1..] == offsets[i + 1..];
      entries := entries + PutOffset(large, offsets[i]);
    }
    return BoxOf([0, 0, 0, 0] + (PutU32(|offsets|) + entries));
  }

  method DecodeOffsets(size: nat, large: bool, b: bytes) returns (r: Result<seq<u64>, Error>)
    ensures r == ReadOffsets(size, large, b)
  {
    hide U32, TakeOffset, TableError;
    if |b| < 8 {
      return Err(Truncated);
    }
    var count := U32(b[4..]);
    var e := TableError(size, OffsetsSize(large, count));
    if e.Some? {
      return Err(e.value);
    }
    if |b| - 8 < OffsetsSize(large, count) {
      return Err(Truncated);
    }
    var offsets: seq<u64>, rest := [], b[8..];
    ghost var all := TakeOffsets(large, rest, count);
    for i := 0 to count
      invariant |rest| >= OffsetsSize(large, count - i) && offsets + TakeOffsets(large, rest, count - i) == all
    {
      offsets := offsets + [TakeOffset(large, rest)];
      rest := rest[Width(large)..];
    }
    assert offsets + [] == offsets;
    return Ok(offsets);
  }

  method DecodeEdits(size: nat, b: bytes) returns (r: Result<seq<Edit>, Error>)
    ensures r == ReadEdits(size, b)
  {
    hide U32, TakeEdit, TableError;
    if |b| < 8 {
      return Err(Truncated);
    }
    var wide, count := b[0] != 0, U32(b[4..]);
    var e := TableError(size, EditsSize(wide, count));
    if e.Some? {
      return Err(e.value);
    }
    if |b| - 8 < EditsSize(wide, count) {
      return Err(Truncated);
    }
    var edits: seq<Edit>, rest := [], b[8..];
    ghost var all := TakeEdits(wide, rest, count);
    for i := 0 to count
      invariant |rest| >= EditsSize(wide, count - i) && edits + TakeEdits(wide, rest, count - i) == all
    {
      edits := edits + [TakeEdit(wide, rest)];
      rest := rest[EntrySize(wide)..];
    }
    assert edits + [] == edits;
    return Ok(edits);
  }
}
