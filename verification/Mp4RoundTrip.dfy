/** What the demuxer expands is what the muxer compressed, and exactly when. */
module Mp4RoundTrip {
  import opened Bytes
  import opened Wrappers
  import opened Mp4Tables

  // ------------------------------------------------------- decode deltas

  function DeltaAt(list: seq<SampleEntry>, k: nat): u32
    requires k < |list|
  {
    if k == |list| - 1 then LastDelta(list) else Wrap32(Gap(list, k))
  }

  lemma {:induction false} RepeatMore<T>(n: nat, x: T)
    ensures Repeat(n + 1, x) == Repeat(n, x) + [x] && Repeat(1, x) == [x] && Repeat(0, x) == []
  {
  }

  lemma {:induction false} ExpandLast(e: seq<SttsEntry>, x: SttsEntry)
    ensures ExpandStts(e + [x]) == ExpandStts(e) + Repeat(x.sampleCount, x.sampleDelta)
  {
    assert (e + [x])[..|e|] == e;
  }

  lemma {:induction false} OneLonger<T>(a: seq<T>, n: nat, x: T)
    ensures a + Repeat(n + 1, x) == (a + Repeat(n, x)) + [x] && |a + Repeat(n, x)| >= n
  {
    RepeatMore(n, x);
    assert a + (Repeat(n, x) + [x]) == (a + Repeat(n, x)) + [x];
  }

  /** One more tick of the same delta, or a new entry, expands to one more delta. */
  lemma {:induction false} ExpandAddDelta(e: seq<SttsEntry>, delta: u64)
    requires |ExpandStts(e)| < TWO_32 - 1
    ensures ExpandStts(AddDelta(e, delta)) == ExpandStts(e) + [Wrap32(delta)]
  {
    hide Repeat, ExpandStts, Wrap32;
    var n := |e|;
    if n > 0 && delta == e[n - 1].sampleDelta {
      var before, last := e[..n - 1], e[n - 1];
      assert e == before + [last];
      ExpandLast(before, last);
      OneLonger(ExpandStts(before), last.sampleCount, delta);
      WrapSmall(last.sampleCount + 1);
      WrapSmall(delta);
      ExpandLast(before, last.(sampleCount := last.sampleCount + 1));
      assert AddDelta(e, delta) == before + [last.(sampleCount := last.sampleCount + 1)];
    } else {
      ExpandLast(e, SttsEntry(1, Wrap32(delta)));
      RepeatMore(1, Wrap32(delta));
    }
  }

  ghost predicate Deltas(list: seq<SampleEntry>, x: seq<u32>, i: nat)
    requires i <= |list|
  {
    |x| == i && forall k :: 0 <= k < i ==> x[k] == DeltaAt(list, k)
  }

  lemma {:induction false} DeltasMore(list: seq<SampleEntry>, x: seq<u32>, i: nat)
    requires 0 < i <= |list| && Deltas(list, x, i - 1)
    ensures |x| == i - 1 && Deltas(list, x + [DeltaAt(list, i - 1)], i)
  {
    hide DeltaAt;
  }

  lemma {:induction false} SttsNext(list: seq<SampleEntry>, i: nat)
    requires 0 < i <= |list| && |ExpandStts(SttsOf(list, i - 1))| < TWO_32 - 1
    ensures ExpandStts(SttsOf(list, i)) == ExpandStts(SttsOf(list, i - 1)) + [DeltaAt(list, i - 1)]
  {
    hide ExpandStts, AddDelta, LastDelta, Gap, Wrap32, Repeat;
    var e := SttsOf(list, i - 1);
    if i == |list| {
      ExpandLast(e, SttsEntry(1, LastDelta(list)));
      RepeatMore(1, LastDelta(list));
    } else {
      ExpandAddDelta(e, Gap(list, i - 1));
    }
  }

  lemma {:induction false} SttsExpands(list: seq<SampleEntry>, i: nat)
    requires i <= |list| < TWO_32
    ensures Deltas(list, ExpandStts(SttsOf(list, i)), i)
  {
    if i > 0 {
      hide DeltaAt, Deltas, SttsOf, ExpandStts;
      SttsExpands(list, i - 1);
      DeltasMore(list, ExpandStts(SttsOf(list, i - 1)), i);
      SttsNext(list, i);
    }
  }

  // -------------------------------------------------- composition offsets

  lemma {:induction false} ExpandCttsLast(version: byte, e: seq<CttsEntry>, x: CttsEntry)
    ensures ExpandCtts(version, e + [x]) == ExpandCtts(version, e) + Repeat(x.sampleCount, EntryOffset(version, x.sampleOffset))
  {
    assert (e + [x])[..|e|] == e;
  }

  lemma {:induction false} ExpandAddOffset(version: byte, e: seq<CttsEntry>, offset: u32)
    requires |ExpandCtts(version, e)| < TWO_32 - 1
    ensures ExpandCtts(version, AddOffset(e, offset)) == ExpandCtts(version, e) + [EntryOffset(version, offset)]
  {
    hide Repeat, ExpandCtts, EntryOffset, Wrap32;
    var n := |e|;
    if n > 0 && e[n - 1].sampleOffset == offset {
      var before, last := e[..n - 1], e[n - 1];
      assert e == before + [last];
      ExpandCttsLast(version, before, last);
      OneLonger(ExpandCtts(version, before), last.sampleCount, EntryOffset(version, offset));
      WrapSmall(last.sampleCount + 1);
      ExpandCttsLast(version, before, last.(sampleCount := last.sampleCount + 1));
      assert AddOffset(e, offset) == before + [last.(sampleCount := last.sampleCount + 1)];
    } else {
      ExpandCttsLast(version, e, CttsEntry(1, offset));
      RepeatMore(1, EntryOffset(version, offset));
    }
  }

  ghost predicate Offsets(list: seq<SampleEntry>, x: seq<int>, i: nat, version: byte)
    requires i <= |list|
  {
    |x| == i && forall k :: 0 <= k < i ==> x[k] == EntryOffset(version, Wrap32(Offset(list[k])))
  }

  lemma {:induction false} OffsetsMore(list: seq<SampleEntry>, x: seq<int>, i: nat, version: byte)
    requires 0 < i <= |list| && Offsets(list, x, i - 1, version)
    ensures Offsets(list, x + [EntryOffset(version, Wrap32(Offset(list[i - 1])))], i, version)
  {
    hide EntryOffset, Wrap32, Offset;
  }

  lemma {:induction false} CttsExpands(list: seq<SampleEntry>, i: nat, version: byte)
    requires i <= |list| < TWO_32
    ensures Offsets(list, ExpandCtts(version, CttsOf(list, i).entrys), i, version)
  {
    hide Wrap32, Offset, EntryOffset, AddOffset;
    if i > 0 {
      CttsExpands(list, i - 1, version);
      ExpandAddOffset(version, CttsOf(list, i - 1).entrys, Wrap32(Offset(list[i - 1])));
      OffsetsMore(list, ExpandCtts(version, CttsOf(list, i - 1).entrys), i, version);
    }
  }

  /** The signed version of the box is chosen exactly when some offset is negative. */
  lemma {:induction false} CttsVersion(list: seq<SampleEntry>, i: nat)
    requires i <= |list|
    ensures CttsOf(list, i).version == if exists k :: 0 <= k < i && Offset(list[k]) < 0 then 1 else 0
    ensures i > 0 ==> CttsOf(list, i).entrys != []
  {
    if i > 0 {
      CttsVersion(list, i - 1);
    }
  }

  // ---------------------------------------------------------------- chunks

  function FlatMarks(chunks: seq<MovChunk>, k: nat): seq<Option<u64>>
    requires k <= |chunks|
  {
    if k == 0 then [] else FlatMarks(chunks, k - 1) + Marks(chunks[k - 1].samplenum, chunks[k - 1].chunkoffset)
  }

  function MarkAt(list: seq<SampleEntry>, k: nat): Option<u64>
    requires k < |list|
  {
    if Contiguous(list, k) then None else Some(list[k].offset)
  }

  lemma {:induction false} FlatMarksPrefix(a: seq<MovChunk>, b: seq<MovChunk>, k: nat)
    requires k <= |a| && k <= |b| && a[..k] == b[..k]
    ensures FlatMarks(a, k) == FlatMarks(b, k)
  {
    if k > 0 {
      assert a[..k - 1] == a[..k][..k - 1] && b[..k - 1] == b[..k][..k - 1];
      assert a[k - 1] == a[..k][k - 1] && b[k - 1] == b[..k][k - 1];
      FlatMarksPrefix(a, b, k - 1);
    }
  }

  lemma {:induction false} MarksMore(n: u32, offset: u64)
    requires 1 <= n < TWO_32 - 1
    ensures Marks(n + 1, offset) == Marks(n, offset) + [None]
  {
    hide Repeat;
    RepeatMore<Option<u64>>(n - 1, None);
  }

  lemma {:induction false} MarkInLastChunk(c: seq<MovChunk>)
    requires c != [] && 1 <= c[|c| - 1].samplenum < TWO_32 - 1
    ensures var n := |c|;
            var c' := c[n - 1 := c[n - 1].(samplenum := c[n - 1].samplenum + 1)];
            FlatMarks(c', n) == FlatMarks(c, n) + [None]
  {
    hide Marks;
    var n := |c|;
    var c' := c[n - 1 := c[n - 1].(samplenum := c[n - 1].samplenum + 1)];
    FlatMarksPrefix(c, c', n - 1);
    MarksMore(c[n - 1].samplenum, c[n - 1].chunkoffset);
    var m := Marks(c[n - 1].samplenum, c[n - 1].chunkoffset);
    assert FlatMarks(c, n - 1) + (m + [None]) == FlatMarks(c, n - 1) + m + [None];
  }

  lemma {:induction false} MarkOpensChunk(c: seq<MovChunk>, x: MovChunk)
    requires x.samplenum == 1
    ensures FlatMarks(c + [x], |c| + 1) == FlatMarks(c, |c|) + [Some(x.chunkoffset)]
  {
    assert Marks(1, x.chunkoffset) == [Some(x.chunkoffset)];
    hide Marks;
    FlatMarksPrefix(c, c + [x], |c|);
  }

  /** The two ways the list of chunks grows by a sample. */
  lemma {:induction false} ChunkCases(list: seq<SampleEntry>, i: nat)
    requires 0 < i <= |list| < TWO_32
    ensures var c, c' := ChunksOf(list, i - 1), ChunksOf(list, i);
            var n := |c|;
            if Contiguous(list, i - 1)
            then n > 0 && c' == c[n - 1 := c[n - 1].(samplenum := Wrap32(c[n - 1].samplenum as int + 1))]
            else c' == c + [MovChunk(n, 1, list[i - 1].offset)]
  {
    hide Wrap64;
    WrapSmall(|ChunksOf(list, i - 1)|);
  }

  lemma {:induction false} ChunksNumbered(list: seq<SampleEntry>, i: nat)
    requires i <= |list| < TWO_32
    ensures var c := ChunksOf(list, i); forall j :: 0 <= j < |c| ==> c[j].chunknum == j
  {
    if i > 0 {
      ChunksNumbered(list, i - 1);
      ChunkCases(list, i);
      hide ChunksOf, Contiguous, Wrap32;
    }
  }

  /** One more sample adds its mark to a list of chunks grown either way. */
  lemma {:induction false} MarkAdded(c: seq<MovChunk>, c': seq<MovChunk>, contiguous: bool, offset: u64)
    requires |FlatMarks(c, |c|)| < TWO_32 - 1 && (c != [] ==> c[|c| - 1].samplenum >= 1)
    requires if contiguous
             then c != [] && c' == c[|c| - 1 := c[|c| - 1].(samplenum := Wrap32(c[|c| - 1].samplenum as int + 1))]
             else |c| < TWO_32 && c' == c + [MovChunk(|c|, 1, offset)]
    ensures FlatMarks(c', |c'|) == FlatMarks(c, |c|) + [if contiguous then None else Some(offset)]
    ensures c'[|c'| - 1].samplenum >= 1
  {
    hide FlatMarks, Wrap32;
    if contiguous {
      LastChunkBound(c);
      WrapSmall(c[|c| - 1].samplenum + 1);
      MarkInLastChunk(c);
    } else {
      MarkOpensChunk(c, MovChunk(|c|, 1, offset));
    }
  }

  lemma {:induction false} ChunkGrows(list: seq<SampleEntry>, i: nat)
    requires 0 < i <= |list| < TWO_32
    requires var c := ChunksOf(list, i - 1);
             |FlatMarks(c, |c|)| == i - 1 && (i > 1 ==> c[|c| - 1].samplenum >= 1)
    ensures var c, c' := ChunksOf(list, i - 1), ChunksOf(list, i);
            && FlatMarks(c', |c'|) == FlatMarks(c, |c|) + [MarkAt(list, i - 1)]
            && c'[|c'| - 1].samplenum >= 1
  {
    assert i == 1 ==> ChunksOf(list, 0) == [];
    hide ChunksOf, FlatMarks, Wrap32, Contiguous;
    ChunkCases(list, i);
    MarkAdded(ChunksOf(list, i - 1), ChunksOf(list, i), Contiguous(list, i - 1), list[i - 1].offset);
  }

  function MarksUpTo(list: seq<SampleEntry>, i: nat): (marks: seq<Option<u64>>)
    requires i <= |list|
    ensures |marks| == i
  {
    if i == 0 then [] else MarksUpTo(list, i - 1) + [MarkAt(list, i - 1)]
  }

  lemma {:induction false} MarksIndex(list: seq<SampleEntry>, i: nat, k: nat)
    requires k < i <= |list|
    ensures MarksUpTo(list, i)[k] == MarkAt(list, k)
  {
    hide MarkAt;
    if k < i - 1 {
      MarksIndex(list, i - 1, k);
    }
  }

  lemma {:induction false} ChunksFlatten(list: seq<SampleEntry>, i: nat)
    requires i <= |list| < TWO_32
    ensures var c := ChunksOf(list, i);
            && FlatMarks(c, |c|) == MarksUpTo(list, i)
            && (i > 0 ==> c[|c| - 1].samplenum >= 1)
  {
    if i > 0 {
      hide FlatMarks, MarkAt, ChunksOf;
      ChunksFlatten(list, i - 1);
      ChunkGrows(list, i);
    }
  }

  lemma {:induction false} LastChunkBound(c: seq<MovChunk>)
    requires c != []
    ensures c[|c| - 1].samplenum <= |FlatMarks(c, |c|)|
  {
  }

  predicate Numbered(chunks: seq<MovChunk>) {
    |chunks| < TWO_32 && forall j :: 0 <= j < |chunks| ==> chunks[j].chunknum == j
  }

  /** The entries of more chunks extend those of fewer, with later first chunks. */
  lemma {:induction false} StscShape(chunks: seq<MovChunk>, k: nat)
    requires Numbered(chunks) && 0 < k <= |chunks|
    ensures var e := StscOf(chunks, k);
            && e != [] && e[|e| - 1].samplesPerChunk == chunks[k - 1].samplenum
            && forall j :: 0 <= j < |e| ==> e[j].firstChunk <= k
  {
    if k > 1 {
      StscShape(chunks, k - 1);
    }
  }

  lemma {:induction false} StscExtends(chunks: seq<MovChunk>, k: nat, m: nat)
    requires Numbered(chunks) && 0 < k <= m <= |chunks|
    ensures var e, f := StscOf(chunks, k), StscOf(chunks, m);
            && |e| <= |f| && f[..|e|] == e
            && forall j :: |e| <= j < |f| ==> f[j].firstChunk > k
    decreases m - k
  {
    if k < m {
      StscExtends(chunks, k, m - 1);
      var g, f := StscOf(chunks, m - 1), StscOf(chunks, m);
      assert f[..|g|] == g;
    }
  }

  lemma {:induction false} AdvanceTo(e: seq<StscEntry>, it: nat, dest: nat, num: int)
    requires it <= dest < |e|
    requires forall j :: it < j <= dest ==> e[j].firstChunk <= num
    requires forall j :: dest < j < |e| ==> e[j].firstChunk > num
    ensures Advance(e, it, num) == dest
    decreases dest - it
  {
    if it < dest {
      AdvanceTo(e, it + 1, dest, num);
    }
  }

  /** The reader's moving iterator is at the entry that was last when chunk `k` was written. */
  lemma {:induction false} IteratorFinds(chunks: seq<MovChunk>, k: nat)
    requires Numbered(chunks) && k < |chunks|
    ensures var e := StscOf(chunks, |chunks|);
            IteratorAt(e, k) == |StscOf(chunks, k + 1)| - 1
  {
    hide StscOf;
    var e, f := StscOf(chunks, |chunks|), StscOf(chunks, k + 1);
    StscShape(chunks, k + 1);
    StscExtends(chunks, k + 1, |chunks|);
    forall j | 0 <= j < |f|
      ensures e[j] == f[j]
    {
      assert e[j] == e[..|f|][j];
    }
    var from := 0;
    if k > 0 {
      IteratorFinds(chunks, k - 1);
      StscExtends(chunks, k, k + 1);
      StscShape(chunks, k);
      from := |StscOf(chunks, k)| - 1;
    }
    hide Advance;
    AdvanceTo(e, from, |f| - 1, k + 1);
  }

  lemma {:induction false} IteratorReads(chunks: seq<MovChunk>, k: nat)
    requires Numbered(chunks) && k < |chunks|
    ensures var e := StscOf(chunks, |chunks|);
            e != [] && e[IteratorAt(e, k)].samplesPerChunk == chunks[k].samplenum
  {
    hide StscOf, IteratorAt;
    var e, f := StscOf(chunks, |chunks|), StscOf(chunks, k + 1);
    StscShape(chunks, k + 1);
    StscExtends(chunks, k + 1, |chunks|);
    IteratorFinds(chunks, k);
    assert e[|f| - 1] == e[..|f|][|f| - 1];
  }

  lemma {:induction false} ChunksExpand(chunks: seq<MovChunk>, k: nat)
    requires Numbered(chunks) && k <= |chunks| && chunks != []
    requires StscOf(chunks, |chunks|) != []
    ensures ExpandChunks(StscOf(chunks, |chunks|), OffsetsOf(chunks), k) == FlatMarks(chunks, k)
  {
    hide StscOf, IteratorAt, Marks, Numbered;
    if k > 0 {
      ChunksExpand(chunks, k - 1);
      IteratorReads(chunks, k - 1);
    }
  }

  // ------------------------------------------------- sizes and positions

  predicate SizesFit(list: seq<SampleEntry>) {
    forall i :: 0 <= i < |list| ==> list[i].size < TWO_32
  }

  lemma {:induction false} AllSame(list: seq<SampleEntry>, i: nat)
    requires SameSize(list) && i < |list|
    ensures list[i].size == list[0].size
  {
    if i > 0 {
      AllSame(list, i - 1);
      assert list[i - 1].size == list[i].size;
    }
  }

  lemma {:induction false} SizeComesBack(list: seq<SampleEntry>, i: nat)
    requires i < |list| && SizesFit(list)
    ensures var z := StszOf(list);
            (z.sampleSize == 0 ==> |z.entrySizelist| == |list|) && SizeAt(z, i) == list[i].size
  {
    if SameSize(list) {
      AllSame(list, i);
    }
  }

  lemma {:induction false} OffsetComesBack(list: seq<SampleEntry>, marks: seq<Option<u64>>, i: nat)
    requires i < |list| && SizesFit(list) && |marks| == |list|
    requires forall k :: 0 <= k < |list| ==> marks[k] == MarkAt(list, k)
    ensures var z := StszOf(list);
            (z.sampleSize == 0 ==> |z.entrySizelist| == |list|) && OffsetAt(z, marks, i) == list[i].offset
  {
    SizeComesBack(list, i);
    if Contiguous(list, i) {
      OffsetComesBack(list, marks, i - 1);
      SizeComesBack(list, i - 1);
    }
  }

  // --------------------------------------------------------- decode times

  /** The steps stts can express. */
  predicate GapsFit(list: seq<SampleEntry>) {
    forall i :: 0 <= i < |list| - 1 ==> 0 <= list[i + 1].dts as int - list[i].dts as int < TWO_32
  }

  ghost predicate IsDeltas(list: seq<SampleEntry>, deltas: seq<u32>) {
    Deltas(list, deltas, |list|)
  }

  /** The running sum never gets near 64 bits. */
  lemma {:induction false} DtsBound(deltas: seq<u32>, i: nat)
    requires i <= |deltas| < TWO_32
    ensures DtsAt(0, deltas, i) <= i * 0xffff_ffff
  {
    if i > 0 {
      DtsBound(deltas, i - 1);
    }
  }

  /** Given the right time for sample `i`, the next is right just when the step fits. */
  lemma {:induction false} DtsStep(list: seq<SampleEntry>, deltas: seq<u32>, i: nat)
    requires IsDeltas(list, deltas) && i + 1 < |list| < TWO_32
    requires DtsAt(0, deltas, i) == list[i].dts as int - list[0].dts as int
    ensures DtsAt(0, deltas, i + 1) == list[i + 1].dts as int - list[0].dts as int
            <==> 0 <= list[i + 1].dts as int - list[i].dts as int < TWO_32
  {
    DtsBound(deltas, i);
    var d := DtsAt(0, deltas, i);
    assert d + deltas[i] < TWO_64;
    assert DtsAt(0, deltas, i + 1) == d + deltas[i];
  }

  lemma {:induction false} DtsComesBack(list: seq<SampleEntry>, deltas: seq<u32>, i: nat)
    requires IsDeltas(list, deltas) && i < |list| < TWO_32 && GapsFit(list)
    ensures DtsAt(0, deltas, i) == list[i].dts as int - list[0].dts as int
  {
    if i > 0 {
      DtsComesBack(list, deltas, i - 1);
      DtsStep(list, deltas, i - 1);
    }
  }

  lemma {:induction false} DtsNeedsGaps(list: seq<SampleEntry>, deltas: seq<u32>)
    requires IsDeltas(list, deltas) && |list| < TWO_32
    requires forall i :: 0 <= i < |list| ==> DtsAt(0, deltas, i) == list[i].dts as int - list[0].dts as int
    ensures GapsFit(list)
  {
    forall i | 0 <= i < |list| - 1
      ensures 0 <= list[i + 1].dts as int - list[i].dts as int < TWO_32
    {
      DtsStep(list, deltas, i);
      assert DtsAt(0, deltas, i + 1) == list[i + 1].dts as int - list[0].dts as int;
    }
  }

  // ---------------------------------------------------- composition times

  /** The offsets one ctts box can express: all non-negative, or all signed 32 bit. */
  predicate OffsetsFit(list: seq<SampleEntry>, video: bool) {
    if video then
      || (forall i :: 0 <= i < |list| ==> 0 <= Offset(list[i]) < TWO_32)
      || (forall i :: 0 <= i < |list| ==> -TWO_31 <= Offset(list[i]) < TWO_31)
    else
      forall i :: 0 <= i < |list| ==> list[i].pts == list[i].dts
  }

  /** A presentation time moved back to a start of `first`, as 64 bit arithmetic has it. */
  function Rebased(s: SampleEntry, first: u64): u64 {
    Wrap64(s.pts as int - first as int)
  }

  lemma {:induction false} OffsetExact(version: byte, s: SampleEntry, first: u64)
    requires version <= 1 && first <= s.dts
    ensures Wrap64(s.dts - first + EntryOffset(version, Wrap32(Offset(s)))) == Rebased(s, first)
            <==> EntryOffset(version, Wrap32(Offset(s))) == Offset(s)
  {
    var o, x := Offset(s), EntryOffset(version, Wrap32(Offset(s)));
    assert o - (s.pts as int - s.dts as int) in {-TWO_64, 0, TWO_64};
    assert Wrap64(s.dts - first + o) == Rebased(s, first);
    assert -TWO_64 < x - o < TWO_64;
    WrapNear(s.dts - first + o, s.dts - first + x);
  }

  /** Two numbers less than 2^64 apart agree in 64 bits only when equal. */
  lemma {:induction false} WrapNear(a: int, b: int)
    requires -TWO_64 < b - a < TWO_64
    ensures Wrap64(a) == Wrap64(b) <==> a == b
  {
    if Wrap64(a) == Wrap64(b) {
      var q := a / TWO_64 - b / TWO_64;
      assert a - b == q * TWO_64;
    }
  }

  lemma {:induction false} EntryFits(version: byte, o: int)
    requires version <= 1 && -TWO_63 <= o < TWO_63
    ensures EntryOffset(version, Wrap32(o)) == o
            <==> Expressible(version, o)
  {
  }

  /** With the decode times right, the presentation times are right just when the offsets fit. */
  lemma {:induction false} PtsIff(list: seq<SampleEntry>, video: bool)
    requires list != [] && |list| < TWO_32 && GapsFit(list)
    ensures var c := if video then Some(CttsOf(list, |list|)) else None;
            (forall i :: 0 <= i < |list| ==>
               list[i].dts >= list[0].dts && PtsAt(list[i].dts - list[0].dts, c, i) == Rebased(list[i], list[0].dts))
            <==> OffsetsFit(list, video)
  {
    var c := if video then Some(CttsOf(list, |list|)) else None;
    forall i | 0 <= i < |list|
      ensures list[i].dts >= list[0].dts
    {
      Ascending(list, i);
    }
    hide GapsFit;
    if video {
      VideoPtsIff(list);
    } else {
      forall i | 0 <= i < |list|
        ensures PtsAt(list[i].dts - list[0].dts, c, i) == Rebased(list[i], list[0].dts) <==> list[i].pts == list[i].dts
      {
        WrapNear(list[i].pts as int - list[0].dts as int, list[i].dts - list[0].dts);
      }
    }
  }

  /** An offset a ctts box of this version can hold. */
  predicate Expressible(version: byte, o: int) {
    if version == 1 then -TWO_31 <= o < TWO_31 else 0 <= o < TWO_32
  }

  lemma {:induction false} VideoPtAt(list: seq<SampleEntry>, i: nat)
    requires i < |list| < TWO_32 && list[i].dts >= list[0].dts
    ensures var c := CttsOf(list, |list|);
            PtsAt(list[i].dts - list[0].dts, Some(c), i) == Rebased(list[i], list[0].dts)
            <==> Expressible(c.version, Offset(list[i]))
  {
    hide CttsOf, ExpandCtts, Offset, EntryOffset, Rebased, Wrap64, Wrap32, Expressible;
    var c := CttsOf(list, |list|);
    CttsVersion(list, |list|);
    CttsExpands(list, |list|, c.version);
    OffsetInRange(list[i]);
    OffsetExact(c.version, list[i], list[0].dts);
    EntryFits(c.version, Offset(list[i]));
    assert ExpandCtts(c.version, c.entrys)[i] == EntryOffset(c.version, Wrap32(Offset(list[i])));
  }

  lemma {:induction false} VideoPtsIff(list: seq<SampleEntry>)
    requires list != [] && |list| < TWO_32 && forall i :: 0 <= i < |list| ==> list[i].dts >= list[0].dts
    ensures (forall i :: 0 <= i < |list| ==>
               PtsAt(list[i].dts - list[0].dts, Some(CttsOf(list, |list|)), i) == Rebased(list[i], list[0].dts))
            <==> OffsetsFit(list, true)
  {
    CttsVersion(list, |list|);
    hide CttsOf, Offset, Rebased, PtsAt;
    forall i | 0 <= i < |list|
      ensures PtsAt(list[i].dts - list[0].dts, Some(CttsOf(list, |list|)), i) == Rebased(list[i], list[0].dts)
              <==> Expressible(CttsOf(list, |list|).version, Offset(list[i]))
    {
      VideoPtAt(list, i);
    }
  }

  lemma {:induction false} OffsetInRange(s: SampleEntry)
    ensures -TWO_63 <= Offset(s) < TWO_63
  {
  }

  lemma {:induction false} Ascending(list: seq<SampleEntry>, i: nat)
    requires GapsFit(list) && i < |list|
    ensures list[i].dts >= list[0].dts
  {
    if i > 0 {
      Ascending(list, i - 1);
      assert list[i - 1 + 1] == list[i];
    }
  }

  // -------------------------------------------------------- the round trip

  /** The file holds the samples when they all have one size. */
  predicate Held(list: seq<SampleEntry>, fileSize: u64) {
    list != [] && SameSize(list) && list[0].size != 0 ==> |list| <= fileSize / list[0].size
  }

  predicate NoEmptyEdit(edits: seq<Edit>) {
    forall e :: e in edits ==> e.mediaTime != -1
  }

  lemma {:induction false} StartsAtZero(edits: seq<Edit>, timescale: u32, movieTimescale: u32)
    requires NoEmptyEdit(edits)
    ensures StartOf(edits, timescale, movieTimescale) == 0
    decreases |edits|
  {
    if edits != [] {
      StartsAtZero(edits[..|edits| - 1], timescale, movieTimescale);
    }
  }

  /** What the demuxer reads of a written track before times are compared. */
  ghost predicate ReadsBack(list: seq<SampleEntry>, built: seq<SampleEntry>, video: bool, deltas: seq<u32>) {
    && IsDeltas(list, deltas)
    && |built| == |list|
    && forall i :: 0 <= i < |list| ==>
         && built[i].offset == list[i].offset && built[i].size == list[i].size
         && built[i].dts == DtsAt(0, deltas, i)
         && built[i].pts == PtsAt(built[i].dts, if video then Some(CttsOf(list, |list|)) else None, i)
  }

  /** The written chunk tables give back every sample's position. */
  lemma {:induction false} PositionsReadBack(list: seq<SampleEntry>, video: bool)
    requires list != [] && |list| < TWO_32
    ensures var t := Written(TablesOf(list, video));
            && t.stsc.entrys != [] && t.stsc.entryCount != 0
            && var marks := ExpandChunks(t.stsc.entrys, t.stco, |t.stco|);
            && |marks| == |list| && forall k :: 0 <= k < |list| ==> marks[k] == MarkAt(list, k)
  {
    var chunks := ChunksOf(list, |list|);
    ChunksNumbered(list, |list|);
    ChunksFlatten(list, |list|);
    StscShape(chunks, |chunks|);
    ChunksExpand(chunks, |chunks|);
    hide SttsOf, CttsOf, StszOf, ExpandChunks, FlatMarks, StscOf, ChunksOf;
    var t := Written(TablesOf(list, video));
    assert t.stsc.entrys == StscOf(chunks, |chunks|) && t.stco == OffsetsOf(chunks);
    forall k | 0 <= k < |list|
      ensures MarksUpTo(list, |list|)[k] == MarkAt(list, k)
    {
      MarksIndex(list, |list|, k);
    }
  }

  /** The demuxer's checks pass on the written tables. */
  lemma {:induction false} SizesAccepted(list: seq<SampleEntry>, fileSize: u64)
    requires list != [] && |list| < TWO_32 && SizesFit(list) && Held(list, fileSize)
    ensures var z := StszOf(list);
            && z.sampleCount == |list|
            && (z.sampleSize == 0 ==> |z.entrySizelist| == |list|)
            && (z.sampleSize != 0 ==> z.sampleCount <= fileSize / z.sampleSize)
  {
    assert list[0].size < TWO_32;
  }

  lemma {:induction false} SamplesWhenAccepted(t: Stbl, edits: seq<Edit>, timescale: u32, movieTimescale: u32, fileSize: u64)
    requires var z := t.stsz;
             && z.sampleCount > 0 && t.stsc.entryCount != 0 && t.stsc.entrys != []
             && (z.sampleSize == 0 ==> |z.entrySizelist| >= z.sampleCount)
             && (z.sampleSize != 0 ==> z.sampleCount <= fileSize / z.sampleSize)
    requires NoEmptyEdit(edits)
    ensures var r := SamplesOf(t, edits, timescale, movieTimescale, fileSize);
            r.Ok? && |r.value| == t.stsz.sampleCount && forall i :: 0 <= i < |r.value| ==> r.value[i] == SampleAt(t, 0, i)
  {
    StartsAtZero(edits, timescale, movieTimescale);
    hide StartOf, SampleAt;
  }

  lemma {:induction false} TablesReadBack(list: seq<SampleEntry>, video: bool, edits: seq<Edit>, timescale: u32, movieTimescale: u32, fileSize: u64)
    returns (built: seq<SampleEntry>, deltas: seq<u32>)
    requires list != [] && |list| < TWO_32 && SizesFit(list) && Held(list, fileSize) && NoEmptyEdit(edits)
    ensures SamplesOf(Written(TablesOf(list, video)), edits, timescale, movieTimescale, fileSize) == Ok(built)
    ensures ReadsBack(list, built, video, deltas)
  {
    hide ExpandStts, ExpandCtts, ExpandChunks, SttsOf, CttsOf, ChunksOf, StscOf, StszOf, PtsAt, DtsAt, OffsetAt, SizeAt,
      DeltaAt, MarkAt, SamplesOf, Held;
    var t := Written(TablesOf(list, video));
    assert t.stsz == StszOf(list) && t.stts == SttsOf(list, |list|);
    assert t.ctts == if video then Some(CttsOf(list, |list|)) else None;
    PositionsReadBack(list, video);
    hide TablesOf, Written;
    var marks := ExpandChunks(t.stsc.entrys, t.stco, |t.stco|);
    deltas := ExpandStts(t.stts);
    SttsExpands(list, |list|);
    SizesAccepted(list, fileSize);
    SamplesWhenAccepted(t, edits, timescale, movieTimescale, fileSize);
    built := SamplesOf(t, edits, timescale, movieTimescale, fileSize).value;
    forall i | 0 <= i < |list|
      ensures built[i].offset == list[i].offset && built[i].size == list[i].size
      ensures built[i].dts == DtsAt(0, deltas, i)
      ensures built[i].pts == PtsAt(built[i].dts, if video then Some(CttsOf(list, |list|)) else None, i)
    {
      OffsetComesBack(list, marks, i);
      SizeComesBack(list, i);
      assert built[i] == SampleAt(t, 0, i);
    }
  }

  /** Every sample is back: position and size, and both times counted from the first decode time. */
  ghost predicate Faithful(list: seq<SampleEntry>, built: seq<SampleEntry>) {
    && |built| == |list|
    && forall i :: 0 <= i < |list| ==>
         && built[i].offset == list[i].offset && built[i].size == list[i].size
         && built[i].dts == list[i].dts as int - list[0].dts as int
         && built[i].pts == Rebased(list[i], list[0].dts)
  }

  /** Sizes are kept in 32 bits, so no larger one comes back. */
  lemma {:induction false} BigSizesLost(list: seq<SampleEntry>, video: bool, edits: seq<Edit>, timescale: u32, movieTimescale: u32, fileSize: u64)
    requires list != [] && |list| < TWO_32 && !SizesFit(list)
    ensures var r := SamplesOf(Written(TablesOf(list, video)), edits, timescale, movieTimescale, fileSize);
            !(r.Ok? && Faithful(list, r.value))
  {
    hide SttsOf, CttsOf, ChunksOf, StscOf, StszOf, PtsAt, DtsAt, OffsetAt, StartOf, Rebased;
    var t := Written(TablesOf(list, video));
    var r := SamplesOf(t, edits, timescale, movieTimescale, fileSize);
    if r.Ok? {
      forall i | 0 <= i < |r.value|
        ensures r.value[i].size < TWO_32
      {
        assert r.value[i] == SampleAt(t, StartOf(edits, timescale, movieTimescale), i);
      }
    }
  }

  /**
   The round trip, and when it holds: for any list of samples the tables can
   count and the file can hold, the demuxer gives every sample back if and
   only if sizes fit in 32 bits, decode times never step back or by 2^32 or
   more, and one ctts box can express the composition offsets.
   */
  lemma {:induction false} RoundTripIff(list: seq<SampleEntry>, video: bool, edits: seq<Edit>, timescale: u32, movieTimescale: u32, fileSize: u64)
    requires list != [] && |list| < TWO_32 && Held(list, fileSize) && NoEmptyEdit(edits)
    ensures var r := SamplesOf(Written(TablesOf(list, video)), edits, timescale, movieTimescale, fileSize);
            r.Ok? && Faithful(list, r.value) <==> SizesFit(list) && GapsFit(list) && OffsetsFit(list, video)
  {
    if SizesFit(list) {
      var built, deltas := TablesReadBack(list, video, edits, timescale, movieTimescale, fileSize);
      hide TablesOf, SamplesOf;
      TimesIff(list, built, video, deltas);
    } else {
      BigSizesLost(list, video, edits, timescale, movieTimescale, fileSize);
    }
  }

  lemma {:induction false} TimesIff(list: seq<SampleEntry>, built: seq<SampleEntry>, video: bool, deltas: seq<u32>)
    requires list != [] && |list| < TWO_32 && ReadsBack(list, built, video, deltas)
    ensures Faithful(list, built) <==> GapsFit(list) && OffsetsFit(list, video)
  {
    hide PtsAt, DtsAt, CttsOf, DeltaAt, OffsetsFit, Rebased, IsDeltas;
    if GapsFit(list) {
      forall i | 0 <= i < |list|
        ensures built[i].dts == list[i].dts as int - list[0].dts as int && list[i].dts >= list[0].dts
      {
        DtsComesBack(list, deltas, i);
      }
      PtsIff(list, video);
    } else if Faithful(list, built) {
      DtsNeedsGaps(list, deltas);
    }
  }

  // ------------------------------------------------ duration conservation

  function EntrySpan(e: SttsEntry): nat {
    e.sampleCount as int * e.sampleDelta as int
  }

  function TotalStts(e: seq<SttsEntry>): nat {
    if e == [] then 0 else TotalStts(e[..|e| - 1]) + EntrySpan(e[|e| - 1])
  }

  lemma {:induction false} EntrySpanGrows(e: SttsEntry)
    requires e.sampleCount < TWO_32 - 1
    ensures EntrySpan(e.(sampleCount := e.sampleCount + 1)) == EntrySpan(e) + e.sampleDelta
    ensures EntrySpan(e.(sampleCount := 1)) == e.sampleDelta
  {
  }

  lemma {:induction false} TotalAddDelta(e: seq<SttsEntry>, delta: u64)
    requires forall k :: 0 <= k < |e| ==> e[k].sampleCount < TWO_32 - 1
    ensures TotalStts(AddDelta(e, delta)) == TotalStts(e) + Wrap32(delta)
  {
    hide EntrySpan;
    var n := |e|;
    var e' := AddDelta(e, delta);
    EntrySpanGrows(SttsEntry(1, Wrap32(delta)));
    if n > 0 && delta == e[n - 1].sampleDelta {
      assert e'[..n - 1] == e[..n - 1];
      EntrySpanGrows(e[n - 1]);
    } else {
      assert e'[..n] == e;
    }
  }

  lemma {:induction false} CountsBounded(list: seq<SampleEntry>, i: nat)
    requires i <= |list| < TWO_32
    ensures forall k :: 0 <= k < |SttsOf(list, i)| ==> SttsOf(list, i)[k].sampleCount <= Max(i, 1)
  {
    if i > 0 {
      CountsBounded(list, i - 1);
    }
  }

  lemma {:induction false} WrapSum(a: int, b: int)
    ensures Wrap32(a + b) == Wrap32(Wrap32(a) as int + b)
  {
  }

  /** By how much the table's step from sample `i` to the next exceeds the step of the duration field. */
  function Skew(list: seq<SampleEntry>, i: nat): int
    requires i + 1 < |list|
  {
    var d := list[i + 1].dts as int - list[i].dts as int;
    if d >= TWO_63 then d % TWO_32 - 1 else if d < -TWO_63 then 1 - (d + TWO_64) % TWO_32 else 0
  }

  function TotalSkew(list: seq<SampleEntry>, i: nat): int
    requires i == 0 || i < |list|
  {
    if i == 0 then 0 else TotalSkew(list, i - 1) + Skew(list, i - 1)
  }

  /** The step of the duration field. */
  function SpanGap(list: seq<SampleEntry>, i: nat): u32
    requires i + 1 < |list|
  {
    var d := Diff64(list[i + 1].dts, list[i].dts);
    if d < 0 then 1 else Wrap32(d)
  }

  /** addSampleEntry measures a step on signed times, makeStblTable on unsigned ones. */
  lemma {:induction false} GapsDiffer(list: seq<SampleEntry>, i: nat)
    requires i + 1 < |list|
    ensures Wrap32(Gap(list, i)) as int == SpanGap(list, i) as int + Skew(list, i)
  {
    var d := list[i + 1].dts as int - list[i].dts as int;
    DiffIs(list[i + 1].dts, list[i].dts);
    hide Diff64;
    if d >= TWO_63 {
      assert SpanGap(list, i) == 1;
    } else if d < -TWO_63 {
      assert Wrap32(Gap(list, i)) == 1;
    }
  }

  lemma {:induction false} DiffIs(a: u64, b: u64)
    ensures var d := a as int - b as int;
      Diff64(a, b) == if d >= TWO_63 then d - TWO_64 else if d < -TWO_63 then d + TWO_64 else d
  {
  }

  lemma {:induction false} SpanNext(list: seq<SampleEntry>, i: nat)
    requires 0 < i < |list|
    ensures SpanOf(list, i + 1) == Wrap32(SpanOf(list, i) as int + SpanGap(list, i - 1) as int)
  {
    hide Diff64, Wrap32;
    assert list[i - 1 + 1] == list[i];
  }

  lemma {:induction false} SpanStep(list: seq<SampleEntry>, i: nat)
    requires 0 < i < |list|
    ensures Wrap32(SpanOf(list, i + 1) as int + Skew(list, i - 1)) == Wrap32(SpanOf(list, i) as int + Wrap32(Gap(list, i - 1)) as int)
  {
    hide Diff64, Wrap32, SpanOf, SpanGap, Gap, Skew;
    SpanNext(list, i);
    GapsDiffer(list, i - 1);
    WrapSum(SpanOf(list, i) as int + SpanGap(list, i - 1) as int, Skew(list, i - 1));
  }

  lemma {:induction false} SpanSkewed(list: seq<SampleEntry>, i: nat)
    requires i < |list| < TWO_32
    ensures Wrap32(TotalStts(SttsOf(list, i))) == Wrap32(SpanOf(list, i + 1) as int + TotalSkew(list, i))
  {
    hide TotalStts, AddDelta, Skew;
    if i == 0 {
      assert SttsOf(list, 0) == [] && TotalStts([]) == 0 by { NoSpan(); }
    } else {
      SpanSkewed(list, i - 1);
      CountsBounded(list, i - 1);
      var e, g := SttsOf(list, i - 1), Gap(list, i - 1);
      TotalAddDelta(e, g);
      assert SttsOf(list, i) == AddDelta(e, g);
      assert TotalSkew(list, i) == TotalSkew(list, i - 1) + Skew(list, i - 1);
      SpanStep(list, i);
      hide SttsOf, SpanOf, Wrap32, Gap, TotalSkew;
      SkewAdds(TotalStts(e), Wrap32(g), SpanOf(list, i), SpanOf(list, i + 1), TotalSkew(list, i - 1), Skew(list, i - 1));
    }
  }

  lemma {:induction false} SkewAdds(total: int, gap: int, span: int, next: int, sum: int, skew: int)
    requires Wrap32(total) == Wrap32(span + sum) && Wrap32(next + skew) == Wrap32(span + gap)
    ensures Wrap32(total + gap) == Wrap32(next + (sum + skew))
  {
    hide Wrap32;
    WrapSum(total, gap);
    WrapSum(span + sum, gap);
    WrapSum(next + skew, sum);
    WrapSum(span + gap, sum);
    assert span + sum + gap == span + gap + sum && next + (sum + skew) == next + skew + sum;
  }

  lemma {:induction false} NoSpan()
    ensures TotalStts([]) == 0
  {
  }

  lemma {:induction false} TotalWithLast(list: seq<SampleEntry>)
    requires list != []
    ensures TotalStts(SttsOf(list, |list|)) == TotalStts(SttsOf(list, |list| - 1)) + LastDelta(list) as int
  {
    hide EntrySpan, LastDelta;
    var e, last := SttsOf(list, |list| - 1), SttsEntry(1, LastDelta(list));
    assert SttsOf(list, |list|) == e + [last];
    assert (e + [last])[..|e|] == e;
    EntrySpanGrows(last);
  }

  /** Two wrapped sums differ by nothing exactly when the difference wraps to nothing. */
  lemma {:induction false} WrapEqual(a: int, skew: int)
    ensures Wrap32(a + skew) == Wrap32(a) <==> Wrap32(skew) == 0
  {
  }

  /**
   Duration conservation, and when it holds: the stts entries add up to the
   media duration, modulo the 32 bits it is kept in, if and only if the steps
   of more than 63 bits in the decode times make up for each other.
   */
  lemma {:induction false} ConservedIff(list: seq<SampleEntry>)
    requires 0 < |list| < TWO_32
    ensures Wrap32(TotalStts(SttsOf(list, |list|))) == MediaDuration(list) <==> Wrap32(TotalSkew(list, |list| - 1)) == 0
  {
    hide TotalStts, SttsOf, LastDelta, SpanOf, TotalSkew, MediaDuration, Wrap32;
    var n := |list|;
    SpanSkewed(list, n - 1);
    TotalWithLast(list);
    DurationIs(list);
    LastAdds(TotalStts(SttsOf(list, n - 1)), SpanOf(list, n), TotalSkew(list, n - 1), LastDelta(list));
  }

  lemma {:induction false} DurationIs(list: seq<SampleEntry>)
    requires list != []
    ensures MediaDuration(list) == Wrap32(SpanOf(list, |list|) as int + LastDelta(list) as int)
  {
  }

  lemma {:induction false} LastAdds(total: int, span: int, skew: int, last: int)
    requires Wrap32(total) == Wrap32(span + skew)
    ensures Wrap32(total + last) == Wrap32(span + last) <==> Wrap32(skew) == 0
  {
    hide Wrap32;
    WrapSum(total, last);
    WrapSum(span + skew, last);
    assert span + skew + last == span + last + skew;
    WrapEqual(span + last, skew);
  }

  /** No decode time is 2^63 ticks or more after the one before it, or more than that before it. */
  predicate StepsSigned(list: seq<SampleEntry>) {
    forall i :: 0 <= i < |list| - 1 ==> -TWO_63 <= list[i + 1].dts as int - list[i].dts as int < TWO_63
  }

  lemma {:induction false} NoSkew(list: seq<SampleEntry>, i: nat)
    requires StepsSigned(list) && (i == 0 || i < |list|)
    ensures TotalSkew(list, i) == 0
  {
    if i > 0 {
      NoSkew(list, i - 1);
      assert -TWO_63 <= list[i - 1 + 1].dts as int - list[i - 1].dts as int < TWO_63;
    }
  }

  /** Without such steps durations are conserved, even with decode times going backwards. */
  lemma {:induction false} DurationConserved(list: seq<SampleEntry>)
    requires |list| < TWO_32 && StepsSigned(list)
    ensures Wrap32(TotalStts(SttsOf(list, |list|))) == MediaDuration(list)
    ensures TotalStts(SttsOf(list, |list|)) < TWO_32 ==> TotalStts(SttsOf(list, |list|)) == MediaDuration(list)
  {
    hide TotalStts, LastDelta, SpanOf, TotalSkew;
    if list != [] {
      ConservedIff(list);
      NoSkew(list, |list| - 1);
    } else {
      NoSpan();
    }
    WrapSmall(TotalStts(SttsOf(list, |list|)));
  }

  /** A step of 2^63 ticks is a step back for one side and a step forward for the other. */
  lemma {:induction false} WideStepLost()
    ensures exists list: seq<SampleEntry> ::
              |list| == 2 && TotalStts(SttsOf(list, |list|)) < TWO_32 && TotalStts(SttsOf(list, |list|)) != MediaDuration(list)
  {
    var list := [SampleEntry(0, 0, 0, 1), SampleEntry(0, TWO_63 + 2, 1, 1)];
    assert SttsOf(list, 1) == [SttsEntry(1, 2)] by { assert SttsOf(list, 0) == []; }
    var e := SttsOf(list, 2);
    assert e == [SttsEntry(1, 2), SttsEntry(1, 1)];
    assert e[..1] == [SttsEntry(1, 2)] && e[..1][..0] == [];
    assert TotalStts(e[..1]) == TotalStts(e[..1][..0]) + EntrySpan(SttsEntry(1, 2)) == 2;
    assert TotalStts(e) == TotalStts(e[..1]) + EntrySpan(SttsEntry(1, 1)) == 3;
    assert SpanOf(list, 1) == 0 && SpanOf(list, 2) == 1;
    assert |list| == 2;
  }

  /** So is a step back by more than that. */
  lemma {:induction false} WideStepBackLost()
    ensures exists list: seq<SampleEntry> ::
              |list| == 2 && list[1].dts < list[0].dts && Wrap32(TotalStts(SttsOf(list, |list|))) != MediaDuration(list)
  {
    var list := [SampleEntry(0, TWO_63 + 2, 0, 1), SampleEntry(0, 0, 1, 1)];
    assert Skew(list, 0) == 3 - TWO_32;
    assert TotalSkew(list, 1) == TotalSkew(list, 0) + Skew(list, 0);
    ConservedIff(list);
    hide TotalStts, SttsOf, MediaDuration;
    assert |list| == 2 && list[1].dts < list[0].dts;
  }

  lemma {:induction false} WrapSmall(v: int)
    ensures 0 <= v < TWO_32 ==> Wrap32(v) == v
  {
  }
}
