/** The muxer's track and the demuxer's table expansion, changing their lists in place. */
module Mp4Objects {
  import opened Bytes
  import opened Wrappers
  import opened Mp4Tables

  lemma {:induction false} SpanOfPrefix(list: seq<SampleEntry>, more: seq<SampleEntry>, i: nat)
    requires i <= |list|
    ensures SpanOf(list + more, i) == SpanOf(list, i)
  {
    if i > 1 {
      SpanOfPrefix(list, more, i - 1);
    }
  }

  class Mp4Track {
    const video: bool
    var samplelist: seq<SampleEntry>
    var duration: u32
    var stbltable: Option<Stbl>

    /** `duration` spans the samples held; it is stale while there are none. */
    ghost predicate Valid()
      reads this
    {
      samplelist != [] ==> duration == SpanOf(samplelist, |samplelist|)
    }

    constructor (video: bool)
      ensures Valid() && samplelist == [] && stbltable == None && this.video == video
    {
      this.video := video;
      samplelist, duration, stbltable := [], 0, None;
    }

    method AddSampleEntry(entry: SampleEntry)
      requires Valid()
      modifies this
      ensures Valid() && samplelist == old(samplelist) + [entry] && stbltable == old(stbltable)
    {
      SpanOfPrefix(samplelist, [entry], |samplelist|);
      if samplelist == [] {
        duration := 0;
      } else {
        var delta := Diff64(entry.dts, samplelist[|samplelist| - 1].dts);
        if delta < 0 {
          duration := Wrap32(duration as int + 1);
        } else {
          duration := Wrap32(duration as int + Wrap32(delta) as int);
        }
      }
      samplelist := samplelist + [entry];
    }

    method LastSampleDelta() returns (d: u32)
      ensures d == LastDelta(samplelist)
    {
      var n := |samplelist|;
      if n < 2 {
        return 1;
      }
      var delta := Diff64(samplelist[n - 1].dts, samplelist[n - 2].dts);
      if delta <= 0 {
        return 1;
      }
      return Wrap32(delta);
    }

    method GetMediaDuration() returns (d: u32)
      requires Valid()
      ensures d == if samplelist == [] then duration else MediaDuration(samplelist)
    {
      if samplelist == [] {
        return duration;
      }
      var last := LastSampleDelta();
      d := Wrap32(duration as int + last as int);
    }

    method ClearSamples()
      modifies this
      ensures Valid() && samplelist == [] && duration == old(duration) && stbltable == old(stbltable)
    {
      samplelist := [];
    }

    /** Replaces the tables by those of the samples held. */
    method MakeStblTable()
      modifies `stbltable
      ensures stbltable == Some(if samplelist == [] then EMPTY_STBL else TablesOf(samplelist, video))
    {
      if samplelist == [] {
        stbltable := Some(EMPTY_STBL);
        return;
      }
      var stts, ctts, chunks, sameSize := CompressTimes();
      var list := samplelist;
      var stsz := StszOf(list);
      if sameSize && list[0].size == 0 {
        sameSize := false;
      }
      if sameSize {
        stsz := Stsz(Wrap32(list[0].size), Wrap32(|list|), []);
      } else {
        stsz := Stsz(0, Wrap32(|list|), SizesOf(list));
      }
      var stsc := CompressChunks(chunks);
      stbltable := Some(Stbl(stts, if video then Some(ctts) else None, stsc, stsz, OffsetsOf(chunks)));
    }

    /** The single pass over the samples. */
    method CompressTimes() returns (stts: seq<SttsEntry>, ctts: Ctts, chunks: seq<MovChunk>, sameSize: bool)
      requires samplelist != []
      ensures stts == SttsOf(samplelist, |samplelist|) && ctts == CttsOf(samplelist, |samplelist|)
      ensures chunks == ChunksOf(samplelist, |samplelist|) && sameSize == SameSize(samplelist)
    {
      hide LastDelta, Offset, Gap, Wrap64;
      stts, ctts, chunks, sameSize := [], Ctts(0, []), [], true;
      var list := samplelist;
      var last := LastSampleDelta();
      for i := 0 to |list|
        invariant stts == SttsOf(list, i) && ctts == CttsOf(list, i) && chunks == ChunksOf(list, i)
        invariant sameSize == forall k :: 0 <= k < i && k < |list| - 1 ==> list[k].size == list[k + 1].size
      {
        stts := PutDelta(stts, list, i, last);
        var offset := Offset(list[i]);
        ctts := Ctts(if offset < 0 then 1 else ctts.version, AddOffset(ctts.entrys, Wrap32(offset)));
        if sameSize && i < |list| - 1 && list[i + 1].size != list[i].size {
          sameSize := false;
        }
        chunks := PutChunk(chunks, list, i);
      }
    }
  }

  method PutDelta(stts: seq<SttsEntry>, list: seq<SampleEntry>, i: nat, last: u32) returns (r: seq<SttsEntry>)
    requires i < |list| && stts == SttsOf(list, i) && last == LastDelta(list)
    ensures r == SttsOf(list, i + 1)
  {
    hide LastDelta;
    if i == |list| - 1 {
      return stts + [SttsEntry(1, last)];
    }
    var delta: u64 := 1;
    if list[i + 1].dts >= list[i].dts {
      delta := list[i + 1].dts - list[i].dts;
    }
    r := AddDelta(stts, delta);
  }

  method PutChunk(chunks: seq<MovChunk>, list: seq<SampleEntry>, i: nat) returns (r: seq<MovChunk>)
    requires i < |list| && chunks == ChunksOf(list, i)
    ensures r == ChunksOf(list, i + 1)
  {
    var n := |chunks|;
    if i > 0 && list[i].offset == Wrap64(list[i - 1].offset as int + list[i - 1].size as int) {
      var last := chunks[n - 1];
      r := chunks[n - 1 := last.(samplenum := Wrap32(last.samplenum as int + 1))];
    } else {
      r := chunks + [MovChunk(Wrap32(n), 1, list[i].offset)];
    }
  }

  /** One entry is allocated per chunk; `entryCount` of them are used. */
  method CompressChunks(chunks: seq<MovChunk>) returns (stsc: Stsc)
    ensures var e := StscOf(chunks, |chunks|);
            |e| <= |chunks| && stsc == Stsc(e + seq(|chunks| - |e|, i => NO_STSC), |e|)
  {
    StscFits(chunks, |chunks|);
    var entrys := new StscEntry[|chunks|](i => NO_STSC);
    var count := 0;
    for i := 0 to |chunks|
      invariant count == |StscOf(chunks, i)| && count <= i
      invariant entrys[..count] == StscOf(chunks, i)
      invariant forall k :: count <= k < |chunks| ==> entrys[k] == NO_STSC
    {
      if i == 0 || chunks[i].samplenum != chunks[i - 1].samplenum {
        entrys[count] := StscEntry(Wrap32(chunks[i].chunknum as int + 1), chunks[i].samplenum);
        count := count + 1;
      }
    }
    stsc := Stsc(entrys[..], count);
    assert entrys[..] == entrys[..count] + entrys[count..];
  }

  // -------------------------------------------------------------- demuxer

  const NO_SAMPLE := SampleEntry(0, 0, 0, 0)

  method MoveIterator(e: seq<StscEntry>, from: nat, num: int) returns (it: nat)
    requires from < |e|
    ensures it == Advance(e, from, num)
  {
    it := from;
    while it + 1 < |e| && e[it + 1].firstChunk <= num
      invariant it < |e| && Advance(e, it, num) == Advance(e, from, num)
    {
      it := it + 1;
    }
  }

  /** The samples per chunk of every chunk, found with an iterator that only moves forward. */
  method ChunkCounts(e: seq<StscEntry>, chunkCount: nat) returns (counts: seq<u32>)
    requires e != []
    ensures |counts| == chunkCount
    ensures forall k :: 0 <= k < chunkCount ==> counts[k] == e[IteratorAt(e, k)].samplesPerChunk
  {
    hide Advance;
    counts := [];
    var it := 0;
    for i := 0 to chunkCount
      invariant |counts| == i && it < |e|
      invariant it == if i == 0 then 0 else IteratorAt(e, i - 1)
      invariant forall k :: 0 <= k < i ==> counts[k] == e[IteratorAt(e, k)].samplesPerChunk
    {
      it := MoveIterator(e, it, i + 1);
      assert it == IteratorAt(e, i);
      counts := counts + [e[it].samplesPerChunk];
    }
  }

  method FillSizes(a: array<SampleEntry>, z: Stsz)
    requires z.sampleSize == 0 ==> a.Length <= |z.entrySizelist|
    modifies a
    ensures forall k :: 0 <= k < a.Length ==> a[k] == old(a[k]).(size := SizeAt(z, k))
  {
    for i := 0 to a.Length
      invariant forall k :: 0 <= k < i ==> a[k] == old(a[k]).(size := SizeAt(z, k))
      invariant forall k :: i <= k < a.Length ==> a[k] == old(a[k])
    {
      if z.sampleSize == 0 {
        a[i] := a[i].(size := z.entrySizelist[i]);
      } else {
        a[i] := a[i].(size := z.sampleSize);
      }
    }
  }

  lemma {:induction false} PrefixTrans<T>(p: seq<T>, q: seq<T>, r: seq<T>)
    requires p <= q && q <= r
    ensures p <= r
  {
  }

  lemma {:induction false} OneMoreChunk(e: seq<StscEntry>, stco: seq<u64>, i: nat)
    requires e != [] && i < |stco|
    ensures ExpandChunks(e, stco, i + 1) == ExpandChunks(e, stco, i) + Marks(e[IteratorAt(e, i)].samplesPerChunk, stco[i])
  {
    hide IteratorAt, Marks;
  }

  lemma {:induction false} ExpandChunksPrefix(e: seq<StscEntry>, stco: seq<u64>, i: nat, k: nat)
    requires e != [] && i <= k <= |stco|
    ensures ExpandChunks(e, stco, i) <= ExpandChunks(e, stco, k)
    decreases k - i
  {
    hide ExpandChunks, Marks, IteratorAt;
    if i < k {
      ExpandChunksPrefix(e, stco, i, k - 1);
      OneMoreChunk(e, stco, k - 1);
      PrefixTrans(ExpandChunks(e, stco, i), ExpandChunks(e, stco, k - 1), ExpandChunks(e, stco, k));
    }
  }

  lemma {:induction false} MarksLength(samplenum: u32, offset: u64)
    ensures |Marks(samplenum, offset)| == samplenum
  {
  }

  /** Where the marks of chunk `i` are within all marks. */
  lemma {:induction false} MarksOfChunk(e: seq<StscEntry>, stco: seq<u64>, i: nat)
    requires e != [] && i < |stco|
    ensures var p, m := |ExpandChunks(e, stco, i)|, ExpandChunks(e, stco, |stco|);
            var n := e[IteratorAt(e, i)].samplesPerChunk;
            && p + n <= |m| && m[p..p + n] == Marks(n, stco[i])
            && |ExpandChunks(e, stco, i + 1)| == p + n
  {
    hide ExpandChunks, IteratorAt, Marks;
    ExpandChunksPrefix(e, stco, i + 1, |stco|);
    OneMoreChunk(e, stco, i);
    MarksLength(e[IteratorAt(e, i)].samplesPerChunk, stco[i]);
    SliceOfPrefix(ExpandChunks(e, stco, i), Marks(e[IteratorAt(e, i)].samplesPerChunk, stco[i]), ExpandChunks(e, stco, |stco|));
  }

  lemma {:induction false} SliceOfPrefix<T>(p: seq<T>, x: seq<T>, m: seq<T>)
    requires p + x <= m
    ensures m[|p|..|p| + |x|] == x
  {
    assert m[..|p| + |x|] == p + x;
  }

  lemma {:induction false} OffsetStep(z: Stsz, marks: seq<Option<u64>>, i: nat)
    requires z.sampleSize == 0 ==> i < |z.entrySizelist|
    ensures i >= |marks| ==> OffsetAt(z, marks, i) == 0
    ensures i < |marks| && marks[i].Some? ==> OffsetAt(z, marks, i) == marks[i].value
    ensures 0 < i < |marks| && marks[i].None? ==>
              OffsetAt(z, marks, i) == Wrap64(OffsetAt(z, marks, i - 1) as int + SizeAt(z, i - 1) as int)
  {
  }

  /** The first `it` samples of `now` have their offsets, the others are as they were. */
  ghost predicate Placed(now: seq<SampleEntry>, was: seq<SampleEntry>, it: nat, z: Stsz, marks: seq<Option<u64>>) {
    && it <= |now| == |was| && (z.sampleSize == 0 ==> |was| <= |z.entrySizelist|)
    && (forall k :: 0 <= k < |was| ==> was[k].size == SizeAt(z, k))
    && (forall k :: 0 <= k < it ==> now[k] == was[k].(offset := OffsetAt(z, marks, k)))
    && (forall k :: it <= k < |was| ==> now[k] == was[k])
  }

  /** Places the samples of one chunk, the first of them at index `base`. */
  method PlaceChunk(a: array<SampleEntry>, count: u32, offset: u64, ghost base: nat, at: nat,
                    ghost z: Stsz, ghost marks: seq<Option<u64>>, ghost was: seq<SampleEntry>)
    returns (it: nat)
    requires at == Min(a.Length, base) && base + count <= |marks|
    requires marks[base..base + count] == Marks(count, offset)
    requires Placed(a[..], was, at, z, marks)
    modifies a
    ensures it == Min(a.Length, base + count)
    ensures Placed(a[..], was, it, z, marks)
  {
    hide OffsetAt, Wrap64, SizeAt;
    it := at;
    var j := 0;
    while j < count && it < a.Length
      invariant 0 <= j <= count && it == Min(a.Length, base + j)
      invariant Placed(a[..], was, it, z, marks)
    {
      OffsetStep(z, marks, it);
      assert marks[base + j] == marks[base..base + count][j];
      assert a[..][it] == was[it] && (it > 0 ==> a[..][it - 1] == was[it - 1].(offset := OffsetAt(z, marks, it - 1)));
      if j == 0 {
        a[it] := a[it].(offset := offset);
      } else {
        a[it] := a[it].(offset := Wrap64(a[it - 1].offset as int + a[it - 1].size as int));
      }
      it, j := it + 1, j + 1;
    }
  }

  method FillOffsets(a: array<SampleEntry>, z: Stsz, e: seq<StscEntry>, stco: seq<u64>)
    requires e != [] && (z.sampleSize == 0 ==> a.Length <= |z.entrySizelist|)
    requires forall k :: 0 <= k < a.Length ==> a[k].size == SizeAt(z, k) && a[k].offset == 0
    modifies a
    ensures var marks := ExpandChunks(e, stco, |stco|);
            forall k :: 0 <= k < a.Length ==> a[k] == old(a[k]).(offset := OffsetAt(z, marks, k))
  {
    hide OffsetAt, IteratorAt, SizeAt, Marks;
    var counts := ChunkCounts(e, |stco|);
    ghost var marks := ExpandChunks(e, stco, |stco|);
    ghost var was := a[..];
    var it := 0;
    assert |ExpandChunks(e, stco, 0)| == 0;
    hide ExpandChunks;
    for i := 0 to |stco|
      invariant it == Min(a.Length, |ExpandChunks(e, stco, i)|)
      invariant Placed(a[..], was, it, z, marks)
    {
      MarksOfChunk(e, stco, i);
      it := PlaceChunk(a, counts[i], stco[i], |ExpandChunks(e, stco, i)|, it, z, marks, was);
    }
    forall k | it <= k < a.Length
      ensures OffsetAt(z, marks, k) == 0
    {
      OffsetStep(z, marks, k);
    }
  }

  lemma {:induction false} ExpandSttsPrefix(e: seq<SttsEntry>, i: nat)
    requires i <= |e|
    ensures |ExpandStts(e[..i])| <= |ExpandStts(e)| && ExpandStts(e)[..|ExpandStts(e[..i])|] == ExpandStts(e[..i])
    decreases |e|
  {
    if i == |e| {
      assert e[..i] == e;
    } else {
      ExpandSttsPrefix(e[..|e| - 1], i);
      assert e[..|e| - 1][..i] == e[..i];
      var p, q, r := ExpandStts(e[..i]), ExpandStts(e[..|e| - 1]), ExpandStts(e);
      assert r[..|q|] == q;
      assert r[..|p|] == q[..|p|];
    }
  }

  lemma {:induction false} DeltaOfEntry(e: seq<SttsEntry>, i: nat, j: nat)
    requires i < |e|
    ensures |ExpandStts(e[..i + 1])| == |ExpandStts(e[..i])| + e[i].sampleCount
    ensures var p := |ExpandStts(e[..i])|;
            j < e[i].sampleCount ==> p + j < |ExpandStts(e)| && ExpandStts(e)[p + j] == e[i].sampleDelta
  {
    ExpandSttsPrefix(e, i + 1);
    assert e[..i + 1][..i] == e[..i];
    var p, q := ExpandStts(e[..i]), ExpandStts(e[..i + 1]);
    if j < e[i].sampleCount {
      assert q[|p| + j] == e[i].sampleDelta;
      assert ExpandStts(e)[|p| + j] == ExpandStts(e)[..|q|][|p| + j];
    }
  }

  lemma {:induction false} DtsSucc(start: u64, deltas: seq<u32>, i: nat)
    ensures i == 0 ==> DtsAt(start, deltas, i) == start
    ensures i > |deltas| ==> DtsAt(start, deltas, i) == 0
    ensures 0 < i <= |deltas| ==> DtsAt(start, deltas, i) == Wrap64(deltas[i - 1] as int + DtsAt(start, deltas, i - 1) as int)
  {
  }

  /** The first `it` samples have their decode times, the others are as they were. */
  ghost predicate Timed(now: seq<SampleEntry>, was: seq<SampleEntry>, it: nat, start: u64, deltas: seq<u32>) {
    && |now| == |was| && it <= |now|
    && (forall k :: 0 <= k < it ==> now[k] == was[k].(dts := DtsAt(start, deltas, k)))
    && forall k :: it <= k < |now| ==> now[k] == was[k]
  }

  /** Times the samples of one entry, the first delta of which has index `base`. */
  method PlaceDeltas(a: array<SampleEntry>, e: SttsEntry, at: nat, ghost base: nat,
                     ghost start: u64, ghost deltas: seq<u32>, ghost was: seq<SampleEntry>)
    returns (it: nat)
    requires a.Length > 0 && at == Min(a.Length, 1 + base) && base + e.sampleCount <= |deltas|
    requires forall k :: base <= k < base + e.sampleCount ==> deltas[k] == e.sampleDelta
    requires Timed(a[..], was, at, start, deltas)
    modifies a
    ensures it == Min(a.Length, 1 + base + e.sampleCount)
    ensures Timed(a[..], was, it, start, deltas)
  {
    hide DtsAt, Wrap64;
    it := at;
    var j := 0;
    while j < e.sampleCount && it < a.Length
      invariant 0 <= j <= e.sampleCount && it == Min(a.Length, 1 + base + j)
      invariant Timed(a[..], was, it, start, deltas)
    {
      assert deltas[it - 1] == e.sampleDelta;
      DtsSucc(start, deltas, it);
      a[it] := a[it].(dts := Wrap64(e.sampleDelta as int + a[it - 1].dts as int));
      it, j := it + 1, j + 1;
    }
  }

  method FillDts(a: array<SampleEntry>, start: u64, stts: seq<SttsEntry>)
    requires a.Length > 0 && forall k :: 0 <= k < a.Length ==> a[k].dts == 0
    modifies a
    ensures forall k :: 0 <= k < a.Length ==> a[k] == old(a[k]).(dts := DtsAt(start, ExpandStts(stts), k))
  {
    hide DtsAt, Wrap64;
    ghost var deltas := ExpandStts(stts);
    ghost var was := a[..];
    assert |ExpandStts(stts[..0])| == 0;
    hide ExpandStts;
    DtsSucc(start, deltas, 0);
    a[0] := a[0].(dts := start);
    var it := 1;
    for i := 0 to |stts|
      invariant it == Min(a.Length, 1 + |ExpandStts(stts[..i])|)
      invariant Timed(a[..], was, it, start, deltas)
    {
      ghost var base := |ExpandStts(stts[..i])|;
      forall k | base <= k < base + stts[i].sampleCount
        ensures k < |deltas| && deltas[k] == stts[i].sampleDelta
      {
        DeltaOfEntry(stts, i, k - base);
      }
      DeltaOfEntry(stts, i, 0);
      ExpandSttsPrefix(stts, i + 1);
      it := PlaceDeltas(a, stts[i], it, base, start, deltas, was);
    }
    assert stts[..|stts|] == stts;
    forall k | it <= k < a.Length
      ensures DtsAt(start, deltas, k) == 0
    {
      DtsSucc(start, deltas, k);
    }
  }

  lemma {:induction false} ExpandCttsPrefix(v: byte, e: seq<CttsEntry>, i: nat)
    requires i <= |e|
    ensures |ExpandCtts(v, e[..i])| <= |ExpandCtts(v, e)| && ExpandCtts(v, e)[..|ExpandCtts(v, e[..i])|] == ExpandCtts(v, e[..i])
    decreases |e|
  {
    if i == |e| {
      assert e[..i] == e;
    } else {
      ExpandCttsPrefix(v, e[..|e| - 1], i);
      assert e[..|e| - 1][..i] == e[..i];
      var p, q, r := ExpandCtts(v, e[..i]), ExpandCtts(v, e[..|e| - 1]), ExpandCtts(v, e);
      assert r[..|q|] == q;
      assert r[..|p|] == q[..|p|];
    }
  }

  lemma {:induction false} OffsetOfEntry(v: byte, e: seq<CttsEntry>, i: nat, j: nat)
    requires i < |e|
    ensures |ExpandCtts(v, e[..i + 1])| == |ExpandCtts(v, e[..i])| + e[i].sampleCount
    ensures var p := |ExpandCtts(v, e[..i])|;
            j < e[i].sampleCount ==> p + j < |ExpandCtts(v, e)| && ExpandCtts(v, e)[p + j] == EntryOffset(v, e[i].sampleOffset)
  {
    ExpandCttsPrefix(v, e, i + 1);
    assert e[..i + 1][..i] == e[..i];
    var p, q := ExpandCtts(v, e[..i]), ExpandCtts(v, e[..i + 1]);
    if j < e[i].sampleCount {
      assert q[|p| + j] == EntryOffset(v, e[i].sampleOffset);
      assert ExpandCtts(v, e)[|p| + j] == ExpandCtts(v, e)[..|q|][|p| + j];
    }
  }

  /** The first `it` samples have their presentation times, the others are as they were. */
  ghost predicate Shown(now: seq<SampleEntry>, was: seq<SampleEntry>, it: nat, ctts: Ctts) {
    && |now| == |was| && it <= |now|
    && (forall k :: 0 <= k < it ==> now[k] == was[k].(pts := PtsAt(was[k].dts, Some(ctts), k)))
    && forall k :: it <= k < |now| ==> now[k] == was[k]
  }

  /** Shifts the samples of entry i, the first of which has index `base`. */
  method PlaceShifts(a: array<SampleEntry>, ctts: Ctts, i: nat, at: nat, ghost base: nat, ghost was: seq<SampleEntry>)
    returns (it: nat)
    requires i < |ctts.entrys| && base == |ExpandCtts(ctts.version, ctts.entrys[..i])| && at == Min(a.Length, base)
    requires Shown(a[..], was, at, ctts)
    modifies a
    ensures it == Min(a.Length, base + ctts.entrys[i].sampleCount)
    ensures Shown(a[..], was, it, ctts)
  {
    hide ExpandCtts;
    it := at;
    var offset := EntryOffset(ctts.version, ctts.entrys[i].sampleOffset);
    var j := 0;
    while j < ctts.entrys[i].sampleCount && it < a.Length
      invariant 0 <= j <= ctts.entrys[i].sampleCount && it == Min(a.Length, base + j)
      invariant Shown(a[..], was, it, ctts)
    {
      OffsetOfEntry(ctts.version, ctts.entrys, i, j);
      a[it] := a[it].(pts := Wrap64(a[it].dts as int + offset));
      it, j := it + 1, j + 1;
    }
  }

  /** The samples the entries cover; gives the index of the first they do not. */
  method FillCovered(a: array<SampleEntry>, ctts: Ctts) returns (it: nat)
    requires ctts.entrys != []
    modifies a
    ensures it == Min(a.Length, |ExpandCtts(ctts.version, ctts.entrys)|)
    ensures Shown(a[..], old(a[..]), it, ctts)
  {
    it := 0;
    ghost var was := a[..];
    assert |ExpandCtts(ctts.version, ctts.entrys[..0])| == 0;
    hide ExpandCtts, Shown;
    assert Shown(a[..], was, 0, ctts) by { NoneShown(was, ctts); }
    for i := 0 to |ctts.entrys|
      invariant it == Min(a.Length, |ExpandCtts(ctts.version, ctts.entrys[..i])|)
      invariant Shown(a[..], was, it, ctts)
    {
      OffsetOfEntry(ctts.version, ctts.entrys, i, 0);
      it := PlaceShifts(a, ctts, i, it, |ExpandCtts(ctts.version, ctts.entrys[..i])|, was);
    }
    assert ctts.entrys[..|ctts.entrys|] == ctts.entrys;
  }

  lemma {:induction false} NoneShown(was: seq<SampleEntry>, ctts: Ctts)
    ensures Shown(was, was, 0, ctts)
  {
  }

  method FillPts(a: array<SampleEntry>, ctts: Option<Ctts>)
    modifies a
    ensures forall k :: 0 <= k < a.Length ==> a[k] == old(a[k]).(pts := PtsAt(old(a[k]).dts, ctts, k))
  {
    hide ExpandCtts;
    var it := 0;
    if ctts.Some? && |ctts.value.entrys| > 0 {
      it := FillCovered(a, ctts.value);
    }
    while it < a.Length
      invariant it <= a.Length
      invariant ctts.Some? && ctts.value.entrys != [] && it < a.Length ==>
                  it >= |ExpandCtts(ctts.value.version, ctts.value.entrys)|
      invariant forall k :: 0 <= k < it ==> a[k] == old(a[k]).(pts := PtsAt(old(a[k]).dts, ctts, k))
      invariant forall k :: it <= k < a.Length ==> a[k] == old(a[k])
    {
      a[it] := a[it].(pts := a[it].dts);
      it := it + 1;
    }
  }

  /** The start of the decode times, from the empty edits of the edit list. */
  method StartTime(edits: seq<Edit>, timescale: u32, movieTimescale: u32) returns (r: Result<u64, DemuxError>)
    ensures r.Err? <==> movieTimescale == 0 && exists e :: e in edits && e.mediaTime == -1
    ensures r.Err? ==> r.error == NoMovieTimescale
    ensures r.Ok? ==> r.value == StartOf(edits, timescale, movieTimescale)
  {
    var start := 0;
    for i := 0 to |edits|
      invariant movieTimescale == 0 ==> forall k :: 0 <= k < i ==> edits[k].mediaTime != -1
      invariant forall e :: e in edits[..i] && e.mediaTime == -1 ==> movieTimescale != 0
      invariant start == StartOf(edits[..i], timescale, movieTimescale)
    {
      assert edits[..i + 1] == edits[..i] + [edits[i]];
      if edits[i].mediaTime == -1 {
        if movieTimescale == 0 {
          return Err(NoMovieTimescale);
        }
        start := Wrap64(edits[i].segmentDuration as int * timescale as int) / movieTimescale;
      }
    }
    assert edits[..|edits|] == edits;
    r := Ok(start);
  }

  /** The demuxer's buildSampleList for one track. */
  method BuildSampleList(t: Stbl, edits: seq<Edit>, timescale: u32, movieTimescale: u32, fileSize: u64)
    returns (r: Result<seq<SampleEntry>, DemuxError>)
    ensures r == SamplesOf(t, edits, timescale, movieTimescale, fileSize)
  {
    hide ExpandStts, ExpandCtts, ExpandChunks, StartOf, PtsAt, DtsAt, OffsetAt;
    var z := t.stsz;
    if z.sampleCount == 0 {
      return Ok([]);
    }
    if t.stsc.entryCount == 0 || t.stsc.entrys == [] {
      return Err(EmptyStsc);
    }
    if z.sampleSize == 0 && |z.entrySizelist| < z.sampleCount {
      return Err(ShortStsz);
    }
    if z.sampleSize != 0 && z.sampleCount > fileSize / z.sampleSize {
      return Err(MoreThanFileHolds);
    }
    var a := new SampleEntry[z.sampleCount](i => NO_SAMPLE);
    FillSizes(a, z);
    FillOffsets(a, z, t.stsc.entrys, t.stco);
    var start := StartTime(edits, timescale, movieTimescale);
    if start.Err? {
      return Err(start.error);
    }
    FillDts(a, start.value, t.stts);
    FillPts(a, t.ctts);
    ghost var spec := SamplesOf(t, edits, timescale, movieTimescale, fileSize);
    assert spec.Ok? && |spec.value| == a.Length;
    forall k | 0 <= k < a.Length
      ensures a[k] == spec.value[k]
    {
      assert spec.value[k] == SampleAt(t, start.value, k);
    }
    r := Ok(a[..]);
    assert a[..] == spec.value;
  }
}
