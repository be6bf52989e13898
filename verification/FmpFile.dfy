/** A fragmented file with room kept for its segment index, filled in place when the file is finished. */
module FmpFile {
  import opened Arithmetic
  import opened Bytes
  import opened Wrappers
  import opened FmpIndex

  // ---------------------------------------------------------------------------
  // Boxes
  // ---------------------------------------------------------------------------

  const FREE: bytes := ['f' as int, 'r' as int, 'e' as int, 'e' as int]
  const SIDX: bytes := ['s' as int, 'i' as int, 'd' as int, 'x' as int]

  function FreeBox(size: u32): (b: bytes)
    requires size >= BOX_LEN
    ensures |b| == size
  {
    PutU32(size) + FREE + seq(size - BOX_LEN, _ => 0)
  }

  /** Everything the index box holds besides its entries. */
  datatype Sidx = Sidx(id: u32, timescale: u32, earliest: u64, index: Index)

  predicate Writable(x: Sidx) {
    && x.index.referenceCount == |x.index.entries| < 0x1_0000
    && 0 <= x.index.firstOffset < TWO_64
    && forall i :: 0 <= i < |x.index.entries| ==> x.index.entries[i].size <= MAX_REFERENCED
  }

  /** A media reference that starts with a random access point of type 1. */
  function PutEntry(e: Entry): (b: bytes)
    requires e.size <= MAX_REFERENCED
    ensures |b| == 12
  {
    PutU32(e.size) + PutU32(e.duration) + [0x90, 0, 0, 0]
  }

  function PutEntries(entries: seq<Entry>): (b: bytes)
    requires forall i :: 0 <= i < |entries| ==> entries[i].size <= MAX_REFERENCED
    ensures |b| == 12 * |entries|
  {
    if entries == [] then [] else PutEntry(entries[0]) + PutEntries(entries[1..])
  }

  /** The part behind version and flags, up to the entries. */
  function PutFixed(x: Sidx): (b: bytes)
    requires Writable(x)
    ensures |b| == 28
  {
    PutU32(x.id) + (PutU32(x.timescale) + (PutU64(x.earliest) + (PutU64(x.index.firstOffset) + ([0, 0] + PutU16(x.index.referenceCount)))))
  }

  function EncodeSidx(x: Sidx): (b: bytes)
    requires Writable(x)
    ensures |b| == SidxSize(|x.index.entries|)
  {
    PutU32(SidxSize(|x.index.entries|)) + SIDX + ([1, 0, 0, 0] + (PutFixed(x) + PutEntries(x.index.entries)))
  }

  datatype Box = Box(kind: bytes, payload: bytes)

  datatype Error = Truncated | TooSmall

  /** The box at the head of a buffer, with a 32-bit size. */
  function NextBox(b: bytes): Result<(Box, bytes), Error> {
    if |b| < BOX_LEN then Err(Truncated)
    else
      var size := U32(b);
      if size < BOX_LEN then Err(TooSmall)
      else if size > |b| then Err(Truncated)
      else Ok((Box(b[4..8], b[8..size]), b[size..]))
  }

  datatype Ref = Ref(kind: byte, size: u32, duration: u32, startsWithSap: bool, sapType: byte, sapDelta: u32)

  datatype Segments = Segments(id: u32, timescale: u32, earliest: u64, firstOffset: u64, refs: seq<Ref>)

  function ReadRef(b: bytes): Ref
    requires |b| >= 12
  {
    var last := U32(b[8..]);
    Ref(b[0] / 0x80, U32(b) % 0x8000_0000, U32(b[4..]), b[8] / 0x80 == 1, b[8] / 0x10 % 8, last % 0x1000_0000)
  }

  function ReadRefs(b: bytes, n: nat): (r: seq<Ref>)
    requires |b| >= 12 * n
    ensures |r| == n
    decreases n
  {
    if n == 0 then [] else [ReadRef(b)] + ReadRefs(b[12..], n - 1)
  }

  /** The payload of an index box of either version. */
  function DecodeSidx(p: bytes): Result<Segments, Error> {
    if |p| < 4 then Err(Truncated)
    else
      var wide := p[0] != 0;
      var buf := p[4..];
      var fixed := 8 + 4 + if wide then 16 else 8;
      if |buf| < fixed then Err(Truncated)
      else
        var earliest: u64 := if wide then U64(buf[8..]) else U32(buf[8..]);
        var firstOffset: u64 := if wide then U64(buf[16..]) else U32(buf[12..]);
        var count := U16(buf[fixed - 2..]);
        if |buf| - fixed < count * 12 then Err(Truncated)
        else Ok(Segments(U32(buf), U32(buf[4..]), earliest, firstOffset, ReadRefs(buf[fixed..], count)))
  }

  /** What the demuxer knows of an entry the muxer wrote. */
  function RefOf(e: Entry): Ref
    requires e.size <= MAX_REFERENCED
  {
    Ref(0, e.size, e.duration, true, 1, 0)
  }

  function RefsOf(entries: seq<Entry>): (r: seq<Ref>)
    requires forall i :: 0 <= i < |entries| ==> entries[i].size <= MAX_REFERENCED
    ensures |r| == |entries|
  {
    seq(|entries|, i requires 0 <= i < |entries| => RefOf(entries[i]))
  }

  lemma {:induction false} BoxRoundTrip(kind: bytes, payload: bytes, rest: bytes)
    requires |kind| == 4 && |payload| + BOX_LEN < TWO_32
    ensures NextBox(PutU32(|payload| + BOX_LEN) + kind + payload + rest) == Ok((Box(kind, payload), rest))
  {
    hide PutU32, U32;
    var size := |payload| + BOX_LEN;
    var b := PutU32(size) + kind + payload + rest;
    assert b == PutU32(size) + (kind + payload + rest);
    U32RoundTrip(size, kind + payload + rest);
    assert b[4..8] == kind && b[8..size] == payload && b[size..] == rest;
  }

  lemma {:induction false} EntryReads(e: Entry, rest: bytes)
    requires e.size <= MAX_REFERENCED
    ensures ReadRef(PutEntry(e) + rest) == RefOf(e) && (PutEntry(e) + rest)[12..] == rest
  {
    var b := PutEntry(e) + rest;
    hide U32;
    assert b == PutU32(e.size) + (PutU32(e.duration) + ([0x90, 0, 0, 0] + rest));
    assert b[4..] == PutU32(e.duration) + ([0x90, 0, 0, 0] + rest);
    assert b[8..] == [0x90, 0, 0, 0] + rest;
    U32RoundTrip(e.size, PutU32(e.duration) + ([0x90, 0, 0, 0] + rest));
    U32RoundTrip(e.duration, [0x90, 0, 0, 0] + rest);
    assert U32(b[8..]) == 0x9000_0000 by {
      SapWord(b[8..]);
    }
    assert b[0] < 0x80;
  }

  lemma {:induction false} SapWord(b: bytes)
    requires |b| >= 4 && b[..4] == [0x90, 0, 0, 0]
    ensures U32(b) == 0x9000_0000
  {
    assert b[0] == b[..4][0] && b[1] == b[..4][1] && b[2] == b[..4][2] && b[3] == b[..4][3];
  }

  lemma {:induction false} EntriesRead(entries: seq<Entry>)
    requires forall i :: 0 <= i < |entries| ==> entries[i].size <= MAX_REFERENCED
    ensures ReadRefs(PutEntries(entries), |entries|) == RefsOf(entries)
  {
    hide PutEntry, ReadRef, RefOf;
    if entries != [] {
      EntryReads(entries[0], PutEntries(entries[1..]));
      EntriesRead(entries[1..]);
      assert RefsOf(entries) == [RefOf(entries[0])] + RefsOf(entries[1..]);
    }
  }

  lemma {:induction false} FixedReads(x: Sidx, rest: bytes)
    requires Writable(x)
    ensures var b := PutFixed(x) + rest;
      && U32(b) == x.id && U32(b[4..]) == x.timescale && U64(b[8..]) == x.earliest && U64(b[16..]) == x.index.firstOffset
      && U16(b[26..]) == x.index.referenceCount && b[28..] == rest
  {
    hide PutU32, U32, PutU64, U64;
    var b := PutFixed(x) + rest;
    var t5 := [0, 0] + PutU16(x.index.referenceCount) + rest;
    var t4 := PutU64(x.index.firstOffset) + t5;
    var t3 := PutU64(x.earliest) + t4;
    var t2 := PutU32(x.timescale) + t3;
    assert b == PutU32(x.id) + t2;
    assert b[4..] == t2 && b[8..] == t3 && b[16..] == t4 && b[24..] == t5 && b[26..] == PutU16(x.index.referenceCount) + rest && b[28..] == rest;
    U32RoundTrip(x.id, t2);
    U32RoundTrip(x.timescale, t3);
    U64RoundTrip(x.earliest, t4);
    U64RoundTrip(x.index.firstOffset, t5);
  }

  /** The index box is read as one box and its payload as what was written. */
  lemma {:induction false} SidxRoundTrip(x: Sidx, rest: bytes)
    requires Writable(x)
    ensures var r := NextBox(EncodeSidx(x) + rest);
      && r.Ok? && r.value.0.kind == SIDX && r.value.1 == rest
      && DecodeSidx(r.value.0.payload)
         == Ok(Segments(x.id, x.timescale, x.earliest, x.index.firstOffset, RefsOf(x.index.entries)))
  {
    hide PutFixed, PutEntries, PutU32, U32, U64, U16, NextBox, ReadRefs, RefsOf;
    var entries := PutEntries(x.index.entries);
    var p := [1, 0, 0, 0] + (PutFixed(x) + entries);
    BoxRoundTrip(SIDX, p, rest);
    assert EncodeSidx(x) + rest == PutU32(|p| + BOX_LEN) + SIDX + p + rest;
    assert p[4..] == PutFixed(x) + entries && p[0] == 1;
    FixedReads(x, entries);
    EntriesRead(x.index.entries);
  }

  lemma {:induction false} FreeReads(size: u32, rest: bytes)
    requires size >= BOX_LEN
    ensures var r := NextBox(FreeBox(size) + rest); r.Ok? && r.value.0.kind == FREE && r.value.1 == rest
  {
    hide PutU32, NextBox;
    BoxRoundTrip(FREE, seq(size - BOX_LEN, _ => 0), rest);
  }

  // ---------------------------------------------------------------------------
  // The file
  // ---------------------------------------------------------------------------

  /** The fragments recorded while they were written, one behind the other. */
  function Recorded(at: u64, pieces: seq<bytes>, durations: seq<u32>): (f: seq<Fragment>)
    requires |pieces| == |durations| && at + |Concat(pieces)| < TWO_64
    ensures |f| == |pieces|
    decreases |pieces|
  {
    if pieces == [] then []
    else [Fragment(at, durations[0])] + Recorded(at + |pieces[0]|, pieces[1..], durations[1..])
  }

  /** What goes into the room: the index, and a free box over what is left of it. */
  function Filled(x: Sidx, space: u32): (b: bytes)
    requires Writable(x) && (space == SidxSize(|x.index.entries|) || space >= SidxSize(|x.index.entries|) + BOX_LEN)
    ensures |b| == space
  {
    var rest := space - SidxSize(|x.index.entries|);
    EncodeSidx(x) + if rest > 0 then FreeBox(rest) else []
  }

  lemma {:induction false} RecordedAt(at: u64, pieces: seq<bytes>, durations: seq<u32>, j: nat)
    requires |pieces| == |durations| && at + |Concat(pieces)| < TWO_64 && j < |pieces|
    ensures Recorded(at, pieces, durations)[j].offset == at + |Concat(pieces[..j])|
    ensures Concat(pieces) == Concat(pieces[..j]) + Concat(pieces[j..])
    decreases |pieces|
  {
    if j == 0 {
      assert pieces[..0] == [] && pieces[0..] == pieces;
    } else {
      RecordedAt(at + |pieces[0]|, pieces[1..], durations[1..], j - 1);
      assert pieces[..j][0] == pieces[0] && pieces[..j][1..] == pieces[1..][..j - 1] && pieces[1..][j - 1..] == pieces[j..];
      assert pieces[0] + (Concat(pieces[1..][..j - 1]) + Concat(pieces[j..])) == (pieces[0] + Concat(pieces[1..][..j - 1])) + Concat(pieces[j..]);
    }
  }

  lemma {:induction false} EntrySizes(fragments: seq<Fragment>, end: u64, i: nat, group: nat)
    requires group > 0 && EntriesFrom(fragments, end, i, group).Some?
    ensures forall k :: 0 <= k < |EntriesFrom(fragments, end, i, group).value| ==> EntriesFrom(fragments, end, i, group).value[k].size <= MAX_REFERENCED
    decreases |fragments| - i
  {
    if i < |fragments| {
      EntrySizes(fragments, end, GroupEnd(|fragments|, i, group), group);
    }
  }

  /** An index can always be written, and fits the room that was kept for the entries asked for. */
  lemma {:induction false} IndexFits(fragments: seq<Fragment>, end: u64, reserve: u32, x: Sidx)
    requires 0 < reserve <= MAX_RESERVE && GlobalSidx(fragments, end, reserve) == Some(x.index)
    ensures Writable(x)
    ensures var space := SidxSize(reserve); var size := SidxSize(|x.index.entries|);
      (space == size || space >= size + BOX_LEN) && x.index.firstOffset == space - size
  {
    hide EntriesFrom, GroupOf;
    GroupPositive(|fragments|, reserve);
    EntrySizes(fragments, end, 0, GroupOf(|fragments|, reserve));
    EntriesFit(fragments, end, reserve);
    RoomFilled(fragments, end, reserve);
    CountExact(fragments, end, reserve, reserve);
  }

  /** What a reader finds where the room began: the index, and nothing but a free box before the fragments. */
  ghost predicate RoomReads(b: bytes, x: Sidx, fragments: bytes)
    requires Writable(x)
  {
    var index := NextBox(b);
    && index.Ok? && index.value.0.kind == SIDX
    && DecodeSidx(index.value.0.payload) == Ok(Segments(x.id, x.timescale, x.earliest, x.index.firstOffset, RefsOf(x.index.entries)))
    && |index.value.1| == x.index.firstOffset + |fragments|
    && if x.index.firstOffset == 0 then index.value.1 == fragments
       else
         var free := NextBox(index.value.1);
         free.Ok? && free.value.0.kind == FREE && free.value.1 == fragments
  }

  lemma {:induction false} FilledReads(x: Sidx, space: u32, fragments: bytes)
    requires Writable(x) && x.index.firstOffset == space - SidxSize(|x.index.entries|)
    requires space == SidxSize(|x.index.entries|) || space >= SidxSize(|x.index.entries|) + BOX_LEN
    ensures RoomReads(Filled(x, space) + fragments, x, fragments)
  {
    hide EncodeSidx, FreeBox, NextBox, DecodeSidx, RefsOf;
    var rest := space - SidxSize(|x.index.entries|);
    var free := if rest > 0 then FreeBox(rest) else [];
    assert Filled(x, space) + fragments == EncodeSidx(x) + (free + fragments);
    SidxRoundTrip(x, free + fragments);
    if rest > 0 {
      FreeReads(rest, fragments);
    } else {
      assert [] + fragments == fragments;
    }
  }

  /** The entries before k lead from the first fragment, where the room ends, to the first fragment of entry k. */
  lemma {:induction false} EntryLeads(start: u64, pieces: seq<bytes>, durations: seq<u32>, reserve: u32, index: Index, k: nat)
    requires |pieces| == |durations| && pieces != [] && 0 < reserve <= MAX_RESERVE && start + |Concat(pieces)| < TWO_64
    requires GlobalSidx(Recorded(start, pieces, durations), start + |Concat(pieces)|, reserve) == Some(index)
    requires k <= |index.entries|
    ensures var first := FirstOf(|pieces|, GroupOf(|pieces|, reserve), k); var at := SumSizes(index.entries[..k]);
      first <= |pieces| && at <= |Concat(pieces)| && Concat(pieces)[at..] == Concat(pieces[first..])
  {
    hide GroupOf, GlobalSidx, Times, SumSizes, Recorded;
    var fragments, end := Recorded(start, pieces, durations), start + |Concat(pieces)|;
    EntriesPoint(fragments, end, reserve, k);
    RecordedAt(start, pieces, durations, 0);
    assert pieces[..0] == [];
    var j := Times(k, GroupOf(|pieces|, reserve));
    TimesNonNegative(k, GroupOf(|pieces|, reserve));
    if j < |pieces| {
      RecordedAt(start, pieces, durations, j);
    } else {
      assert pieces[|pieces|..] == [];
    }
  }

  /**
   * Seeking through the index: once the room is filled, the file holds the index where the
   * room began, then nothing but a free box before the first fragment; and the end of the
   * index, the first offset and the sizes of the entries before k lead exactly to the first
   * fragment of entry k, with all the fragments from there on behind it.
   */
  lemma {:induction false} IndexFinds(head: bytes, pieces: seq<bytes>, durations: seq<u32>, reserve: u32, x: Sidx, k: nat)
    requires |pieces| == |durations| && pieces != [] && 0 < reserve <= MAX_RESERVE
    requires |head| + SidxSize(reserve) + |Concat(pieces)| < TWO_64
    requires var start := |head| + SidxSize(reserve);
      GlobalSidx(Recorded(start, pieces, durations), start + |Concat(pieces)|, reserve) == Some(x.index)
    requires k <= |x.index.entries|
    ensures Writable(x) && (SidxSize(reserve) == SidxSize(|x.index.entries|) || SidxSize(reserve) >= SidxSize(|x.index.entries|) + BOX_LEN)
    ensures Finds(head, head + Filled(x, SidxSize(reserve)) + Concat(pieces), pieces, x, FirstOf(|pieces|, GroupOf(|pieces|, reserve), k), k)
  {
    hide GroupOf, GlobalSidx, Recorded, Concat, Filled, NextBox, FirstOf, RoomReads, SumSizes, Writable, Finds;
    var start, space := |head| + SidxSize(reserve), SidxSize(reserve);
    IndexFits(Recorded(start, pieces, durations), start + |Concat(pieces)|, reserve, x);
    EntryLeads(start, pieces, durations, reserve, x.index, k);
    FilledReads(x, space, Concat(pieces));
    FindsFrom(head, Filled(x, space), pieces, x, FirstOf(|pieces|, GroupOf(|pieces|, reserve), k), k);
  }

  /** The file reads as the index, and the end of the index box, the first offset and k entry sizes lead to fragment `first`. */
  ghost predicate Finds(head: bytes, file: bytes, pieces: seq<bytes>, x: Sidx, first: nat, k: nat)
    requires Writable(x)
  {
    && |head| <= |file| && RoomReads(file[|head|..], x, Concat(pieces))
    && k <= |x.index.entries| && first <= |pieces|
    && var anchor := |file| - |NextBox(file[|head|..]).value.1|;
    && var at := anchor + x.index.firstOffset + SumSizes(x.index.entries[..k]);
       at <= |file| && file[at..] == Concat(pieces[first..])
  }

  lemma {:induction false} FindsFrom(head: bytes, room: bytes, pieces: seq<bytes>, x: Sidx, first: nat, k: nat)
    requires Writable(x) && RoomReads(room + Concat(pieces), x, Concat(pieces)) && k <= |x.index.entries| && first <= |pieces|
    requires var at := SumSizes(x.index.entries[..k]); at <= |Concat(pieces)| && Concat(pieces)[at..] == Concat(pieces[first..])
    ensures Finds(head, head + room + Concat(pieces), pieces, x, first, k)
  {
    hide Concat, SumSizes, DecodeSidx, RefsOf;
    var file, all := head + room + Concat(pieces), Concat(pieces);
    assert file[|head|..] == room + all;
    var rest := NextBox(room + all).value.1;
    hide NextBox;
    var at := SumSizes(x.index.entries[..k]);
    assert file[|head| + |room|..] == all;
    assert |file| - |rest| + x.index.firstOffset == |head| + |room|;
    assert file[|head| + |room| + at..] == all[at..];
  }

  // ---------------------------------------------------------------------------
  // Writing
  // ---------------------------------------------------------------------------

  /** The entries one behind the other, as many as the count says. */
  method PutSidx(x: Sidx) returns (b: bytes)
    requires Writable(x)
    ensures b == EncodeSidx(x)
  {
    hide PutU32, PutFixed, PutEntry;
    var entries := x.index.entries;
    ghost var all := PutEntries(entries);
    var out: bytes := [];
    assert entries[0..] == entries && out + all == all;
    for i := 0 to x.index.referenceCount
      invariant out + PutEntries(entries[i..]) == all
    {
      EntriesMore(entries[i..], out);
      assert entries[i..][1..] == entries[i + 1..];
      out := out + PutEntry(entries[i]);
    }
    assert entries[|entries|..] == [] && out + [] == out;
    b := PutU32(SidxSize(|entries|)) + SIDX + ([1, 0, 0, 0] + (PutFixed(x) + out));
  }

  lemma {:induction false} EntriesMore(entries: seq<Entry>, before: bytes)
    requires entries != [] && forall i :: 0 <= i < |entries| ==> entries[i].size <= MAX_REFERENCED
    ensures before + PutEntries(entries) == (before + PutEntry(entries[0])) + PutEntries(entries[1..])
  {
    hide PutEntry;
  }

  method Overwrite(file: array<byte>, at: nat, b: bytes)
    requires at + |b| <= file.Length
    modifies file
    ensures file[..] == old(file[..at]) + b + old(file[at + |b|..])
  {
    for i := 0 to |b|
      invariant file[..at] == old(file[..at]) && file[at..at + i] == b[..i]
      invariant file[at + i..] == old(file[at + i..])
    {
      file[at + i] := b[i];
    }
    assert b[..|b|] == b;
    assert file[..] == file[..at] + file[at..at + |b|] + file[at + |b|..];
  }

  /** Goes back and fills the room; a file without a sensible index keeps its free box. */
  method FinishFileHeader(file: array<byte>, at: nat, fragments: seq<Fragment>, reserve: u32, id: u32, timescale: u32, earliest: u64)
    returns (index: Option<Index>)
    requires 0 < reserve <= MAX_RESERVE && at + SidxSize(reserve) <= file.Length < TWO_64
    modifies file
    ensures index == GlobalSidx(fragments, file.Length, reserve)
    ensures index.None? ==> file[..] == old(file[..])
    ensures index.Some? ==>
      var x := Sidx(id, timescale, earliest, index.value); var space := SidxSize(reserve);
      && Writable(x) && (space == SidxSize(|index.value.entries|) || space >= SidxSize(|index.value.entries|) + BOX_LEN)
      && file[..] == old(file[..at]) + Filled(x, space) + old(file[at + space..])
  {
    hide EncodeSidx, FreeBox, GlobalSidx, Filled;
    index := MakeGlobalSidx(fragments, file.Length, reserve);
    if index.None? {
      return;
    }
    var x := Sidx(id, timescale, earliest, index.value);
    IndexFits(fragments, file.Length, reserve, x);
    FillRoom(file, at, x, SidxSize(reserve));
  }

  /** The index at the start of the room, and a free box behind it. */
  method FillRoom(file: array<byte>, at: nat, x: Sidx, space: u32)
    requires Writable(x) && (space == SidxSize(|x.index.entries|) || space >= SidxSize(|x.index.entries|) + BOX_LEN)
    requires at + space <= file.Length
    modifies file
    ensures file[..] == old(file[..at]) + Filled(x, space) + old(file[at + space..])
  {
    hide EncodeSidx, FreeBox, Filled, Writable;
    ghost var was := file[..];
    var sidx := PutSidx(x);
    Overwrite(file, at, sidx);
    var rest := space - |sidx|;
    FilledIs(x, space);
    if rest > 0 {
      var free := FreeBox(rest);
      Overwrite(file, at + |sidx|, free);
      TwoPatches(was, at, sidx, free);
    } else {
      assert sidx + [] == sidx;
    }
  }

  lemma {:induction false} FilledIs(x: Sidx, space: u32)
    requires Writable(x) && (space == SidxSize(|x.index.entries|) || space >= SidxSize(|x.index.entries|) + BOX_LEN)
    ensures var rest := space - SidxSize(|x.index.entries|);
      Filled(x, space) == EncodeSidx(x) + if rest > 0 then FreeBox(rest) else []
  {
  }

  lemma {:induction false} TwoPatches(was: bytes, at: nat, a: bytes, b: bytes)
    requires at + |a| + |b| <= |was|
    ensures var half := was[..at] + a + was[at + |a|..];
      half[..at + |a|] + b + half[at + |a| + |b|..] == was[..at] + (a + b) + was[at + |a| + |b|..]
  {
    var half := was[..at] + a + was[at + |a|..];
    assert half[..at + |a|] == was[..at] + a;
    assert half[at + |a| + |b|..] == was[at + |a| + |b|..];
  }
}
