/** The segment index of a fragmented file (section 8.16.3 of ISO/IEC 14496-12) in the room reserved for it. */
module FmpIndex {
  import opened Arithmetic
  import opened Bytes
  import opened Wrappers

  const BOX_LEN := 8
  const FULL_BOX_LEN := 12
  const MAX_REFERENCED: int := 0x7FFF_FFFF

  datatype Fragment = Fragment(offset: u64, duration: u32)

  datatype Entry = Entry(size: nat, duration: u32)

  datatype Index = Index(entries: seq<Entry>, referenceCount: nat, firstOffset: int)

  function SidxSize(refs: int): int {
    FULL_BOX_LEN + 28 + 12 * refs
  }

  /** How many fragments one entry spans. */
  function GroupOf(n: nat, reserve: nat): nat
    requires reserve > 0
  {
    (n + reserve - 1) / reserve
  }

  function TotalDuration(fragments: seq<Fragment>): nat {
    if fragments == [] then 0 else TotalDuration(fragments[..|fragments| - 1]) + fragments[|fragments| - 1].duration
  }

  function Saturated(v: nat): u32 {
    if v > 0xFFFF_FFFF then 0xFFFF_FFFF else v
  }

  /** The end of the group that begins at fragment i. */
  function GroupEnd(n: nat, i: nat, group: nat): nat {
    if i + group > n then n else i + group
  }

  /** Where the group that ends before fragment j ends in the file. */
  function Boundary(fragments: seq<Fragment>, end: u64, j: nat): u64 {
    if j < |fragments| then fragments[j].offset else end
  }

  /** One entry spanning fragments i to j, unless its size makes no sense or does not fit 31 bits. */
  function EntryFor(fragments: seq<Fragment>, end: u64, i: nat, j: nat): Option<Entry>
    requires i < j <= |fragments|
  {
    var size := Boundary(fragments, end, j) - fragments[i].offset;
    if size < 0 || size > MAX_REFERENCED then None
    else Some(Entry(size, Saturated(TotalDuration(fragments[i..j]))))
  }

  /** The entries from fragment i on. */
  function EntriesFrom(fragments: seq<Fragment>, end: u64, i: nat, group: nat): Option<seq<Entry>>
    requires group > 0
    decreases |fragments| - i
  {
    if i >= |fragments| then Some([])
    else
      var j := GroupEnd(|fragments|, i, group);
      var one := EntryFor(fragments, end, i, j);
      if one.None? then None
      else
        var rest := EntriesFrom(fragments, end, j, group);
        if rest.None? then None else Some([one.value] + rest.value)
  }

  /** The index over all fragments, or nothing when there is nothing sensible to write. */
  function GlobalSidx(fragments: seq<Fragment>, end: u64, reserve: u32): Option<Index> {
    if fragments == [] || reserve == 0 then None
    else
      GroupPositive(|fragments|, reserve);
      var entries := EntriesFrom(fragments, end, 0, GroupOf(|fragments|, reserve));
      if entries.None? then None
      else Some(Index(entries.value, |entries.value| % 0x1_0000, SidxSize(reserve) - SidxSize(|entries.value|)))
  }

  // ---------------------------------------------------------------------------
  // How many entries
  // ---------------------------------------------------------------------------

  lemma {:induction false} Ceiling(n: nat, reserve: nat)
    requires reserve > 0
    ensures var g := GroupOf(n, reserve); Times(g, reserve) >= n && (n > 0 ==> g > 0)
  {
    var m := n + reserve - 1;
    var g := m / reserve;
    assert m == g * reserve + m % reserve;
  }

  lemma {:induction false} GroupPositive(n: nat, reserve: nat)
    requires n > 0 && reserve > 0
    ensures GroupOf(n, reserve) > 0
  {
    Ceiling(n, reserve);
  }

  /** All groups but the last are full. */
  lemma {:induction false} EntriesCount(fragments: seq<Fragment>, end: u64, i: nat, group: nat)
    requires group > 0 && i <= |fragments| && EntriesFrom(fragments, end, i, group).Some?
    ensures var k := |EntriesFrom(fragments, end, i, group).value|;
      Times(k - 1, group) < |fragments| - i <= Times(k, group) || (i == |fragments| && k == 0)
    decreases |fragments| - i
  {
    hide Times, EntryFor;
    TimesStep(0, group);
    if i < |fragments| {
      var j := GroupEnd(|fragments|, i, group);
      EntriesCount(fragments, end, j, group);
      var k := |EntriesFrom(fragments, end, j, group).value|;
      TimesStep(k, group);
      TimesStep(k - 1, group);
    }
  }

  /** There are never more entries than room was reserved for. */
  lemma {:induction false} EntriesFit(fragments: seq<Fragment>, end: u64, reserve: u32)
    requires GlobalSidx(fragments, end, reserve).Some?
    ensures 1 <= |GlobalSidx(fragments, end, reserve).value.entries| <= reserve
  {
    hide Times, EntriesFrom, GroupOf;
    var n, g := |fragments|, GroupOf(|fragments|, reserve);
    GroupPositive(n, reserve);
    Ceiling(n, reserve);
    EntriesCount(fragments, end, 0, g);
    var k := |EntriesFrom(fragments, end, 0, g).value|;
    TimesStep(reserve, g);
    if k > reserve {
      if k - 1 > reserve {
        TimesRises(reserve, k - 1, g);
      }
    }
    TimesStep(0, g);
  }

  // ---------------------------------------------------------------------------
  // What the entries refer to
  // ---------------------------------------------------------------------------

  function SumSizes(entries: seq<Entry>): nat {
    if entries == [] then 0 else entries[0].size + SumSizes(entries[1..])
  }

  /** The first fragment of entry k. */
  function FirstOf(n: nat, group: nat, k: nat): nat {
    if Times(k, group) < n && Times(k, group) >= 0 then Times(k, group) else n
  }

  /** Adding up referenced sizes leads from fragment i to the first fragment of every later entry. */
  lemma {:induction false} SizesLead(fragments: seq<Fragment>, end: u64, i: nat, group: nat, k: nat)
    requires group > 0 && i < |fragments| && EntriesFrom(fragments, end, i, group).Some?
    requires k <= |EntriesFrom(fragments, end, i, group).value|
    ensures var at := i + Times(k, group);
      fragments[i].offset + SumSizes(EntriesFrom(fragments, end, i, group).value[..k])
      == Boundary(fragments, end, if at < i then |fragments| else at)
    decreases |fragments| - i
  {
    hide Times;
    TimesStep(0, group);
    var entries := EntriesFrom(fragments, end, i, group).value;
    if k == 0 {
      assert entries[..0] == [];
    } else {
      var j := GroupEnd(|fragments|, i, group);
      TimesStep(k - 1, group);
      TimesNonNegative(k - 1, group);
      assert entries[..k][1..] == entries[1..][..k - 1];
      if j < |fragments| {
        SizesLead(fragments, end, j, group, k - 1);
      } else {
        assert k == 1;
        assert entries[1..][..0] == [];
      }
    }
  }

  /** Entry k begins where its first fragment does; together the entries reach from the first fragment to the end. */
  lemma {:induction false} EntriesPoint(fragments: seq<Fragment>, end: u64, reserve: u32, k: nat)
    requires GlobalSidx(fragments, end, reserve).Some? && k <= |GlobalSidx(fragments, end, reserve).value.entries|
    ensures var entries := GlobalSidx(fragments, end, reserve).value.entries;
      && fragments[0].offset + SumSizes(entries[..k])
         == Boundary(fragments, end, Times(k, GroupOf(|fragments|, reserve)))
      && fragments[0].offset + SumSizes(entries) == end
  {
    hide Times, EntriesFrom, GroupOf;
    var g := GroupOf(|fragments|, reserve);
    GroupPositive(|fragments|, reserve);
    var entries := EntriesFrom(fragments, end, 0, g).value;
    TimesNonNegative(k, g);
    SizesLead(fragments, end, 0, g, k);
    EntriesCount(fragments, end, 0, g);
    TimesNonNegative(|entries|, g);
    SizesLead(fragments, end, 0, g, |entries|);
    assert entries[..|entries|] == entries;
  }

  function SumDurations(entries: seq<Entry>): nat {
    if entries == [] then 0 else entries[0].duration + SumDurations(entries[1..])
  }

  lemma {:induction false} DurationsSplit(a: seq<Fragment>, b: seq<Fragment>)
    ensures TotalDuration(a + b) == TotalDuration(a) + TotalDuration(b)
  {
    if b == [] {
      assert a + b == a;
    } else {
      assert (a + b)[..|a + b| - 1] == a + b[..|b| - 1];
      DurationsSplit(a, b[..|b| - 1]);
    }
  }

  lemma {:induction false} DurationsFrom(fragments: seq<Fragment>, end: u64, i: nat, group: nat)
    requires group > 0 && i <= |fragments| && EntriesFrom(fragments, end, i, group).Some?
    ensures SumDurations(EntriesFrom(fragments, end, i, group).value) <= TotalDuration(fragments[i..])
    ensures TotalDuration(fragments[i..]) <= 0xFFFF_FFFF ==>
      SumDurations(EntriesFrom(fragments, end, i, group).value) == TotalDuration(fragments[i..])
    decreases |fragments| - i
  {
    if i < |fragments| {
      var j := GroupEnd(|fragments|, i, group);
      DurationsFrom(fragments, end, j, group);
      assert fragments[i..] == fragments[i..j] + fragments[j..];
      DurationsSplit(fragments[i..j], fragments[j..]);
    }
  }

  /** No duration is lost while the whole fits 32 bits; never is any made up. */
  lemma {:induction false} DurationsKept(fragments: seq<Fragment>, end: u64, reserve: u32)
    requires GlobalSidx(fragments, end, reserve).Some?
    ensures SumDurations(GlobalSidx(fragments, end, reserve).value.entries) <= TotalDuration(fragments)
    ensures TotalDuration(fragments) <= 0xFFFF_FFFF ==>
      SumDurations(GlobalSidx(fragments, end, reserve).value.entries) == TotalDuration(fragments)
  {
    GroupPositive(|fragments|, reserve);
    DurationsFrom(fragments, end, 0, GroupOf(|fragments|, reserve));
    assert fragments[0..] == fragments;
  }

  /** From the first fragment of the group at i to the next group is neither backwards nor more than 31 bits. */
  predicate Sensible(fragments: seq<Fragment>, end: u64, i: nat, group: nat)
    requires i < |fragments|
  {
    0 <= Boundary(fragments, end, GroupEnd(|fragments|, i, group)) - fragments[i].offset <= MAX_REFERENCED
  }

  /** The index is left out exactly when some group, counted off from the first fragment, runs backwards or past 31 bits. */
  lemma {:induction false} WrittenIff(fragments: seq<Fragment>, end: u64, reserve: u32)
    requires fragments != [] && reserve > 0
    ensures GroupOf(|fragments|, reserve) > 0
    ensures var group := GroupOf(|fragments|, reserve);
      GlobalSidx(fragments, end, reserve).Some?
      <==> forall i: nat | i < |fragments| && i % group == 0 :: Sensible(fragments, end, i, group)
  {
    hide Sensible, GroupOf;
    GroupPositive(|fragments|, reserve);
    SensibleIff(fragments, end, 0, GroupOf(|fragments|, reserve));
  }

  lemma {:induction false} SensibleIff(fragments: seq<Fragment>, end: u64, i: nat, group: nat)
    requires group > 0 && i % group == 0
    ensures EntriesFrom(fragments, end, i, group).Some?
      <==> forall j: nat | i <= j < |fragments| && j % group == 0 :: Sensible(fragments, end, j, group)
    decreases |fragments| - i
  {
    hide Sensible;
    if i < |fragments| {
      EntryIff(fragments, end, i, group);
      forall j: nat | i < j < |fragments| && j % group == 0
        ensures i + group <= j
      {
        NextMultiple(i, j, group);
      }
      if i + group < |fragments| {
        NextMultiple(i, i + group, group);
        SensibleIff(fragments, end, i + group, group);
      }
    }
  }

  lemma {:induction false} EntryIff(fragments: seq<Fragment>, end: u64, i: nat, group: nat)
    requires i < |fragments| && group > 0
    ensures var j := GroupEnd(|fragments|, i, group);
      && (EntryFor(fragments, end, i, j).Some? <==> Sensible(fragments, end, i, group))
      && (j == |fragments| ==> EntriesFrom(fragments, end, j, group).Some?)
  {
  }

  lemma {:induction false} NextMultiple(i: nat, j: nat, group: nat)
    requires group > 0 && i % group == 0 && i < j
    ensures j % group == 0 ==> i + group <= j
    ensures j == i + group ==> j % group == 0
  {
    hide Times;
    DivMod(i, group);
    TimesStep(i / group, group);
    if j < i + group {
      ModUnique(j, group, i / group, j - i);
    } else if j == i + group {
      ModUnique(j, group, i / group + 1, 0);
    }
  }

  // ---------------------------------------------------------------------------
  // The reserved room
  // ---------------------------------------------------------------------------

  /** The size of the free box behind the index, 0 for none. */
  function Filler(space: int, index: Index): int {
    space - SidxSize(|index.entries|)
  }

  /**
   * Index and filler take exactly the room reserved, a filler can always be a box, and
   * `firstOffset` leads from the end of the index to just behind the room.
   */
  lemma {:induction false} RoomFilled(fragments: seq<Fragment>, end: u64, reserve: u32)
    requires GlobalSidx(fragments, end, reserve).Some?
    ensures var index := GlobalSidx(fragments, end, reserve).value; var rest := Filler(SidxSize(reserve), index);
      && SidxSize(|index.entries|) + rest == SidxSize(reserve) && (rest == 0 || rest >= BOX_LEN)
      && index.firstOffset == rest
  {
    EntriesFit(fragments, end, reserve);
  }

  /** The room a caller may ask for is capped, as the count field has 16 bits. */
  const MAX_RESERVE: u32 := 0xFFFF

  function Reserve(asked: u32): u32 {
    if asked > MAX_RESERVE then MAX_RESERVE else asked
  }

  /** That cap is what makes the count exact: without it, exactly the indexes below 65536 entries would be. */
  lemma {:induction false} CountExact(fragments: seq<Fragment>, end: u64, reserve: u32, asked: u32)
    requires GlobalSidx(fragments, end, reserve).Some?
    ensures var index := GlobalSidx(fragments, end, reserve).value;
      && (index.referenceCount == |index.entries| <==> |index.entries| < 0x1_0000)
      && (reserve == Reserve(asked) ==> index.referenceCount == |index.entries|)
  {
    hide EntriesFrom;
    EntriesFit(fragments, end, reserve);
  }

  // ---------------------------------------------------------------------------
  // The loop
  // ---------------------------------------------------------------------------

  method MakeGlobalSidx(fragments: seq<Fragment>, end: u64, reserve: u32) returns (index: Option<Index>)
    ensures index == GlobalSidx(fragments, end, reserve)
  {
    hide GroupOf, TotalDuration;
    if |fragments| == 0 || reserve == 0 {
      return None;
    }
    GroupPositive(|fragments|, reserve);
    var group := GroupOf(|fragments|, reserve);
    var entries: seq<Entry> := [];
    ghost var all := EntriesFrom(fragments, end, 0, group);
    AfterNone(all);
    var i := 0;
    while i < |fragments|
      invariant 0 <= i <= |fragments| && all == After(entries, EntriesFrom(fragments, end, i, group))
    {
      EntriesStep(fragments, end, i, group, entries);
      var j := i + group;
      if j > |fragments| {
        j := |fragments|;
      }
      var next := end;
      if j < |fragments| {
        next := fragments[j].offset;
      }
      if next < fragments[i].offset {
        return None;
      }
      var size := next - fragments[i].offset;
      if size > MAX_REFERENCED {
        return None;
      }
      var duration := AddUp(fragments[i..j]);
      if duration > 0xFFFF_FFFF {
        duration := 0xFFFF_FFFF;
      }
      entries := entries + [Entry(size, duration)];
      i := j;
    }
    assert entries + [] == entries;
    return Some(Index(entries, |entries| % 0x1_0000, SidxSize(reserve) - SidxSize(|entries|)));
  }

  method AddUp(fragments: seq<Fragment>) returns (duration: nat)
    ensures duration == TotalDuration(fragments)
  {
    duration := 0;
    for k := 0 to |fragments|
      invariant duration == TotalDuration(fragments[..k])
    {
      assert fragments[..k + 1][..k] == fragments[..k];
      duration := duration + fragments[k].duration;
    }
    assert fragments[..|fragments|] == fragments;
  }

  function After(entries: seq<Entry>, rest: Option<seq<Entry>>): Option<seq<Entry>> {
    if rest.None? then None else Some(entries + rest.value)
  }

  lemma {:induction false} AfterNone(rest: Option<seq<Entry>>)
    ensures After([], rest) == rest
  {
    if rest.Some? {
      assert [] + rest.value == rest.value;
    }
  }

  lemma {:induction false} EntriesStep(fragments: seq<Fragment>, end: u64, i: nat, group: nat, entries: seq<Entry>)
    requires group > 0 && i < |fragments|
    ensures var j := GroupEnd(|fragments|, i, group); var one := EntryFor(fragments, end, i, j);
      After(entries, EntriesFrom(fragments, end, i, group)) ==
        if one.None? then None else After(entries + [one.value], EntriesFrom(fragments, end, j, group))
  {
    hide EntryFor;
    var j := GroupEnd(|fragments|, i, group);
    var one, rest := EntryFor(fragments, end, i, j), EntriesFrom(fragments, end, j, group);
    if one.Some? && rest.Some? {
      assert entries + ([one.value] + rest.value) == (entries + [one.value]) + rest.value;
    }
  }
}
