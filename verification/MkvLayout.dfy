/** Blocks gathered into clusters, their times, and the cue points that find them again. */
module MkvLayout {
  import opened Bytes
  import opened Wrappers
  import opened Ebml

  const ID_CLUSTER: u32 := 0x1F43B675
  const ID_CLUSTER_TIME: u32 := 0xE7
  const ID_SIMPLE_BLOCK: u32 := 0xA3
  const ID_BLOCK_GROUP: u32 := 0xA0
  const ID_BLOCK: u32 := 0xA1
  const ID_REFERENCE: u32 := 0xFB
  const ID_PADDING: u32 := 0x75A2

  const MAX_CLUSTER_BYTES := 5 * 0x10_0000

  datatype Block = Block(track: u64, pts: u64, key: bool, video: bool, padding: i64, data: bytes)

  /** Whether the file has video tracks at all, and how long a cluster may last. */
  datatype Config = Config(hasVideo: bool, duration: u64)

  datatype Cue = Cue(time: u64, track: u64, position: nat)

  /**
   * `done` is everything written after the start of the segment's data, `cluster` the
   * payload of the open cluster, `start` where that cluster will stand.
   */
  datatype Mux = Mux(done: bytes, open: bool, ts: u64, start: nat, cluster: bytes, cues: seq<Cue>)

  /** The time of a block after its cluster's, as signed 64 bits. */
  function Relative(pts: u64, ts: u64): int {
    AsInt64(pts as int - ts as int)
  }

  predicate FitsInt16(v: int) {
    -0x8000 <= v < 0x8000
  }

  predicate NewCluster(c: Config, m: Mux, b: Block) {
    || !m.open || !FitsInt16(Relative(b.pts, m.ts))
    || b.pts as int >= (m.ts as int + c.duration as int) % TWO_64
    || |m.cluster| >= MAX_CLUSTER_BYTES
    || (b.video && b.key && |m.cluster| > 0)
  }

  predicate Cued(c: Config, b: Block) {
    b.key && (b.video || !c.hasVideo)
  }

  function HeadOf(b: Block, rel: int): bytes
    requires FitsInt16(rel)
  {
    AppendSize(b.track, SizeLen(b.track)) + PutU16(rel % 0x1_0000)
  }

  /** Sizes far below what an element can hold. */
  predicate Modest(b: Block) {
    |b.data| < 0x1_0000_0000_0000 && b.track < Limit(8)
  }

  lemma {:induction false} HeadSize(b: Block, rel: int)
    requires FitsInt16(rel)
    ensures |HeadOf(b, rel)| <= 10
  {
  }

  function InnerBlock(b: Block, rel: int): Child
    requires FitsInt16(rel)
  {
    Child(ID_BLOCK, HeadOf(b, rel) + [0] + b.data)
  }

  function PaddingChild(b: Block): Child {
    Child(ID_PADDING, IntPayload(b.padding))
  }

  lemma {:induction false} ElementSize(c: Child)
    requires |c.payload| < TWO_64
    ensures |c.payload| < |Element(c)| <= |c.payload| + 12
  {
  }

  lemma {:induction false} GroupSize(b: Block, rel: int)
    requires FitsInt16(rel) && Modest(b)
    ensures Encodable([InnerBlock(b, rel), PaddingChild(b)])
    ensures |Elements([InnerBlock(b, rel), PaddingChild(b)])| <= |b.data| + 43
  {
    hide Element, HeadOf;
    HeadSize(b, rel);
    var two := [InnerBlock(b, rel), PaddingChild(b)];
    ElementSize(two[0]);
    ElementSize(two[1]);
    assert two[1..] == [two[1]] && [two[1]][1..] == [];
    assert Elements(two) == Element(two[0]) + (Element(two[1]) + Elements([]));
  }

  /** A block with padding goes into a group, any other is a simple block. */
  function ChildOf(b: Block, rel: int): (c: Child)
    requires FitsInt16(rel) && Modest(b)
    ensures |c.payload| <= |b.data| + 43
  {
    HeadSize(b, rel);
    if b.padding != 0 then
      GroupSize(b, rel);
      Child(ID_BLOCK_GROUP, Elements([InnerBlock(b, rel), PaddingChild(b)]))
    else Child(ID_SIMPLE_BLOCK, HeadOf(b, rel) + [if b.key then 0x80 else 0] + b.data)
  }

  function TimeChild(ts: u64): (c: Child)
    ensures |c.payload| <= 8
  {
    Child(ID_CLUSTER_TIME, UintPayload(ts))
  }

  predicate ClusterFits(m: Mux) {
    |m.cluster| < TWO_64
  }

  /** Closes the open cluster, if any. */
  function Flushed(m: Mux): Mux
    requires ClusterFits(m)
  {
    if m.open then m.(done := m.done + Element(Child(ID_CLUSTER, m.cluster)), open := false) else m
  }

  function Opened(c: Config, m: Mux, b: Block): Mux
    requires ClusterFits(m)
  {
    var f := Flushed(m);
    Mux(f.done, true, b.pts, |f.done|, Element(TimeChild(b.pts)),
        f.cues + if Cued(c, b) then [Cue(b.pts, b.track, |f.done|)] else [])
  }

  function WriteBlock(c: Config, m: Mux, b: Block): Mux
    requires ClusterFits(m) && Modest(b)
  {
    var begins := NewCluster(c, m, b);
    var m' := if begins then Opened(c, m, b) else m;
    m'.(cluster := m'.cluster + Element(ChildOf(b, if begins then 0 else Relative(b.pts, m.ts))))
  }

  // ---------------------------------------------------------------------------
  // Reading clusters
  // ---------------------------------------------------------------------------

  /** A frame as the demuxer hands it on, its time in units of the timestamp scale. */
  datatype Frame = Frame(track: u64, time: int, key: bool, padding: int, data: bytes)

  function Int16(b: bytes): int
    requires |b| >= 2
  {
    if U16(b) >= 0x8000 then U16(b) - 0x1_0000 else U16(b)
  }

  /** The time handed on for a block at `v`, computed in signed 64 bits: none is below zero. */
  function TimeOf(v: int): nat {
    Max(AsInt64(v), 0)
  }

  /** One block without lacing. */
  function ParseBlock(b: bytes, ts: u64, simple: bool, groupKey: bool, padding: int): Result<Frame, Error> {
    var number := ReadVint(b);
    if number.Err? then Err(number.error)
    else
      var rest := b[number.value.size..];
      if |rest| < 3 then Err(Overrun)
      else
        Ok(Frame(number.value.value, TimeOf(AsInt64(ts) + Int16(rest)), if simple then rest[2] >= 0x80 else groupKey,
                 padding, rest[3..]))
  }

  datatype Group = Group(block: Option<bytes>, reference: bool, padding: int)

  function ReadGroup(children: seq<Child>, g: Group): Result<Group, Error>
    decreases |children|
  {
    if children == [] then Ok(g)
    else
      var c := children[0];
      if c.id == ID_BLOCK then ReadGroup(children[1..], g.(block := Some(c.payload)))
      else if c.id == ID_REFERENCE then ReadGroup(children[1..], g.(reference := true))
      else if c.id == ID_PADDING then
        var p := ReadInt(c.payload);
        if p.Err? then Err(p.error) else ReadGroup(children[1..], g.(padding := p.value))
      else ReadGroup(children[1..], g)
  }

  function FramesOf(c: Child, ts: u64): Result<seq<Frame>, Error> {
    if c.id == ID_SIMPLE_BLOCK then
      var f := ParseBlock(c.payload, ts, true, false, 0);
      if f.Err? then Err(f.error) else Ok([f.value])
    else if c.id == ID_BLOCK_GROUP then
      var (children, err) := EachChild(c.payload);
      if err.Some? then Err(err.value)
      else
        var g := ReadGroup(children, Group(None, false, 0));
        if g.Err? then Err(g.error)
        else if g.value.block.None? then Ok([])
        else
          var f := ParseBlock(g.value.block.value, ts, false, !g.value.reference, g.value.padding);
          if f.Err? then Err(f.error) else Ok([f.value])
    else Ok([])
  }

  /** The frames of a cluster's children, the cluster time changing as it is read. */
  function ReadCluster(children: seq<Child>, ts: u64): Result<seq<Frame>, Error>
    decreases |children|
  {
    if children == [] then Ok([])
    else if children[0].id == ID_CLUSTER_TIME then
      var t := ReadUint(children[0].payload);
      if t.Err? then Err(t.error) else ReadCluster(children[1..], t.value)
    else
      var f := FramesOf(children[0], ts);
      if f.Err? then f
      else
        var more := ReadCluster(children[1..], ts);
        if more.Err? then more else Ok(f.value + more.value)
  }

  function ReadClusters(clusters: seq<Child>): Result<seq<Frame>, Error>
    decreases |clusters|
  {
    if clusters == [] then Ok([])
    else
      var more := ReadClusters(clusters[1..]);
      if clusters[0].id != ID_CLUSTER then more
      else
        var (children, err) := EachChild(clusters[0].payload);
        if err.Some? then Err(err.value)
        else
          var f := ReadCluster(children, 0);
          if f.Err? then f else if more.Err? then more else Ok(f.value + more.value)
  }

  /** A block written is a frame read: in a group it always counts as a key frame. */
  function FrameFor(b: Block): Frame {
    Frame(b.track, TimeOf(b.pts), b.key || b.padding != 0, b.padding, b.data)
  }

  // ---------------------------------------------------------------------------
  // One block
  // ---------------------------------------------------------------------------

  lemma {:induction false} Ids()
    ensures ValidId(ID_CLUSTER) && ValidId(ID_CLUSTER_TIME) && ValidId(ID_SIMPLE_BLOCK)
    ensures ValidId(ID_BLOCK_GROUP) && ValidId(ID_BLOCK) && ValidId(ID_PADDING)
  {
    IdValid(ID_CLUSTER, 0x1F);
    IdValid(ID_CLUSTER_TIME, 0xE7);
    IdValid(ID_SIMPLE_BLOCK, 0xA3);
    IdValid(ID_BLOCK_GROUP, 0xA0);
    IdValid(ID_BLOCK, 0xA1);
    IdValid(ID_PADDING, 0x75);
  }

  lemma {:induction false} IdValid(id: u32, first: byte)
    requires AppendId(id)[0] == first && Marker(IdLen(id)) <= first < 2 * Marker(IdLen(id))
    ensures ValidId(id)
  {
    VintLenIs(first, IdLen(id));
  }

  lemma {:induction false} Int16RoundTrip(rel: int, rest: bytes)
    requires FitsInt16(rel)
    ensures Int16(PutU16(rel % 0x1_0000) + rest) == rel
  {
    var b := PutU16(rel % 0x1_0000) + rest;
    var u := rel % 0x1_0000;
    assert b[0] == u / 0x100 && b[1] == u % 0x100;
    assert U16(b) == u;
  }

  /** Cluster time and stored relative time make up the time of the block. */
  lemma {:induction false} TimesAddUp(pts: u64, ts: u64)
    ensures AsInt64(AsInt64(ts) + Relative(pts, ts)) == AsInt64(pts)
  {
    AsInt64Turns(ts);
    AsInt64Turns(pts as int - ts as int);
    hide AsInt64;
    SameTurn(pts, (AsInt64(ts) + Relative(pts, ts) - pts) / TWO_64);
  }

  lemma {:induction false} BlockParses(b: Block, rel: int, ts: u64, flags: byte, simple: bool, groupKey: bool, padding: int)
    requires FitsInt16(rel) && Modest(b) && AsInt64(AsInt64(ts) + rel) == AsInt64(b.pts)
    ensures ParseBlock(HeadOf(b, rel) + [flags] + b.data, ts, simple, groupKey, padding)
            == Ok(Frame(b.track, TimeOf(b.pts), if simple then flags >= 0x80 else groupKey, padding, b.data))
  {
    hide AppendSize, SizeLen, Limit, AsInt64, ReadVint;
    var n := SizeLen(b.track);
    TrackFits(b.track);
    var rest := PutU16(rel % 0x1_0000) + ([flags] + b.data);
    var all := HeadOf(b, rel) + [flags] + b.data;
    assert all == AppendSize(b.track, n) + rest;
    VintRoundTrip(b.track, n, rest);
    assert all[n..] == rest;
    Int16RoundTrip(rel, [flags] + b.data);
    assert rest[2] == flags && rest[3..] == b.data;
  }

  lemma {:induction false} TrackFits(track: u64)
    requires track < Limit(8)
    ensures track < Limit(SizeLen(track))
  {
    hide Limit;
    if track < Limit(8) - 1 {
      SizeLenShortest(track, 1);
    } else {
      SizeLenMost(1);
    }
  }

  lemma {:induction false} SizeLenMost(n: nat)
    requires 1 <= n <= 8
    ensures 0 <= Limit(8) - 1 < TWO_64 && SizeLenFrom(Limit(8) - 1, n) == 8
    decreases 8 - n
  {
    Limits();
    if n < 8 {
      LimitsRise(n);
      SizeLenMost(n + 1);
    }
  }

  lemma {:induction false} ChildParses(b: Block, rel: int, ts: u64)
    requires FitsInt16(rel) && Modest(b) && AsInt64(AsInt64(ts) + rel) == AsInt64(b.pts)
    ensures FramesOf(ChildOf(b, rel), ts) == Ok([FrameFor(b)])
  {
    hide AsInt64, ParseBlock, HeadOf, EachChild, ReadGroup;
    if b.padding == 0 {
      BlockParses(b, rel, ts, if b.key then 0x80 else 0, true, false, 0);
    } else {
      GroupParses(b, rel);
      BlockParses(b, rel, ts, 0, false, true, b.padding);
    }
  }

  lemma {:induction false} GroupParses(b: Block, rel: int)
    requires FitsInt16(rel) && Modest(b)
    ensures Encodable([InnerBlock(b, rel), PaddingChild(b)])
    ensures var children := [InnerBlock(b, rel), PaddingChild(b)];
      && EachChild(Elements(children)) == (children, None)
      && ReadGroup(children, Group(None, false, 0)) == Ok(Group(Some(InnerBlock(b, rel).payload), false, b.padding))
  {
    hide EachChild, HeadOf, IntPayload, ReadInt, ValidId, Elements;
    var children := [InnerBlock(b, rel), PaddingChild(b)];
    HeadSize(b, rel);
    GroupSize(b, rel);
    Ids();
    Limits();
    PaddingSize(b);
    ChildrenRoundTrip(children);
    IntRoundTrip(b.padding);
    assert children[1..] == [children[1]] && [children[1]][1..] == [];
    var g := Group(Some(children[0].payload), false, 0);
    assert ReadGroup([children[1]], g) == ReadGroup([], g.(padding := b.padding)) == Ok(g.(padding := b.padding));
  }

  lemma {:induction false} PaddingSize(b: Block)
    ensures |PaddingChild(b).payload| <= 8
  {
  }

  // ---------------------------------------------------------------------------
  // Whole runs
  // ---------------------------------------------------------------------------

  /** The clusters a run has produced, as elements: those closed, the blocks of the open one, and the cluster of each cue. */
  datatype Shape = Shape(closed: seq<Child>, current: seq<Child>, cueAt: seq<nat>)

  predicate BlockChild(c: Child) {
    (c.id == ID_SIMPLE_BLOCK || c.id == ID_BLOCK_GROUP) && |c.payload| < 0x2_0000_0000_0000
  }

  predicate ClusterChild(c: Child) {
    c.id == ID_CLUSTER && |c.payload| < 0x8_0000_0000_0000
  }

  predicate AllBlocks(children: seq<Child>) {
    forall i :: 0 <= i < |children| ==> BlockChild(children[i])
  }

  predicate AllClusters(children: seq<Child>) {
    forall i :: 0 <= i < |children| ==> ClusterChild(children[i])
  }

  lemma {:induction false} ElementsMore(children: seq<Child>, c: Child)
    requires Encodable(children) && |c.payload| < TWO_64
    ensures Encodable(children + [c]) && Elements(children + [c]) == Elements(children) + Element(c)
  {
    hide Element;
    if children == [] {
      assert [] + [c] == [c] && [c][1..] == [];
      assert Element(c) + Elements([]) == Element(c);
    } else {
      assert (children + [c])[1..] == children[1..] + [c];
      ElementsMore(children[1..], c);
      assert Element(children[0]) + (Elements(children[1..]) + Element(c)) == Elements(children) + Element(c);
    }
  }

  lemma {:induction false} ReadClusterMore(children: seq<Child>, c: Child, ts: u64)
    requires AllBlocks(children) && BlockChild(c) && ReadCluster(children, ts).Ok? && FramesOf(c, ts).Ok?
    ensures ReadCluster(children + [c], ts) == Ok(ReadCluster(children, ts).value + FramesOf(c, ts).value)
    decreases |children|
  {
    hide FramesOf;
    if children == [] {
      assert [] + [c] == [c] && [c][1..] == [];
      var f := FramesOf(c, ts).value;
      assert f + [] == [] + f;
    } else {
      assert (children + [c])[0] == children[0] && (children + [c])[1..] == children[1..] + [c];
      ReadClusterMore(children[1..], c, ts);
      var f, more := FramesOf(children[0], ts).value, ReadCluster(children[1..], ts).value;
      assert f + (more + FramesOf(c, ts).value) == (f + more) + FramesOf(c, ts).value;
    }
  }

  lemma {:induction false} ReadClustersMore(clusters: seq<Child>, c: Child)
    requires AllClusters(clusters) && ReadClusters(clusters).Ok? && c.id == ID_CLUSTER && ReadClusters([c]).Ok?
    ensures ReadClusters(clusters + [c]) == Ok(ReadClusters(clusters).value + ReadClusters([c]).value)
    decreases |clusters|
  {
    hide EachChild, ReadCluster;
    if clusters == [] {
      assert [] + [c] == [c];
      var f := ReadClusters([c]).value;
      assert [] + f == f;
    } else {
      assert ClusterChild(clusters[0]);
      assert (clusters + [c])[0] == clusters[0] && (clusters + [c])[1..] == clusters[1..] + [c];
      ReadClustersMore(clusters[1..], c);
      var f, more := ReadCluster(EachChild(clusters[0].payload).0, 0).value, ReadClusters(clusters[1..]).value;
      assert f + (more + ReadClusters([c]).value) == (f + more) + ReadClusters([c]).value;
    }
  }

  /** A cluster's payload: its time, then its blocks. */
  function ClusterPayload(ts: u64, blocks: seq<Child>): bytes
    requires Encodable(blocks)
  {
    Element(TimeChild(ts)) + Elements(blocks)
  }

  lemma {:induction false} ClusterReads(ts: u64, blocks: seq<Child>)
    requires AllBlocks(blocks) && ReadCluster(blocks, ts).Ok?
    ensures Encodable(blocks)
    ensures ReadClusters([Child(ID_CLUSTER, ClusterPayload(ts, blocks))]) == ReadCluster(blocks, ts)
  {
    hide EachChild, UintPayload, ReadUint, ValidId;
    var children := [TimeChild(ts)] + blocks;
    Ids();
    Limits();
    assert children[0] == TimeChild(ts) && children[1..] == blocks;
    forall i | 0 <= i < |children|
      ensures Sized(children[i]) && ValidId(children[i].id)
    {
      if i > 0 {
        assert BlockChild(blocks[i - 1]);
      }
    }
    ChildrenRoundTrip(children);
    UintRoundTrip(ts);
    var c := Child(ID_CLUSTER, ClusterPayload(ts, blocks));
    assert [c][1..] == [];
    var f := ReadCluster(blocks, ts).value;
    assert f + [] == f;
  }

  function FramesFor(blocks: seq<Block>): (f: seq<Frame>)
    ensures |f| == |blocks|
  {
    seq(|blocks|, i requires 0 <= i < |blocks| => FrameFor(blocks[i]))
  }

  /** Where cluster i stands, after what comes before the clusters. */
  function Offset(head: bytes, clusters: seq<Child>, i: nat): nat
    requires AllClusters(clusters) && i <= |clusters|
  {
    |head| + |Elements(clusters[..i])|
  }

  /** The clusters so far, the open one included. */
  function ClustersOf(m: Mux, s: Shape): seq<Child> {
    s.closed + if m.open then [Child(ID_CLUSTER, m.cluster)] else []
  }

  predicate BoundedMux(m: Mux) {
    |m.cluster| < MAX_CLUSTER_BYTES + 0x2_0000_0000_0000
  }

  /** What a run of blocks leaves behind. */
  ghost predicate Story(head: bytes, m: Mux, s: Shape, blocks: seq<Block>) {
    && AllClusters(s.closed) && AllBlocks(s.current) && BoundedMux(m)
    && m.done == head + Elements(s.closed)
    && (m.open ==> m.start == |m.done| && m.cluster == ClusterPayload(m.ts, s.current))
    && (!m.open ==> s.current == [])
    && ReadClusters(s.closed).Ok? && ReadCluster(s.current, m.ts).Ok?
    && ReadClusters(s.closed).value + ReadCluster(s.current, m.ts).value == FramesFor(blocks)
  }

  function ShapeStep(c: Config, m: Mux, s: Shape, b: Block): Shape
    requires ClusterFits(m) && Modest(b)
  {
    if NewCluster(c, m, b) then
      var closed := ClustersOf(m, s);
      Shape(closed, [ChildOf(b, 0)], s.cueAt + if Cued(c, b) then [|closed|] else [])
    else s.(current := s.current + [ChildOf(b, Relative(b.pts, m.ts))])
  }

  lemma {:induction false} ChildIsBlock(b: Block, rel: int)
    requires FitsInt16(rel) && Modest(b)
    ensures BlockChild(ChildOf(b, rel)) && |Element(ChildOf(b, rel))| <= |b.data| + 55
  {
    ElementSize(ChildOf(b, rel));
  }

  /** Closing the open cluster puts its frames with those already written. */
  lemma {:induction false} FlushTells(head: bytes, m: Mux, s: Shape, blocks: seq<Block>)
    requires Story(head, m, s, blocks)
    ensures ClusterFits(m) && AllClusters(ClustersOf(m, s)) && Flushed(m).done == head + Elements(ClustersOf(m, s))
    ensures ReadClusters(ClustersOf(m, s)) == Ok(FramesFor(blocks))
  {
    hide ReadClusters, ReadCluster, Element, Elements, ClusterPayload;
    if m.open {
      var c := Child(ID_CLUSTER, m.cluster);
      ElementsMore(s.closed, c);
      ClusterReads(m.ts, s.current);
      ReadClustersMore(s.closed, c);
      assert head + (Elements(s.closed) + Element(c)) == (head + Elements(s.closed)) + Element(c);
    } else {
      assert s.closed + [] == s.closed;
      ReadNone(m.ts);
      var f := ReadClusters(s.closed).value;
      assert f + [] == f;
    }
  }

  lemma {:induction false} ReadNone(ts: u64)
    ensures ReadCluster([], ts) == Ok([])
  {
  }

  lemma {:induction false} FramesForMore(blocks: seq<Block>, b: Block)
    ensures FramesFor(blocks + [b]) == FramesFor(blocks) + [FrameFor(b)]
  {
  }

  lemma {:induction false} ReadOne(b: Block, rel: int, ts: u64)
    requires FitsInt16(rel) && Modest(b) && AsInt64(AsInt64(ts) + rel) == AsInt64(b.pts)
    ensures BlockChild(ChildOf(b, rel)) && ReadCluster([ChildOf(b, rel)], ts) == Ok([FrameFor(b)])
  {
    hide FramesOf, AsInt64;
    var c := ChildOf(b, rel);
    ChildParses(b, rel, ts);
    assert [c][1..] == [];
    assert [FrameFor(b)] + [] == [FrameFor(b)];
  }

  /** One more block, in the open cluster or a new one. */
  lemma {:induction false} BlockTells(c: Config, head: bytes, m: Mux, s: Shape, blocks: seq<Block>, b: Block)
    requires Story(head, m, s, blocks) && Modest(b)
    ensures ClusterFits(m) && Story(head, WriteBlock(c, m, b), ShapeStep(c, m, s, b), blocks + [b])
  {
    FramesForMore(blocks, b);
    if NewCluster(c, m, b) {
      NewClusterTells(c, head, m, s, blocks, b);
    } else {
      SameClusterTells(c, head, m, s, blocks, b);
    }
  }

  lemma {:induction false} NewClusterTells(c: Config, head: bytes, m: Mux, s: Shape, blocks: seq<Block>, b: Block)
    requires Story(head, m, s, blocks) && Modest(b) && NewCluster(c, m, b)
    ensures ClusterFits(m) && Story(head, WriteBlock(c, m, b), ShapeStep(c, m, s, b), blocks + [b])
  {
    hide ReadClusters, ReadCluster, Element, ChildOf, NewCluster, AsInt64;
    FlushTells(head, m, s, blocks);
    FramesForMore(blocks, b);
    assert AsInt64(AsInt64(b.pts) + 0) == AsInt64(b.pts) by { TimesAddUp(b.pts, b.pts); RelativeSelf(b.pts); }
    ReadOne(b, 0, b.pts);
    ChildIsBlock(b, 0);
    ElementSize(TimeChild(b.pts));
    OneElement(ChildOf(b, 0));
  }

  lemma {:induction false} RelativeSelf(ts: u64)
    ensures Relative(ts, ts) == 0
  {
  }

  lemma {:induction false} OneElement(c: Child)
    requires |c.payload| < TWO_64
    ensures Elements([c]) == Element(c)
  {
    assert [c][1..] == [];
    assert Element(c) + [] == Element(c);
  }

  lemma {:induction false} BlocksEncodable(blocks: seq<Child>, c: Child)
    requires AllBlocks(blocks) && BlockChild(c)
    ensures Encodable(blocks) && |c.payload| < TWO_64
  {
  }

  lemma {:induction false} StaysOpen(c: Config, m: Mux, b: Block)
    requires !NewCluster(c, m, b)
    ensures m.open && |m.cluster| < MAX_CLUSTER_BYTES && FitsInt16(Relative(b.pts, m.ts))
  {
  }

  lemma {:induction false} SameClusterTells(c: Config, head: bytes, m: Mux, s: Shape, blocks: seq<Block>, b: Block)
    requires Story(head, m, s, blocks) && Modest(b) && !NewCluster(c, m, b)
    ensures ClusterFits(m) && Story(head, WriteBlock(c, m, b), ShapeStep(c, m, s, b), blocks + [b])
  {
    hide ReadClusters, ReadCluster, Element, Elements, ChildOf, AsInt64, FramesOf, Relative, NewCluster, FitsInt16, BlockChild;
    var rel := Relative(b.pts, m.ts);
    StaysOpen(c, m, b);
    var child := ChildOf(b, rel);
    FramesForMore(blocks, b);
    TimesAddUp(b.pts, m.ts);
    ChildParses(b, rel, m.ts);
    ChildIsBlock(b, rel);
    ReadClusterMore(s.current, child, m.ts);
    BlocksEncodable(s.current, child);
    ElementsMore(s.current, child);
    var t, e := Element(TimeChild(m.ts)), Element(child);
    assert (t + Elements(s.current)) + e == t + (Elements(s.current) + e);
    var f, g := ReadClusters(s.closed).value, ReadCluster(s.current, m.ts).value;
    assert f + (g + [FrameFor(b)]) == (f + g) + [FrameFor(b)];
  }

  predicate AllModest(blocks: seq<Block>) {
    forall i :: 0 <= i < |blocks| ==> Modest(blocks[i])
  }

  function Start(head: bytes): Mux {
    Mux(head, false, 0, 0, [], [])
  }

  lemma {:induction false} KeepsBounded(c: Config, m: Mux, b: Block)
    requires BoundedMux(m) && Modest(b)
    ensures ClusterFits(m) && BoundedMux(WriteBlock(c, m, b))
  {
    hide Element, ChildOf, AsInt64;
    ElementSize(TimeChild(b.pts));
    if !NewCluster(c, m, b) {
      StaysOpen(c, m, b);
      ChildIsBlock(b, Relative(b.pts, m.ts));
    } else {
      ChildIsBlock(b, 0);
    }
  }

  /** A run of blocks from the first, with the shape of what it wrote. */
  function Run(c: Config, head: bytes, blocks: seq<Block>): (r: (Mux, Shape))
    requires AllModest(blocks)
    ensures BoundedMux(r.0)
    decreases |blocks|
  {
    if blocks == [] then (Start(head), Shape([], [], []))
    else
      var n := |blocks| - 1;
      var r := Run(c, head, blocks[..n]);
      KeepsBounded(c, r.0, blocks[n]);
      (WriteBlock(c, r.0, blocks[n]), ShapeStep(c, r.0, r.1, blocks[n]))
  }

  lemma {:induction false} RunTells(c: Config, head: bytes, blocks: seq<Block>)
    requires AllModest(blocks)
    ensures Story(head, Run(c, head, blocks).0, Run(c, head, blocks).1, blocks)
    decreases |blocks|
  {
    hide WriteBlock, ShapeStep, Story, Modest;
    if blocks == [] {
      StartTells(head);
    } else {
      var n := |blocks| - 1;
      RunTells(c, head, blocks[..n]);
      assert blocks == blocks[..n] + [blocks[n]];
      BlockTells(c, head, Run(c, head, blocks[..n]).0, Run(c, head, blocks[..n]).1, blocks[..n], blocks[n]);
    }
  }

  lemma {:induction false} StartTells(head: bytes)
    ensures Story(head, Start(head), Shape([], [], []), [])
  {
    assert head + [] == head;
  }

  /** What the file holds after the segment's start, once the last cluster is closed. */
  function FileOf(m: Mux): bytes
    requires BoundedMux(m)
  {
    Flushed(m).done
  }

  /** The file from a position on. */
  function From(file: bytes, at: nat): bytes {
    if at <= |file| then file[at..] else []
  }

  lemma {:induction false} ClustersWalk(clusters: seq<Child>)
    requires AllClusters(clusters)
    ensures Encodable(clusters) && EachChild(Elements(clusters)) == (clusters, None)
  {
    hide EachChild, ValidId;
    Ids();
    Limits();
    forall i | 0 <= i < |clusters|
      ensures Sized(clusters[i]) && ValidId(clusters[i].id)
    {
      assert ClusterChild(clusters[i]);
    }
    ChildrenRoundTrip(clusters);
  }

  /**
   * Any blocks, in any order of times: the file after its head is a run of clusters that
   * reads back to exactly those blocks, in order, each at its own time (below 2^63).
   */
  lemma {:induction false} FileRoundTrip(c: Config, head: bytes, blocks: seq<Block>)
    requires AllModest(blocks)
    ensures var file := FileOf(Run(c, head, blocks).0); var clusters := EachChild(From(file, |head|));
      && file == head + From(file, |head|) && clusters.1 == None
      && ReadClusters(clusters.0) == Ok(FramesFor(blocks))
  {
    hide Run, Story, EachChild, ReadClusters, FramesFor;
    var r := Run(c, head, blocks);
    RunTells(c, head, blocks);
    FlushTells(head, r.0, r.1, blocks);
    var all := ClustersOf(r.0, r.1);
    ClustersWalk(all);
    assert From(FileOf(r.0), |head|) == Elements(all);
  }

  /** Every time is the one written exactly when all of them fit 63 bits; the others come back as 0. */
  lemma {:induction false} TimesKeptIff(blocks: seq<Block>)
    ensures (forall i :: 0 <= i < |blocks| ==> FramesFor(blocks)[i].time == blocks[i].pts)
      <==> (forall i :: 0 <= i < |blocks| ==> blocks[i].pts < TWO_64 / 2)
    ensures forall i :: 0 <= i < |blocks| && blocks[i].pts >= TWO_64 / 2 ==> FramesFor(blocks)[i].time == 0
  {
    forall i | 0 <= i < |blocks|
      ensures FramesFor(blocks)[i].time == if blocks[i].pts < TWO_64 / 2 then blocks[i].pts else 0
    {
    }
  }

  // ---------------------------------------------------------------------------
  // Cues
  // ---------------------------------------------------------------------------

  /** The cluster begins with the frame a cue is for. */
  ghost predicate BeginsWith(cluster: Child, cue: Cue) {
    var f := ReadClusters([cluster]);
    && f.Ok? && f.value != []
    && f.value[0].track == cue.track && f.value[0].time == TimeOf(cue.time) && f.value[0].key
  }

  ghost predicate CueTold(head: bytes, m: Mux, s: Shape, cue: Cue, i: nat)
    requires AllClusters(s.closed)
  {
    && i < |ClustersOf(m, s)|
    && cue.position == Offset(head, s.closed, i) && BeginsWith(ClustersOf(m, s)[i], cue)
  }

  ghost predicate CuesTold(head: bytes, m: Mux, s: Shape)
    requires AllClusters(s.closed)
  {
    |m.cues| == |s.cueAt| && forall j :: 0 <= j < |m.cues| ==> CueTold(head, m, s, m.cues[j], s.cueAt[j])
  }

  /** Older cues still stand when a cluster is closed and another opened. */
  lemma {:induction false} CueStays(head: bytes, m: Mux, s: Shape, m': Mux, s': Shape, cue: Cue, i: nat)
    requires AllClusters(s.closed) && AllClusters(s'.closed) && s'.closed == ClustersOf(m, s) && m'.open
    requires CueTold(head, m, s, cue, i)
    ensures CueTold(head, m', s', cue, i)
  {
    hide BeginsWith, Elements;
    assert s'.closed[..i] == s.closed[..i];
    assert ClustersOf(m', s')[i] == s'.closed[i];
  }

  lemma {:induction false} OpenBegins(m: Mux, s: Shape)
    requires m.open && AllBlocks(s.current) && m.cluster == ClusterPayload(m.ts, s.current) && ReadCluster(s.current, m.ts).Ok?
    ensures ReadClusters([Child(ID_CLUSTER, m.cluster)]) == ReadCluster(s.current, m.ts)
  {
    ClusterReads(m.ts, s.current);
  }

  lemma {:induction false} CueAtOpen(c: Config, head: bytes, m: Mux, s: Shape, blocks: seq<Block>, b: Block)
    requires Story(head, m, s, blocks) && Modest(b) && NewCluster(c, m, b) && Cued(c, b)
    ensures ClusterFits(m) && AllClusters(ShapeStep(c, m, s, b).closed)
    ensures var m' := WriteBlock(c, m, b); var s' := ShapeStep(c, m, s, b);
      m'.cues == m.cues + [Cue(b.pts, b.track, |Flushed(m).done|)]
      && CueTold(head, m', s', Cue(b.pts, b.track, |Flushed(m).done|), |s'.closed|)
  {
    hide ReadClusters, ReadCluster, Element, ChildOf, NewCluster, AsInt64;
    FlushTells(head, m, s, blocks);
    NewClusterTells(c, head, m, s, blocks, b);
    var m', s' := WriteBlock(c, m, b), ShapeStep(c, m, s, b);
    OpenBegins(m', s');
    assert AsInt64(AsInt64(b.pts) + 0) == AsInt64(b.pts) by { TimesAddUp(b.pts, b.pts); RelativeSelf(b.pts); }
    ReadOne(b, 0, b.pts);
    assert s'.closed[..|s'.closed|] == s'.closed;
  }

  /** A cue for the open cluster still stands when another block joins it. */
  lemma {:induction false} CueGrows(c: Config, head: bytes, m: Mux, s: Shape, blocks: seq<Block>, b: Block, cue: Cue, i: nat)
    requires Story(head, m, s, blocks) && Modest(b) && !NewCluster(c, m, b) && CueTold(head, m, s, cue, i)
    ensures ClusterFits(m) && AllClusters(ShapeStep(c, m, s, b).closed)
    ensures CueTold(head, WriteBlock(c, m, b), ShapeStep(c, m, s, b), cue, i)
  {
    hide ReadClusters, ReadCluster, Element, Elements, ChildOf, NewCluster, AsInt64, ClusterPayload, FramesOf, Relative, FitsInt16;
    StaysOpen(c, m, b);
    var m', s' := WriteBlock(c, m, b), ShapeStep(c, m, s, b);
    SameClusterTells(c, head, m, s, blocks, b);
    if i == |s.closed| {
      OpenBegins(m, s);
      OpenBegins(m', s');
      var child := ChildOf(b, Relative(b.pts, m.ts));
      TimesAddUp(b.pts, m.ts);
      ChildParses(b, Relative(b.pts, m.ts), m.ts);
      ChildIsBlock(b, Relative(b.pts, m.ts));
      ReadClusterMore(s.current, child, m.ts);
    }
  }

  lemma {:induction false} CuesStep(c: Config, head: bytes, m: Mux, s: Shape, blocks: seq<Block>, b: Block)
    requires Story(head, m, s, blocks) && Modest(b) && CuesTold(head, m, s)
    ensures ClusterFits(m) && AllClusters(ShapeStep(c, m, s, b).closed)
    ensures CuesTold(head, WriteBlock(c, m, b), ShapeStep(c, m, s, b))
  {
    hide CueTold, ReadClusters, ReadCluster, Element, Elements, ChildOf, NewCluster, AsInt64, Relative;
    BlockTells(c, head, m, s, blocks, b);
    var m', s' := WriteBlock(c, m, b), ShapeStep(c, m, s, b);
    forall j | 0 <= j < |m.cues|
      ensures CueTold(head, m', s', m.cues[j], s.cueAt[j])
    {
      if NewCluster(c, m, b) {
        CueStays(head, m, s, m', s', m.cues[j], s.cueAt[j]);
      } else {
        CueGrows(c, head, m, s, blocks, b, m.cues[j], s.cueAt[j]);
      }
    }
    if NewCluster(c, m, b) && Cued(c, b) {
      CueAtOpen(c, head, m, s, blocks, b);
    }
  }

  lemma {:induction false} RunCues(c: Config, head: bytes, blocks: seq<Block>)
    requires AllModest(blocks)
    ensures AllClusters(Run(c, head, blocks).1.closed) && CuesTold(head, Run(c, head, blocks).0, Run(c, head, blocks).1)
    decreases |blocks|
  {
    hide WriteBlock, ShapeStep, Modest, CueTold;
    RunTells(c, head, blocks);
    if blocks != [] {
      var n := |blocks| - 1;
      var r := Run(c, head, blocks[..n]);
      RunCues(c, head, blocks[..n]);
      RunTells(c, head, blocks[..n]);
      CuesStep(c, head, r.0, r.1, blocks[..n], blocks[n]);
    }
  }

  /** At the cue's position stands a cluster that begins with its frame. */
  ghost predicate PointsAt(file: bytes, cue: Cue) {
    && From(file, cue.position) != []
    && var first := NextChild(From(file, cue.position));
       first.Ok? && first.value.0.id == ID_CLUSTER && BeginsWith(first.value.0, cue)
  }

  /**
   * Every cue position is the offset, from the start of the segment's data, of a cluster
   * that begins with the key frame the cue is for.
   */
  lemma {:induction false} CuesPoint(c: Config, head: bytes, blocks: seq<Block>, j: nat)
    requires AllModest(blocks) && j < |Run(c, head, blocks).0.cues|
    ensures PointsAt(FileOf(Run(c, head, blocks).0), Run(c, head, blocks).0.cues[j])
  {
    hide Run, EachChild, NextChild, BeginsWith, Elements, ReadClusters, ReadCluster, Element;
    var m, s := Run(c, head, blocks).0, Run(c, head, blocks).1;
    RunTells(c, head, blocks);
    RunCues(c, head, blocks);
    var cue, i := m.cues[j], s.cueAt[j];
    assert CueTold(head, m, s, cue, i);
    FlushTells(head, m, s, blocks);
    var all := ClustersOf(m, s);
    assert s.closed[..i] == all[..i];
    SplitElements(all, i);
    var file := FileOf(m);
    var before := head + Elements(all[..i]);
    assert file == before + Elements(all[i..]);
    assert |before| == cue.position;
    assert From(file, cue.position) == Elements(all[i..]);
    HeadElement(all[i..]);
  }

  lemma {:induction false} HeadElement(clusters: seq<Child>)
    requires clusters != [] && AllClusters(clusters)
    ensures Encodable(clusters) && Elements(clusters) != []
    ensures NextChild(Elements(clusters)).Ok? && NextChild(Elements(clusters)).value.0 == clusters[0]
  {
    hide NextChild, Element;
    assert ClusterChild(clusters[0]);
    ClusterAtHead(clusters[0], clusters[1..]);
  }

  lemma {:induction false} SplitElements(children: seq<Child>, i: nat)
    requires AllClusters(children) && i <= |children|
    ensures Encodable(children) && Encodable(children[..i]) && Encodable(children[i..])
    ensures Elements(children) == Elements(children[..i]) + Elements(children[i..])
  {
    hide Element;
    if i == 0 {
      assert children[..0] == [] && children[0..] == children;
      assert [] + Elements(children) == Elements(children);
    } else {
      SplitElements(children[1..], i - 1);
      assert children[..i][1..] == children[1..][..i - 1] && children[i..] == children[1..][i - 1..];
      var e, a, b := Element(children[0]), Elements(children[1..][..i - 1]), Elements(children[i..]);
      assert e + (a + b) == (e + a) + b;
    }
  }

  lemma {:induction false} ClusterAtHead(c: Child, rest: seq<Child>)
    requires ClusterChild(c) && AllClusters(rest)
    ensures Encodable(rest) && |c.payload| < TWO_64 && Element(c) + Elements(rest) != []
    ensures NextChild(Element(c) + Elements(rest)) == Ok((c, Elements(rest)))
  {
    hide NextChild, Element, Elements;
    Ids();
    Limits();
    ChildRoundTrip(c, Elements(rest));
  }
}
