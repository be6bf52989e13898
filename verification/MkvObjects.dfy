/** The Matroska muxer's cluster state, and the seek head patched in when the file is finished. */
module MkvObjects {
  import opened Bytes
  import opened Wrappers
  import opened Ebml
  import opened MkvLayout

  class MkvMuxer {
    const config: Config
    /** Everything written after the start of the segment's data. */
    var done: bytes
    var clusterOpen: bool
    var clusterTs: u64
    var clusterStart: nat
    var cluster: bytes
    var cues: seq<Cue>

    ghost function S(): Mux
      reads this
    {
      Mux(done, clusterOpen, clusterTs, clusterStart, cluster, cues)
    }

    constructor (config: Config, head: bytes)
      ensures S() == Start(head) && this.config == config
    {
      this.config := config;
      done, clusterOpen, clusterTs, clusterStart, cluster, cues := head, false, 0, 0, [], [];
    }

    method FlushCluster()
      requires ClusterFits(S())
      modifies this`done, this`clusterOpen
      ensures S() == Flushed(old(S()))
    {
      if !clusterOpen {
        return;
      }
      clusterOpen := false;
      done := done + Element(Child(ID_CLUSTER, cluster));
    }

    method WriteBlock(b: Block)
      requires BoundedMux(S()) && Modest(b)
      modifies this
      ensures BoundedMux(S()) && S() == MkvLayout.WriteBlock(config, old(S()), b)
    {
      hide Element, ChildOf, UintPayload, AsInt64;
      KeepsBounded(config, S(), b);
      var cueTrack := b.key && (b.video || !config.hasVideo);
      var rel := AsInt64(b.pts as int - clusterTs as int);
      var newCluster :=
        || !clusterOpen || rel < -0x8000 || rel > 0x7FFF
        || b.pts as int >= (clusterTs as int + config.duration as int) % TWO_64
        || |cluster| >= MAX_CLUSTER_BYTES
        || (b.video && b.key && |cluster| > 0);
      if newCluster {
        FlushCluster();
        clusterOpen := true;
        clusterTs := b.pts;
        clusterStart := |done|;
        cluster := Element(TimeChild(b.pts));
        rel := 0;
        if cueTrack {
          cues := cues + [Cue(b.pts, b.track, clusterStart)];
        }
      }
      cluster := cluster + Element(ChildOf(b, rel));
    }
  }

  /** A file written block by block and closed. */
  method WriteFile(config: Config, head: bytes, blocks: seq<Block>) returns (file: bytes, cues: seq<Cue>)
    requires AllModest(blocks)
    ensures file == FileOf(Run(config, head, blocks).0) && cues == Run(config, head, blocks).0.cues
  {
    hide MkvLayout.WriteBlock, ShapeStep, Modest;
    var m := new MkvMuxer(config, head);
    assert blocks[..0] == [];
    for i := 0 to |blocks|
      invariant fresh(m) && m.config == config && BoundedMux(m.S()) && m.S() == Run(config, head, blocks[..i]).0
    {
      assert blocks[..i + 1][..i] == blocks[..i] && blocks[..i + 1][i] == blocks[i];
      m.WriteBlock(blocks[i]);
    }
    assert blocks[..|blocks|] == blocks;
    m.FlushCluster();
    return m.done, m.cues;
  }

  // ---------------------------------------------------------------------------
  // The seek head
  // ---------------------------------------------------------------------------

  const ID_SEEK_HEAD: u32 := 0x114D9B74
  const ID_SEEK: u32 := 0x4DBB
  const ID_SEEK_ID: u32 := 0x53AB
  const ID_SEEK_POSITION: u32 := 0x53AC
  const SEEK_HEAD_RESERVE := 96

  /** Positions always take 8 bytes, so an entry has one size. */
  function SeekParts(id: u32, position: u64): (c: seq<Child>)
    ensures |c| == 2
  {
    [Child(ID_SEEK_ID, AppendId(id)), Child(ID_SEEK_POSITION, Big(position, 8))]
  }

  datatype Seek = Seek(id: u32, position: u64)

  lemma {:induction false} SmallElement(c: Child)
    requires |c.payload| < 127
    ensures |Element(c)| == IdLen(c.id) + 1 + |c.payload|
  {
    Limits();
  }

  lemma {:induction false} SeekSize(s: Seek)
    requires IdLen(s.id) == 4
    ensures Encodable(SeekParts(s.id, s.position)) && |Elements(SeekParts(s.id, s.position))| == 18
  {
    hide Element;
    var c := SeekParts(s.id, s.position);
    SmallElement(c[0]);
    SmallElement(c[1]);
    assert c[1..] == [c[1]] && [c[1]][1..] == [];
    assert Elements(c) == Element(c[0]) + (Element(c[1]) + Elements([]));
  }

  function SeekChild(s: Seek): (c: Child)
    requires IdLen(s.id) == 4
    ensures |c.payload| == 18 && c.id == ID_SEEK
  {
    SeekSize(s);
    Child(ID_SEEK, Elements(SeekParts(s.id, s.position)))
  }

  predicate LevelOne(seeks: seq<Seek>) {
    |seeks| <= 3 && forall i :: 0 <= i < |seeks| ==> IdLen(seeks[i].id) == 4
  }

  function SeekChildren(seeks: seq<Seek>): (c: seq<Child>)
    requires LevelOne(seeks)
    ensures |c| == |seeks| && forall i :: 0 <= i < |c| ==> c[i] == SeekChild(seeks[i])
  {
    seq(|seeks|, i requires 0 <= i < |seeks| => SeekChild(seeks[i]))
  }

  lemma {:induction false} SeekElements(children: seq<Child>)
    requires forall i :: 0 <= i < |children| ==> |children[i].payload| == 18 && children[i].id == ID_SEEK
    ensures Encodable(children) && |Elements(children)| == 21 * |children|
  {
    hide Element;
    if children != [] {
      SmallElement(children[0]);
      SeekElements(children[1..]);
    }
  }

  /** The seek head and the void behind it. */
  function SeekPatch(seeks: seq<Seek>): bytes
    requires LevelOne(seeks)
  {
    var children := SeekChildren(seeks);
    SeekElements(children);
    SmallElement(Child(ID_SEEK_HEAD, Elements(children)));
    var head := Master(ID_SEEK_HEAD, children);
    head + VoidElement(SEEK_HEAD_RESERVE - |head|)
  }

  /** Up to three entries and their void take exactly the room reserved for them, and read back as such. */
  lemma {:induction false} SeekPatchFills(seeks: seq<Seek>)
    requires LevelOne(seeks)
    ensures |SeekPatch(seeks)| == SEEK_HEAD_RESERVE
    ensures Encodable(SeekChildren(seeks)) && SeekPatch(seeks) != []
    ensures var first := NextChild(SeekPatch(seeks));
      && first.Ok? && first.value.0 == Child(ID_SEEK_HEAD, Elements(SeekChildren(seeks)))
      && first.value.1 != []
      && NextChild(first.value.1).Ok? && NextChild(first.value.1).value.0.id == ID_VOID && NextChild(first.value.1).value.1 == []
  {
    hide NextChild, Element, Elements, VoidElement, Limit;
    var children := SeekChildren(seeks);
    SeekElements(children);
    var c := Child(ID_SEEK_HEAD, Elements(children));
    SmallElement(c);
    Limits();
    IdValid(ID_SEEK_HEAD, 0x11);
    var total := SEEK_HEAD_RESERVE - |Element(c)|;
    VoidFills(total, []);
    ChildRoundTrip(c, VoidElement(total));
    assert VoidElement(total) + [] == VoidElement(total);
  }

  lemma {:induction false} SeekIds()
    ensures ValidId(ID_SEEK_ID) && ValidId(ID_SEEK_POSITION)
  {
    IdValid(ID_SEEK_ID, 0x53);
    IdValid(ID_SEEK_POSITION, 0x53);
  }

  /** Each entry gives back its id and its position. */
  lemma {:induction false} SeekReads(s: Seek)
    requires IdLen(s.id) == 4
    ensures EachChild(SeekChild(s).payload) == (SeekParts(s.id, s.position), None)
    ensures Val(SeekParts(s.id, s.position)[0].payload) == s.id
    ensures ReadUint(SeekParts(s.id, s.position)[1].payload) == Ok(s.position)
  {
    hide EachChild, Elements, Element, Val, Big, Limit, ValidId;
    SeekSize(s);
    Limits();
    Powers();
    SeekIds();
    ChildrenRoundTrip(SeekParts(s.id, s.position));
    ValBig(s.id, 4);
    ValBig(s.position, 8);
  }
}
