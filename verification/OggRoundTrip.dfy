/** Packets written to Ogg pages and read back, stream by stream and interleaved. */
module OggRoundTrip {
  import opened Bytes
  import opened Wrappers
  import opened OggPages
  import opened OggReader
  import opened OggMux

  function CacheOf(known: Option<Stream>): bytes {
    if known.None? then [] else known.value.cache
  }

  /** The open page goes on where the reader's stream stopped. */
  predicate Follows(known: Option<Stream>, t: Track) {
    && Laced(t)
    && (known.Some? ==> (known.value.number as int + 1) % TWO_32 == t.number)
    && (CacheOf(known) != [] ==> t.continued)
  }

  /** What the reader would make of the open page: packets completed, and the start of one. */
  function Content(known: Option<Stream>, t: Track): (seq<bytes>, bytes)
    requires Laced(t)
  {
    Unpack(CacheOf(known), t.segments, t.body)
  }

  /** Writing the open page delivers its content and loses nothing. */
  lemma {:induction false} FlushFollows(known: Option<Stream>, t: Track, p: Page)
    requires Follows(known, t) && p == PageOf(t, p.first, p.last)
    ensures Fits(p) && StreamRun(known, [p]).1 == Content(known, t).0
    ensures var after := StreamRun(known, [p]).0;
      && CacheOf(after) == Content(known, t).1
      && Content(after, Flushed(t).(continued := true)) == ([], CacheOf(after))
      && Follows(after, Flushed(t).(continued := true))
      && (CacheOf(after) == [] ==> Follows(after, Flushed(t)) && Content(after, Flushed(t)) == ([], []))
  {
    hide Unpack, Complete;
    var s := Arrive(known, p.number);
    CompleteUnpacks(s, p, p.body);
    UnpackNothing(Content(known, t).1);
    assert [p][1..] == [];
    var q := Content(known, t).0;
    assert q + [] == q;
  }

  lemma {:induction false} UnpackNothing(open: bytes)
    ensures Unpack(open, [], []) == ([], open)
  {
  }

  lemma {:induction false} PacketContent(known: Option<Stream>, t: Track, data: bytes)
    requires Laced(t) && |t.segments| + |data| / 255 + 1 <= MAX_SEGMENTS
    ensures var t' := WithPacket(t, data);
      Laced(t') && Content(known, t') == (Content(known, t).0 + [Content(known, t).1 + data], [])
  {
    hide Unpack;
    WithPacketLaced(t, data);
    UnpackLace(Content(known, t).1, data);
    UnpackConcat(CacheOf(known), t.segments, t.body, Lace(|data|), data);
  }

  lemma {:induction false} FilledContent(known: Option<Stream>, t: Track, data: bytes, room: nat)
    requires Laced(t) && |t.segments| + room == MAX_SEGMENTS && room * 255 <= |data|
    ensures var filled := t.(body := t.body + data[..room * 255], segments := t.segments + Full(room));
      Laced(filled) && Content(known, filled) == (Content(known, t).0, Content(known, t).1 + data[..room * 255])
  {
    hide Unpack;
    FilledLaced(t, data, room);
    UnpackFull(Content(known, t).1, room, data[..room * 255]);
    UnpackConcat(CacheOf(known), t.segments, t.body, Full(room), data[..room * 255]);
    var q := Content(known, t).0;
    assert q + [] == q;
  }

  lemma {:induction false} SameContent(known: Option<Stream>, t: Track, u: Track)
    requires Follows(known, t) && u.segments == t.segments && u.body == t.body && u.number == t.number && u.continued == t.continued
    ensures Follows(known, u) && Content(known, u) == Content(known, t)
  {
  }

  ghost predicate Delivers(known: Option<Stream>, t: Track, u: Track, pages: seq<Page>, whole: bytes)
    requires Laced(t)
  {
    && AllFit(pages)
    && var r := StreamRun(known, pages);
       && Follows(r.0, u) && Content(r.0, u).1 == []
       && r.1 + Content(r.0, u).0 == Content(known, t).0 + [whole]
  }

  /** A packet spread over the pages it needs comes out whole. */
  lemma {:induction false} AddDataDelivers(known: Option<Stream>, t: Track, data: bytes)
    requires Follows(known, t)
    ensures Delivers(known, t, AddData(t, data).0, AddData(t, data).1, Content(known, t).1 + data)
    decreases |data|, |t.segments|
  {
    hide Unpack, Follows, Content, StreamRun, Lace, Full, Laced, WithPacket;
    FollowsLaced(known, t);
    LacedIs(t);
    var room := MAX_SEGMENTS - |t.segments|;
    var r := AddData(t, data);
    if |data| / 255 + 1 <= room {
      var w := WithPacket(t, data);
      PacketContent(known, t, data);
      WithPacketFollows(known, t, data);
      SameContent(known, w, r.0) by {
        SameButGranule(t, data);
      }
      RunNoPages(known);
      assert [] + Content(known, w).0 == Content(known, w).0;
    } else {
      var n := room * 255;
      var filled := t.(body := t.body + data[..n], segments := t.segments + Full(room));
      var page, next := PageOf(filled, false, false), Flushed(filled).(continued := true);
      FilledContent(known, t, data, room);
      FilledFollows(known, t, filled);
      FlushFollows(known, filled, page);
      var known' := StreamRun(known, [page]).0;
      AddDataDelivers(known', next, data[n..]);
      var rest := AddData(next, data[n..]);
      StreamRunConcat(known, [page], rest.1);
      assert Content(known, t).1 + data == (Content(known, t).1 + data[..n]) + data[n..];
      FollowsLaced(StreamRun(known', rest.1).0, rest.0);
      Glue(Content(known, t).0, StreamRun(known', rest.1).1, Content(StreamRun(known', rest.1).0, rest.0).0, Content(known, t).1 + data);
    }
  }

  lemma {:induction false} Glue(q: seq<bytes>, out: seq<bytes>, left: seq<bytes>, whole: bytes)
    requires out + left == [] + [whole]
    ensures (q + out) + left == q + [whole]
  {
    assert (q + out) + left == q + (out + left);
    assert [] + [whole] == [whole];
  }

  lemma {:induction false} RunNoPages(known: Option<Stream>)
    ensures AllFit([]) && StreamRun(known, []) == (known, [])
  {
  }

  lemma {:induction false} FollowsLaced(known: Option<Stream>, t: Track)
    requires Follows(known, t)
    ensures Laced(t)
  {
  }

  lemma {:induction false} WithPacketFollows(known: Option<Stream>, t: Track, data: bytes)
    requires Follows(known, t) && Laced(WithPacket(t, data))
    ensures Follows(known, WithPacket(t, data))
  {
  }

  lemma {:induction false} FilledFollows(known: Option<Stream>, t: Track, filled: Track)
    requires Follows(known, t) && Laced(filled) && filled.number == t.number && filled.continued == t.continued
    ensures Follows(known, filled)
  {
  }

  lemma {:induction false} SameButGranule(t: Track, data: bytes)
    requires |t.segments| + |data| / 255 + 1 <= MAX_SEGMENTS
    ensures var u, w := AddData(t, data).0, WithPacket(t, data);
      u.segments == w.segments && u.body == w.body && u.number == w.number && u.continued == w.continued
  {
  }

  // ---------------------------------------------------------------------------
  // One stream from its first page to its last
  // ---------------------------------------------------------------------------

  /** Between packets: the open page follows the reader and ends with a whole packet. */
  ghost predicate AtRest(known: Option<Stream>, t: Track) {
    Follows(known, t) && Content(known, t).1 == []
  }

  lemma {:induction false} AddPacketDelivers(known: Option<Stream>, t: Track, p: Source)
    requires AtRest(known, t)
    ensures var r := AddPacket(t, p);
      && AllFit(r.1) && AtRest(StreamRun(known, r.1).0, r.0)
      && StreamRun(known, r.1).1 + Content(StreamRun(known, r.1).0, r.0).0 == Content(known, t).0 + [p.data]
  {
    hide Unpack, Content, StreamRun, AddData, Follows;
    FollowsLaced(known, t);
    var t1 := Begun(t, p.pts);
    SameContent(known, t, t1);
    assert [] + p.data == p.data;
    if t1.flushDue {
      var page := PageOf(t1, false, false);
      FlushFollows(known, t1, page);
      var known' := StreamRun(known, [page]).0;
      SameContent(known', Flushed(t1), Flushed(t1.(flushDue := false)));
      AddTimed(known', Flushed(t1.(flushDue := false)), p, page, known, Content(known, t).0);
    } else {
      AddFresh(known, t1, p);
    }
  }

  lemma {:induction false} AddFresh(known: Option<Stream>, t: Track, p: Source)
    requires AtRest(known, t)
    ensures var done := AddData(Timed(t, p), p.data); var u := done.0.(flushDue := Due(done.0));
      && AllFit(done.1) && AtRest(StreamRun(known, done.1).0, u)
      && StreamRun(known, done.1).1 + Content(StreamRun(known, done.1).0, u).0 == Content(known, t).0 + [p.data]
      && [] + done.1 == done.1
  {
    hide Unpack, Content, StreamRun, AddData, Follows;
    FollowsLaced(known, t);
    SameContent(known, t, Timed(t, p));
    AddDataDelivers(known, Timed(t, p), p.data);
    var done := AddData(Timed(t, p), p.data);
    assert [] + p.data == p.data;
    FollowsLaced(StreamRun(known, done.1).0, done.0);
    SameContent(StreamRun(known, done.1).0, done.0, done.0.(flushDue := Due(done.0)));
  }

  /** The same after a page that was due has gone out. */
  lemma {:induction false} AddTimed(known': Option<Stream>, t2: Track, p: Source, page: Page, known: Option<Stream>, q: seq<bytes>)
    requires AtRest(known', t2) && Content(known', t2).0 == []
    requires Fits(page) && StreamRun(known, [page]) == (known', q)
    ensures var done := AddData(Timed(t2, p), p.data); var u := done.0.(flushDue := Due(done.0)); var pages := [page] + done.1;
      && AllFit(pages) && AtRest(StreamRun(known, pages).0, u)
      && StreamRun(known, pages).1 + Content(StreamRun(known, pages).0, u).0 == q + [p.data]
  {
    hide Unpack, Content, StreamRun, AddData, Follows;
    FollowsLaced(known', t2);
    AddFresh(known', t2, p);
    var done := AddData(Timed(t2, p), p.data);
    StreamRunConcat(known, [page], done.1);
    var r := StreamRun(known', done.1);
    var u := done.0.(flushDue := Due(done.0));
    FollowsLaced(r.0, u);
    Glue(q, r.1, Content(r.0, u).0, p.data);
  }

  /** The two header pages of a stream. */
  function Opened(t: Track): (Track, seq<Page>) {
    var head := HeadWritten(t);
    var tags := TagsWritten(head.0);
    (tags.0, [head.1, tags.1])
  }

  function AddPackets(t: Track, packets: seq<Source>): (r: (Track, seq<Page>))
    requires |t.segments| <= MAX_SEGMENTS
    ensures |r.0.segments| <= MAX_SEGMENTS
    decreases |packets|
  {
    if packets == [] then (t, [])
    else
      var before := AddPackets(t, packets[..|packets| - 1]);
      var one := AddPacket(before.0, packets[|packets| - 1]);
      (one.0, before.1 + one.1)
  }

  function DataIn(packets: seq<Source>): (r: seq<bytes>)
    ensures |r| == |packets|
  {
    seq(|packets|, i requires 0 <= i < |packets| => packets[i].data)
  }

  /** A header that fits one page. */
  predicate HeadFits(head: bytes) {
    |head| / 255 + 1 <= MAX_SEGMENTS
  }

  /** A page as it is written, whatever it holds: the number of segments is cut to a byte. */
  function PageBytes(p: Page, crc: u32): bytes {
    EncodeHead(p.(segments := []), crc)[..HEAD_SIZE - 1] + [|p.segments| % 0x100] + p.segments + p.body
  }

  lemma {:induction false} PageBytesIs(p: Page, crc: u32)
    ensures var b := PageBytes(p, crc); |b| >= HEAD_SIZE && b[HEAD_SIZE - 1] == |p.segments| % 0x100
    ensures |p.segments| <= MAX_SEGMENTS ==> PageBytes(p, crc) == EncodeHead(p, crc) + p.body
  {
    hide PutU64LE, PutU32LE;
    var fields := ['O' as int, 'g' as int, 'g' as int, 'S' as int, 0, FlagByte(p)]
      + PutU64LE(p.granule) + PutU32LE(p.serial) + PutU32LE(p.number) + PutU32LE(crc);
    assert EncodeHead(p.(segments := []), crc) == fields + [0] && (fields + [0])[..HEAD_SIZE - 1] == fields;
  }

  /** The page of a stream's first header is read as it was made exactly when the header fits one page. */
  lemma {:induction false} HeadPageIff(t: Track, crc: u32)
    requires t.segments == []
    ensures var p := HeadWritten(t).1; var b := PageBytes(p, crc);
      |b| >= HEAD_SIZE && (HeadFits(t.head) <==>
        |b| >= HEAD_SIZE + b[HEAD_SIZE - 1] as int && ReadPage(b[..HEAD_SIZE + b[HEAD_SIZE - 1] as int]) == Ok(p.(body := [])))
  {
    hide PageBytes, EncodeHead, U64LE, U32LE, Lace;
    var p := HeadWritten(t).1;
    var b := PageBytes(p, crc);
    PageBytesIs(p, crc);
    assert |p.segments| == |t.head| / 255 + 1;
    if HeadFits(t.head) {
      HeadRoundTrip(p, crc);
      assert b[..|EncodeHead(p, crc)|] == EncodeHead(p, crc);
    }
  }

  predicate Unopened(t: Track) {
    t.segments == [] && t.body == [] && t.number == 0 && !t.continued && !t.started && !t.flushDue && t.granule == 0
    && t.padding == 0 && t.lastDur == 0
  }

  lemma {:induction false} OneHeader(known: Option<Stream>, t: Track, data: bytes, first: bool)
    requires AtRest(known, t) && Content(known, t).0 == [] && |t.segments| + |data| / 255 + 1 <= MAX_SEGMENTS
    ensures var page := PageOf(WithHeader(t, data), first, false);
      && Fits(page) && StreamRun(known, [page]).1 == [data]
      && AtRest(StreamRun(known, [page]).0, Flushed(WithHeader(t, data)))
      && Content(StreamRun(known, [page]).0, Flushed(WithHeader(t, data))).0 == []
  {
    hide Unpack, Content, StreamRun, Follows;
    FollowsLaced(known, t);
    PacketContent(known, t, data);
    WithPacketFollows(known, t, data);
    SameContent(known, WithPacket(t, data), WithHeader(t, data));
    FlushFollows(known, WithHeader(t, data), PageOf(WithHeader(t, data), first, false));
    assert [] + data == data && [] + [data] == [data];
  }

  lemma {:induction false} OpenedDelivers(t: Track)
    requires Unopened(t) && HeadFits(t.head)
    ensures var r := Opened(t);
      && AllFit(r.1) && StreamRun(None, r.1).1 == [t.head, TAGS]
      && AtRest(StreamRun(None, r.1).0, r.0) && Content(StreamRun(None, r.1).0, r.0).0 == []
  {
    hide StreamRun;
    OneHeader(None, t, t.head, true);
    var p1 := PageOf(WithHeader(t, t.head), true, false);
    var t1 := Flushed(WithHeader(t, t.head));
    var known := StreamRun(None, [p1]).0;
    OneHeader(known, t1, TAGS, false);
    var p2 := PageOf(WithHeader(t1, TAGS), false, false);
    StreamRunConcat(None, [p1], [p2]);
    assert [p1] + [p2] == [p1, p2];
    assert [t.head] + [TAGS] == [t.head, TAGS];
  }

  lemma {:induction false} AddPacketsDeliver(known: Option<Stream>, t: Track, packets: seq<Source>)
    requires AtRest(known, t)
    ensures Laced(t)
    ensures var r := AddPackets(t, packets);
      && AllFit(r.1) && AtRest(StreamRun(known, r.1).0, r.0)
      && StreamRun(known, r.1).1 + Content(StreamRun(known, r.1).0, r.0).0 == Content(known, t).0 + DataIn(packets)
    decreases |packets|
  {
    hide AddPacket, Content, StreamRun, Follows;
    FollowsLaced(known, t);
    LacedIs(t);
    if packets == [] {
      RunNoPages(known);
      assert [] + Content(known, t).0 == Content(known, t).0 + DataIn(packets);
    } else {
      var n := |packets| - 1;
      AddPacketsDeliver(known, t, packets[..n]);
      var before := AddPackets(t, packets[..n]);
      var k1 := StreamRun(known, before.1).0;
      FollowsLaced(k1, before.0);
      AddPacketDelivers(k1, before.0, packets[n]);
      var one := AddPacket(before.0, packets[n]);
      StreamRunConcat(known, before.1, one.1);
      var k2 := StreamRun(k1, one.1).0;
      FollowsLaced(k2, one.0);
      assert DataIn(packets) == DataIn(packets[..n]) + [packets[n].data];
      GlueMore(StreamRun(known, before.1).1, Content(k1, before.0).0, Content(known, t).0, DataIn(packets[..n]),
        StreamRun(k1, one.1).1, Content(k2, one.0).0, [packets[n].data]);
    }
  }

  lemma {:induction false} GlueMore(a: seq<bytes>, b: seq<bytes>, c: seq<bytes>, d: seq<bytes>, x: seq<bytes>, y: seq<bytes>, z: seq<bytes>)
    requires a + b == c + d && x + y == b + z
    ensures (a + x) + y == c + (d + z)
  {
    assert (a + x) + y == a + (x + y);
    assert a + (b + z) == (a + b) + z;
    assert (c + d) + z == c + (d + z);
  }

  /** All pages of one stream. */
  function Life(t: Track, packets: seq<Source>): seq<Page>
  {
    var begun := Opened(t);
    var filled := AddPackets(begun.0, packets);
    begun.1 + filled.1 + [LastWritten(filled.0).1]
  }

  /** One stream written to its end and read back: its headers, then its packets, each once and in order. */
  lemma {:induction false} LifeRoundTrip(t: Track, packets: seq<Source>)
    requires Unopened(t) && HeadFits(t.head)
    ensures AllFit(Life(t, packets)) && StreamRun(None, Life(t, packets)).1 == [t.head, TAGS] + DataIn(packets)
  {
    hide Opened, AddPackets, Content, StreamRun, Follows;
    OpenedDelivers(t);
    var begun := Opened(t);
    var k1 := StreamRun(None, begun.1).0;
    OpenedSegments(t);
    AddPacketsDeliver(k1, begun.0, packets);
    var filled := AddPackets(begun.0, packets);
    var k2 := StreamRun(k1, filled.1).0;
    FollowsLaced(k2, filled.0);
    var closing := Closing(filled.0);
    SameContent(k2, filled.0, closing);
    var page := PageOf(closing, false, true);
    FlushFollows(k2, closing, page);
    StreamRunConcat(None, begun.1, filled.1);
    StreamRunConcat(None, begun.1 + filled.1, [page]);
    var x := StreamRun(k1, filled.1).1;
    assert [] + DataIn(packets) == DataIn(packets);
    assert ([t.head, TAGS] + x) + Content(k2, filled.0).0 == [t.head, TAGS] + (x + Content(k2, filled.0).0);
  }

  lemma {:induction false} OpenedSegments(t: Track)
    ensures |Opened(t).0.segments| <= MAX_SEGMENTS
  {
  }
}
