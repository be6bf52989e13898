/** The Ogg demuxer as a state machine over bytes arriving in any pieces. */
module OggReader {
  import opened Bytes
  import opened Wrappers
  import opened OggPages

  /** Waiting for a page header, or for the body of a page whose header has been read. */
  datatype Mode = AtHead | AtBody(page: Page)

  datatype Core = Core(mode: Mode, streams: map<u32, Stream>)

  /** Everything read so far that does not yet make a header or a body waits in `cache`. */
  datatype Demux = Demux(core: Core, cache: bytes)

  datatype Outcome = Outcome(core: Core, rest: bytes, packets: seq<Packet>, error: Option<Error>)

  const FRESH: Demux := Demux(Core(AtHead, map[]), [])

  /** The stream of a page whose body is awaited is known. */
  predicate Sound(c: Core) {
    c.mode.AtBody? ==> c.mode.page.serial in c.streams
  }

  function Known(streams: map<u32, Stream>, serial: u32): Option<Stream> {
    if serial in streams then Some(streams[serial]) else None
  }

  predicate Ready(c: Core, b: bytes) {
    if c.mode.AtHead? then |b| >= HEAD_SIZE && |b| >= HEAD_SIZE + b[26] as int
    else |b| >= Sum(c.mode.page.segments)
  }

  function ReadHead(c: Core, b: bytes): Result<(Core, bytes, seq<Packet>), Error>
    requires c.mode.AtHead? && Ready(c, b)
  {
    var size := HEAD_SIZE + b[26] as int;
    var page := ReadPage(b[..size]);
    if page.Err? then Err(page.error)
    else
      var p := page.value;
      Ok((Core(AtBody(p), c.streams[p.serial := Arrive(Known(c.streams, p.serial), p.number)]), b[size..], []))
  }

  function ReadBody(c: Core, b: bytes): (Core, bytes, seq<Packet>)
    requires c.mode.AtBody? && Sound(c) && Ready(c, b)
  {
    var p, size := c.mode.page, Sum(c.mode.page.segments);
    var s := c.streams[p.serial];
    var done := Complete(s, p, b[..size]);
    (Core(AtHead, c.streams[p.serial := s.(cache := done.1)]), b[size..], Packets(p.serial, p.granule, done.0))
  }

  function Turn(c: Core, b: bytes): (r: Result<(Core, bytes, seq<Packet>), Error>)
    requires Sound(c) && Ready(c, b)
    ensures r.Ok? ==> Sound(r.value.0)
    ensures r.Ok? ==> |r.value.1| < |b| || (r.value.1 == b && c.mode.AtBody? && r.value.0.mode.AtHead?)
  {
    if c.mode.AtHead? then ReadHead(c, b) else Ok(ReadBody(c, b))
  }

  function Advance(c: Core, b: bytes): (r: Outcome)
    requires Sound(c)
    ensures Sound(r.core) && (r.error.None? ==> !Ready(r.core, r.rest))
    decreases |b|, if c.mode.AtHead? then 0 else 1
  {
    if !Ready(c, b) then Outcome(c, b, [], None)
    else
      var one := Turn(c, b);
      if one.Err? then Outcome(c, b, [], Some(one.error))
      else
        var rest := Advance(one.value.0, one.value.1);
        rest.(packets := one.value.2 + rest.packets)
  }

  /** Everything that can be read has been read. */
  predicate Settled(d: Demux) {
    Sound(d.core) && !Ready(d.core, d.cache)
  }

  /** The state in which an input leaves the demuxer, the packets it completed, and its error. */
  function Input(d: Demux, b: bytes): (r: (Demux, seq<Packet>, Option<Error>))
    requires Settled(d)
    ensures r.2.None? ==> Settled(r.0)
  {
    var o := Advance(d.core, d.cache + b);
    (Demux(o.core, o.rest), o.packets, o.error)
  }

  /** The same in several pieces; an error ends it. */
  function Inputs(d: Demux, pieces: seq<bytes>): (Demux, seq<Packet>, Option<Error>)
    requires Settled(d)
    decreases |pieces|
  {
    if pieces == [] then (d, [], None)
    else
      var one := Input(d, pieces[0]);
      if one.2.Some? then one
      else
        var rest := Inputs(one.0, pieces[1..]);
        (rest.0, one.1 + rest.1, rest.2)
  }

  // ---------------------------------------------------------------------------
  // Split independence
  // ---------------------------------------------------------------------------

  lemma {:induction false} TurnMore(c: Core, a: bytes, b: bytes)
    requires Sound(c) && Ready(c, a)
    ensures Ready(c, a + b)
    ensures Turn(c, a + b) == if Turn(c, a).Err? then Turn(c, a) else
      Ok((Turn(c, a).value.0, Turn(c, a).value.1 + b, Turn(c, a).value.2))
  {
    hide Complete, ReadPage, Arrive;
    if c.mode.AtHead? {
      var size := HEAD_SIZE + a[26] as int;
      assert (a + b)[..size] == a[..size] && (a + b)[size..] == a[size..] + b;
    } else {
      var size := Sum(c.mode.page.segments);
      assert (a + b)[..size] == a[..size] && (a + b)[size..] == a[size..] + b;
    }
  }

  /** Bytes that arrive later change nothing about what the earlier ones gave. */
  lemma {:induction false} AdvanceSplit(c: Core, a: bytes, b: bytes)
    requires Sound(c)
    ensures var first, both := Advance(c, a), Advance(c, a + b);
      if first.error.Some? then both.packets == first.packets && both.error == first.error && both.core == first.core
      else
        var second := Advance(first.core, first.rest + b);
        both == second.(packets := first.packets + second.packets)
    decreases |a|, if c.mode.AtHead? then 0 else 1
  {
    hide Turn, Ready;
    var first := Advance(c, a);
    if Ready(c, a) {
      TurnMore(c, a, b);
      if Turn(c, a).Ok? {
        var one := Turn(c, a).value;
        AdvanceSplit(one.0, one.1, b);
        if first.error.None? {
          var second := Advance(first.core, first.rest + b);
          assert one.2 + (Advance(one.0, one.1).packets + second.packets) == first.packets + second.packets;
        }
      }
    } else {
      var second := Advance(first.core, first.rest + b);
      assert [] + second.packets == second.packets;
    }
  }

  /** Input in any pieces gives the packets, the error and the final state of the whole at once. */
  lemma {:induction false} SplitIndependence(d: Demux, pieces: seq<bytes>)
    requires Settled(d)
    ensures var whole, parts := Input(d, Concat(pieces)), Inputs(d, pieces);
      whole.1 == parts.1 && whole.2 == parts.2 && (whole.2.None? ==> whole.0 == parts.0)
    decreases |pieces|
  {
    hide Advance, Ready;
    if pieces == [] {
      assert d.cache + [] == d.cache;
      AdvanceStops(d);
    } else {
      var a, more := pieces[0], Concat(pieces[1..]);
      AdvanceSplit(d.core, d.cache + a, more);
      assert (d.cache + a) + more == d.cache + (a + more);
      var one := Input(d, a);
      if one.2.None? {
        SplitIndependence(one.0, pieces[1..]);
      }
    }
  }

  lemma {:induction false} AdvanceStops(d: Demux)
    requires Settled(d)
    ensures Advance(d.core, d.cache) == Outcome(d.core, d.cache, [], None)
  {
  }

  // ---------------------------------------------------------------------------
  // Whole pages
  // ---------------------------------------------------------------------------

  /** One whole page through the streams. */
  function PageStep(streams: map<u32, Stream>, p: Page): (map<u32, Stream>, seq<Packet>)
    requires Fits(p)
  {
    var s := Arrive(Known(streams, p.serial), p.number);
    var done := Complete(s, p, p.body);
    (streams[p.serial := s.(cache := done.1)], Packets(p.serial, p.granule, done.0))
  }

  predicate AllFit(pages: seq<Page>) {
    forall i :: 0 <= i < |pages| ==> Fits(pages[i])
  }

  function RunPages(streams: map<u32, Stream>, pages: seq<Page>): (map<u32, Stream>, seq<Packet>)
    requires AllFit(pages)
    decreases |pages|
  {
    if pages == [] then (streams, [])
    else
      var one := PageStep(streams, pages[0]);
      var rest := RunPages(one.0, pages[1..]);
      (rest.0, one.1 + rest.1)
  }

  /** The bytes of a file; the checksums may be anything. */
  function EncodePages(pages: seq<Page>, crcs: seq<u32>): bytes
    requires AllFit(pages) && |crcs| == |pages|
    decreases |pages|
  {
    if pages == [] then [] else EncodePage(pages[0], crcs[0]) + EncodePages(pages[1..], crcs[1..])
  }

  lemma {:induction false} HeadTurn(streams: map<u32, Stream>, p: Page, crc: u32, rest: bytes)
    requires Fits(p)
    ensures var b, c := EncodePage(p, crc) + rest, Core(AtHead, streams);
      && Ready(c, b)
      && Turn(c, b) == Ok((Core(AtBody(p.(body := [])), streams[p.serial := Arrive(Known(streams, p.serial), p.number)]),
                           p.body + rest, []))
  {
    hide EncodeHead, ReadPage, Arrive;
    var head := EncodeHead(p, crc);
    var b := EncodePage(p, crc) + rest;
    HeadRoundTrip(p, crc);
    assert b[26] == head[26];
    assert b[..|head|] == head;
    assert b[|head|..] == p.body + rest;
  }

  lemma {:induction false} BodyTurn(streams: map<u32, Stream>, p: Page, rest: bytes)
    requires Fits(p) && p.serial in streams
    ensures var c := Core(AtBody(p.(body := [])), streams);
      && Ready(c, p.body + rest)
      && var done := Complete(streams[p.serial], p, p.body);
         Turn(c, p.body + rest)
         == Ok((Core(AtHead, streams[p.serial := streams[p.serial].(cache := done.1)]), rest, Packets(p.serial, p.granule, done.0)))
  {
    hide Sum;
    assert (p.body + rest)[..|p.body|] == p.body && (p.body + rest)[|p.body|..] == rest;
    var q := p.(body := []);
    assert Complete(streams[p.serial], q, p.body) == Complete(streams[p.serial], p, p.body) by {
      SameComplete(streams[p.serial], p, q, p.body);
    }
  }

  lemma {:induction false} SameComplete(s: Stream, p: Page, q: Page, body: bytes)
    requires Sum(p.segments) == |body| && q.segments == p.segments && q.continued == p.continued
    ensures Complete(s, q, body) == Complete(s, p, body)
  {
  }

  lemma {:induction false} AdvancePage(streams: map<u32, Stream>, p: Page, crc: u32, rest: bytes)
    requires Fits(p)
    ensures var one := PageStep(streams, p);
      var after := Advance(Core(AtHead, one.0), rest);
      Advance(Core(AtHead, streams), EncodePage(p, crc) + rest) == after.(packets := one.1 + after.packets)
  {
    hide EncodePage, Complete, Arrive, Turn, Ready, Sum;
    var streams' := streams[p.serial := Arrive(Known(streams, p.serial), p.number)];
    HeadTurn(streams, p, crc, rest);
    BodyTurn(streams', p, rest);
    var one := PageStep(streams, p);
    assert streams'[p.serial := one.0[p.serial]] == one.0;
    var mid := Core(AtBody(p.(body := [])), streams');
    assert Advance(mid, p.body + rest).packets == one.1 + Advance(Core(AtHead, one.0), rest).packets;
    var all := Advance(mid, p.body + rest).packets;
    assert [] + all == all;
  }

  /** The bytes of whole pages leave the reader between pages, with every packet they complete. */
  lemma {:induction false} AdvancePages(streams: map<u32, Stream>, pages: seq<Page>, crcs: seq<u32>)
    requires AllFit(pages) && |crcs| == |pages|
    ensures var r := RunPages(streams, pages);
      Advance(Core(AtHead, streams), EncodePages(pages, crcs)) == Outcome(Core(AtHead, r.0), [], r.1, None)
    decreases |pages|
  {
    hide EncodePage, PageStep;
    if pages != [] {
      AdvancePage(streams, pages[0], crcs[0], EncodePages(pages[1..], crcs[1..]));
      AdvancePages(PageStep(streams, pages[0]).0, pages[1..], crcs[1..]);
    }
  }

  // ---------------------------------------------------------------------------
  // One stream among many
  // ---------------------------------------------------------------------------

  function PagesOf(pages: seq<Page>, serial: u32): seq<Page> {
    if pages == [] then []
    else (if pages[0].serial == serial then [pages[0]] else []) + PagesOf(pages[1..], serial)
  }

  function DataOf(packets: seq<Packet>, serial: u32): seq<bytes> {
    if packets == [] then []
    else (if packets[0].serial == serial then [packets[0].data] else []) + DataOf(packets[1..], serial)
  }

  /** The pages of one stream through that stream alone. */
  function StreamRun(known: Option<Stream>, pages: seq<Page>): (Option<Stream>, seq<bytes>)
    requires AllFit(pages)
    decreases |pages|
  {
    if pages == [] then (known, [])
    else
      var one := StreamStep(known, pages[0]);
      var rest := StreamRun(one.0, pages[1..]);
      (rest.0, one.1 + rest.1)
  }

  lemma {:induction false} DataOfConcat(a: seq<Packet>, b: seq<Packet>, serial: u32)
    ensures DataOf(a + b, serial) == DataOf(a, serial) + DataOf(b, serial)
  {
    if a == [] {
      assert a + b == b;
    } else {
      assert (a + b)[1..] == a[1..] + b;
      DataOfConcat(a[1..], b, serial);
      var one := if a[0].serial == serial then [a[0].data] else [];
      assert one + (DataOf(a[1..], serial) + DataOf(b, serial)) == (one + DataOf(a[1..], serial)) + DataOf(b, serial);
    }
  }

  lemma {:induction false} DataOfPackets(serial: u32, granule: u64, data: seq<bytes>, other: u32)
    ensures DataOf(Packets(serial, granule, data), other) == if other == serial then data else []
  {
    if data != [] {
      assert Packets(serial, granule, data)[1..] == Packets(serial, granule, data[1..]);
      DataOfPackets(serial, granule, data[1..], other);
    }
  }

  lemma {:induction false} PagesOfFit(pages: seq<Page>, serial: u32)
    requires AllFit(pages)
    ensures AllFit(PagesOf(pages, serial))
  {
    if pages != [] {
      PagesOfFit(pages[1..], serial);
    }
  }

  /** One page through its own stream. */
  function StreamStep(known: Option<Stream>, p: Page): (Option<Stream>, seq<bytes>)
    requires Fits(p)
  {
    var s := Arrive(known, p.number);
    var done := Complete(s, p, p.body);
    (Some(s.(cache := done.1)), done.0)
  }

  lemma {:induction false} PageStepAlone(streams: map<u32, Stream>, p: Page, serial: u32)
    requires Fits(p)
    ensures var one, own := PageStep(streams, p), StreamStep(Known(streams, p.serial), p);
      && Known(one.0, serial) == (if p.serial == serial then own.0 else Known(streams, serial))
      && DataOf(one.1, serial) == (if p.serial == serial then own.1 else [])
  {
    hide Complete, Arrive, Sum;
    var s := Arrive(Known(streams, p.serial), p.number);
    DataOfPackets(p.serial, p.granule, Complete(s, p, p.body).0, serial);
  }

  /** Interleaving does not matter: each stream sees its own pages only. */
  lemma {:induction false} StreamAlone(streams: map<u32, Stream>, pages: seq<Page>, serial: u32)
    requires AllFit(pages)
    ensures AllFit(PagesOf(pages, serial))
    ensures var all, own := RunPages(streams, pages), StreamRun(Known(streams, serial), PagesOf(pages, serial));
      Known(all.0, serial) == own.0 && DataOf(all.1, serial) == own.1
    decreases |pages|
  {
    hide PageStep, StreamStep, Fits, Known;
    PagesOfFit(pages, serial);
    if pages != [] {
      var p := pages[0];
      var one := PageStep(streams, p);
      PageStepAlone(streams, p, serial);
      StreamAlone(one.0, pages[1..], serial);
      DataOfConcat(one.1, RunPages(one.0, pages[1..]).1, serial);
      if p.serial == serial {
        assert PagesOf(pages, serial)[0] == p && PagesOf(pages, serial)[1..] == PagesOf(pages[1..], serial);
      } else {
        assert PagesOf(pages, serial) == PagesOf(pages[1..], serial);
        var own := StreamRun(Known(streams, serial), PagesOf(pages, serial)).1;
        assert [] + own == own;
      }
    }
  }

  lemma {:induction false} StreamRunConcat(known: Option<Stream>, a: seq<Page>, b: seq<Page>)
    requires AllFit(a) && AllFit(b)
    ensures AllFit(a + b)
    ensures StreamRun(known, a + b)
            == (StreamRun(StreamRun(known, a).0, b).0, StreamRun(known, a).1 + StreamRun(StreamRun(known, a).0, b).1)
    decreases |a|
  {
    hide StreamStep, Fits;
    if a == [] {
      assert a + b == b;
      var r := StreamRun(known, b).1;
      assert [] + r == r;
    } else {
      assert (a + b)[0] == a[0] && (a + b)[1..] == a[1..] + b;
      var one := StreamStep(known, a[0]);
      StreamRunConcat(one.0, a[1..], b);
      var y, z := StreamRun(one.0, a[1..]).1, StreamRun(StreamRun(known, a).0, b).1;
      assert one.1 + (y + z) == (one.1 + y) + z;
    }
  }
}
