/** The Ogg muxer and demuxer, changing their streams in place. */
module OggObjects {
  import opened Bytes
  import opened Wrappers
  import opened OggPages
  import opened OggMux

  lemma {:induction false} LaceMore(segments: bytes, n: nat)
    requires n >= 255
    ensures segments + Lace(n) == (segments + [255]) + Lace(n - 255)
  {
    assert segments + ([255] + Lace(n - 255)) == (segments + [255]) + Lace(n - 255);
  }

  lemma {:induction false} FullMore(n: nat)
    ensures Full(n + 1) == Full(n) + [255]
  {
    if n > 0 {
      FullMore(n - 1);
    }
  }

  class MuxStream {
    const serial: u32
    var number: u32
    var head: bytes
    var ready: bool
    var started: bool
    var granule: u64
    var padding: u64
    var lastDur: u64
    var ended: bool
    var body: bytes
    var segments: bytes
    var pageGranule: u64
    var pageStart: u64
    var continued: bool
    var flushDue: bool

    ghost function S(): Track
      reads this
    {
      Track(serial, number, head, ready, started, granule, padding, lastDur, ended,
            body, segments, pageGranule, pageStart, continued, flushDue)
    }

    constructor (serial: u32, head: Option<bytes>)
      ensures S() == NewTrack(serial, head)
    {
      this.serial := serial;
      number, started, granule, padding, lastDur, ended := 0, false, 0, 0, 0, false;
      this.head, ready := if head.Some? then head.value else [], head.Some?;
      body, segments, pageGranule, pageStart, continued, flushDue := [], [], NO_GRANULE, 0, false, false;
    }

    /** Appends a whole packet to the open page. */
    method AddSegments(packet: bytes)
      modifies this`body, this`segments
      ensures S() == WithPacket(old(S()), packet)
    {
      hide Lace;
      body := body + packet;
      var n: nat := |packet|;
      while n >= 255
        invariant body == old(body) + packet && segments + Lace(n) == old(segments) + Lace(|packet|)
        decreases n
      {
        LaceMore(segments, n);
        segments := segments + [255];
        n := n - 255;
      }
      LastLace(n);
      segments := segments + [n];
    }

    /** Writes the open page. */
    method FlushPage(first: bool, last: bool) returns (p: Page)
      modifies this
      ensures p == PageOf(old(S()), first, last) && S() == Flushed(old(S()))
    {
      p := Page(continued, first, last, pageGranule, serial, number, segments, body);
      number := (number as int + 1) % TWO_32;
      body := [];
      segments := [];
      continued := false;
      pageGranule := NO_GRANULE;
      pageStart := granule;
    }

    /** Fills the rest of the open page with the start of a packet too long for it. */
    method FillPage(data: bytes) returns (rest: bytes)
      requires |segments| <= MAX_SEGMENTS && |data| / 255 + 1 > MAX_SEGMENTS - |segments|
      modifies this`body, this`segments
      ensures var room := MAX_SEGMENTS - |old(segments)|; var n := room * 255;
        && rest == data[n..]
        && S() == old(S()).(body := old(body) + data[..n], segments := old(segments) + Full(room))
    {
      hide Full;
      var room := MAX_SEGMENTS - |segments|;
      assert Full(0) == [] by { NoFull(); }
      assert segments + [] == segments && body + data[..0] == body && data[0..] == data;
      if room > 0 {
        var n := room * 255;
        body := body + data[..n];
        for i := 0 to room
          invariant body == old(body) + data[..n] && segments == old(segments) + Full(i)
        {
          FullMore(i);
          segments := segments + [255];
        }
        rest := data[n..];
      } else {
        rest := data;
      }
    }

    /** Writes the filled page; the packet goes on on the next. */
    method TurnPage(data: bytes) returns (page: Page, rest: bytes)
      requires |segments| <= MAX_SEGMENTS && |data| / 255 + 1 > MAX_SEGMENTS - |segments|
      modifies this
      ensures var room := MAX_SEGMENTS - |old(segments)|; var n := room * 255;
        var filled := old(S()).(body := old(body) + data[..n], segments := old(segments) + Full(room));
        rest == data[n..] && page == PageOf(filled, false, false) && S() == Flushed(filled).(continued := true)
      ensures segments == [] && |rest| <= |data| && (|rest| < |data| || |old(segments)| == MAX_SEGMENTS)
    {
      hide Full;
      rest := FillPage(data);
      page := FlushPage(false, false);
      continued := true;
    }

    /** The packet loop: pages leave while the packet does not fit what is left of the open one. */
    method AddAll(packet: bytes) returns (pages: seq<Page>)
      requires |segments| <= MAX_SEGMENTS
      modifies this
      ensures (S(), pages) == AddData(old(S()), packet)
    {
      hide Lace, Full, WithPacket, PageOf, Flushed;
      var data := packet;
      pages := [];
      assert [] + AddData(S(), data).1 == AddData(S(), data).1;
      while |data| / 255 + 1 > MAX_SEGMENTS - |segments|
        invariant |segments| <= MAX_SEGMENTS
        invariant AddData(old(S()), packet) == (AddData(S(), data).0, pages + AddData(S(), data).1)
        decreases |data|, |segments|
      {
        AddDataLong(S(), data, pages);
        var page;
        page, data := TurnPage(data);
        pages := pages + [page];
      }
      AddDataShort(S(), data);
      AddSegments(data);
      pageGranule := granule;
      assert pages + [] == pages;
    }

    method Begin(pts: u64)
      modifies this`started, this`granule, this`pageStart
      ensures S() == Begun(old(S()), pts)
    {
      if !started {
        started := true;
        granule := pts as int * 48 % TWO_64;
        pageStart := granule;
      }
    }

    method FlushDue() returns (pages: seq<Page>)
      modifies this
      ensures var t := old(S());
        && S() == (if t.flushDue then Flushed(t.(flushDue := false)) else t)
        && pages == if t.flushDue then [PageOf(t, false, false)] else []
    {
      pages := [];
      if flushDue {
        flushDue := false;
        var page := FlushPage(false, false);
        pages := [page];
      }
    }

    method SetTime(p: Source)
      modifies this`lastDur, this`granule, this`padding
      ensures S() == Timed(old(S()), p)
    {
      lastDur := p.duration;
      granule := (granule as int + lastDur as int) % TWO_64;
      padding := 0;
      if p.padding > 0 {
        padding := p.padding * 48000 % TWO_64 / 1_000_000_000;
      }
    }

    method AddPacket(p: Source) returns (pages: seq<Page>)
      requires |segments| <= MAX_SEGMENTS
      modifies this
      ensures (S(), pages) == OggMux.AddPacket(old(S()), p)
    {
      hide AddData, PageOf, Timed, Begun, Due;
      BegunKeeps(S(), p);
      Begin(p.pts);
      pages := FlushDue();
      TimedKeeps(S(), p);
      SetTime(p);
      var more := AddAll(p.data);
      pages := pages + more;
      assert Due(S()) == (|body| >= PAGE_TARGET_BYTES || (granule as int - pageStart as int) % TWO_64 >= PAGE_TARGET_SAMPLES) by {
        DueIs(S());
      }
      flushDue := |body| >= PAGE_TARGET_BYTES || (granule as int - pageStart as int) % TWO_64 >= PAGE_TARGET_SAMPLES;
    }

    /** The last page of the stream. */
    method Close() returns (p: Page)
      modifies this
      ensures (S(), p) == LastWritten(old(S()))
    {
      ended := true;
      pageGranule := granule;
      if padding > 0 && padding <= lastDur {
        pageGranule := (granule as int - padding as int) % TWO_64;
      }
      p := FlushPage(false, true);
    }

    method WriteHead() returns (p: Page)
      modifies this
      ensures (S(), p) == HeadWritten(old(S()))
    {
      hide WithPacket;
      AddSegments(head);
      pageGranule := 0;
      p := FlushPage(true, false);
    }

    method WriteTags() returns (p: Page)
      modifies this
      ensures (S(), p) == TagsWritten(old(S()))
    {
      hide WithPacket;
      AddSegments(TAGS);
      pageGranule := 0;
      p := FlushPage(false, false);
    }
  }

  function MarkedOne(t: Track): Track {
    if t.ready then t else t.(ended := true)
  }

  function Marked(tracks: seq<Track>): seq<Track> {
    seq(|tracks|, i requires 0 <= i < |tracks| => MarkedOne(tracks[i]))
  }

  /** The states of the streams. */
  ghost function Tracks(streams: seq<MuxStream>): (t: seq<Track>)
    reads streams
    ensures |t| == |streams| && forall i :: 0 <= i < |t| ==> t[i] == streams[i].S()
  {
    seq(|streams|, i requires 0 <= i < |streams| reads streams => streams[i].S())
  }

  ghost predicate Apart(streams: seq<MuxStream>) {
    forall i, j :: 0 <= i < j < |streams| ==> streams[i] != streams[j]
  }

  class Muxer {
    var streams: seq<MuxStream>
    var started: bool
    var finished: bool
    var pending: seq<Held>
    /** The pages written so far. */
    var out: seq<Page>

    ghost function S(): Mux
      reads this, streams
    {
      Mux(Tracks(streams), started, finished, pending)
    }

    ghost predicate Valid()
      reads this, streams
    {
      Apart(streams) && Small(S())
    }

    ghost predicate Light()
      reads this, streams
    {
      Apart(streams) && Bounded(Tracks(streams))
    }

    constructor ()
      ensures Valid() && S() == Mux([], false, false, []) && out == [] && streams == []
    {
      streams, started, finished, pending, out := [], false, false, [], [];
    }

    /** Serial numbers are drawn at random until they differ; here the caller brings one. */
    method AddOpusStream(serial: u32, head: Option<bytes>) returns (ok: bool)
      requires Valid()
      modifies this`streams
      ensures Valid() && ok == (!started && !finished) && old(streams) <= streams && fresh(streams[|old(streams)|..])
      ensures S() == if ok then old(S()).(tracks := old(S()).tracks + [NewTrack(serial, head)]) else old(S())
    {
      if started || finished {
        return false;
      }
      var s := new MuxStream(serial, head);
      streams := streams + [s];
      assert Tracks(streams) == old(Tracks(streams)) + [NewTrack(serial, head)];
      return true;
    }

    method FindStream(serial: u32) returns (i: nat)
      ensures i == OggMux.Find(Tracks(streams), serial)
    {
      ghost var t := Tracks(streams);
      i := 0;
      while i < |streams| && streams[i].serial != serial
        invariant i <= |streams| && OggMux.Find(t, serial) == i + OggMux.Find(t[i..], serial)
      {
        i := i + 1;
      }
    }

    /** Streams without a header by now are left out of the file. */
    method LeaveOut()
      requires Apart(streams)
      modifies streams
      ensures Tracks(streams) == Marked(old(Tracks(streams)))
    {
      for i := 0 to |streams|
        invariant forall k :: 0 <= k < i ==> streams[k].S() == MarkedOne(old(streams[k].S()))
        invariant forall k :: i <= k < |streams| ==> streams[k].S() == old(streams[k].S())
      {
        if !streams[i].ready {
          streams[i].ended := true;
        }
      }
    }

    method WriteHeads()
      requires Apart(streams) && LeftOut(Tracks(streams))
      modifies this`out, streams
      ensures var h := HeadsFrom(old(Tracks(streams)), 0); Tracks(streams) == h.0 && out == old(out) + h.1
    {
      hide HeadWritten, HeadsFrom;
      ghost var all := HeadsFrom(Tracks(streams), 0);
      ghost var sofar: seq<Page> := [];
      assert out == old(out) + sofar && sofar + all.1 == all.1;
      for i := 0 to |streams|
        invariant out == old(out) + sofar && After(sofar, HeadsFrom(Tracks(streams), i)) == all
        invariant LeftOut(Tracks(streams))
      {
        ghost var t := Tracks(streams);
        HeadsStep(t, i, sofar);
        if streams[i].ready {
          HeadKeeps(t[i]);
          var page := streams[i].WriteHead();
          out := out + [page];
          sofar := sofar + [page];
          assert Tracks(streams) == t[i := HeadWritten(t[i]).0];
        }
      }
      HeadsStep(Tracks(streams), |streams|, sofar);
    }

    method WriteAllTags()
      requires Apart(streams)
      modifies this`out, streams
      ensures var h := TagsFrom(old(Tracks(streams)), 0); Tracks(streams) == h.0 && out == old(out) + h.1
    {
      hide TagsWritten, TagsFrom;
      ghost var all := TagsFrom(Tracks(streams), 0);
      ghost var sofar: seq<Page> := [];
      assert out == old(out) + sofar && sofar + all.1 == all.1;
      for i := 0 to |streams|
        invariant out == old(out) + sofar && After(sofar, TagsFrom(Tracks(streams), i)) == all
      {
        ghost var t := Tracks(streams);
        TagsStep(t, i, sofar);
        if streams[i].ready {
          var page := streams[i].WriteTags();
          out := out + [page];
          sofar := sofar + [page];
          assert Tracks(streams) == t[i := TagsWritten(t[i]).0];
        }
      }
      TagsStep(Tracks(streams), |streams|, sofar);
    }

    method AddTo(i: nat, p: Source) returns (ok: bool)
      requires Light() && i < |streams|
      modifies this`out, streams
      ensures var r := OggMux.AddTo(old(Tracks(streams)), i, p);
        Tracks(streams) == r.0 && out == old(out) + r.1 && ok == r.2
      ensures Light()
    {
      hide OggMux.AddPacket;
      ghost var t := Tracks(streams);
      if streams[i].ended {
        return false;
      }
      var pages := streams[i].AddPacket(p);
      out := out + pages;
      assert Tracks(streams) == t[i := OggMux.AddPacket(t[i], p).0];
      return true;
    }

    method AddHeld(held: seq<Held>) returns (ok: bool)
      requires Light() && forall k :: 0 <= k < |held| ==> held[k].track < |streams|
      modifies this`out, streams
      ensures var r := OggMux.AddHeld(old(Tracks(streams)), held);
        Tracks(streams) == r.0 && out == old(out) + r.1 && ok == r.2
      ensures Light()
    {
      hide OggMux.AddTo, OggMux.AddHeld, Tracks;
      ghost var t := Tracks(streams);
      HeldNone(t);
      assert held[..0] == [] && out == out + [];
      ghost var before := OggMux.AddHeld(t, []);
      for n := 0 to |held|
        invariant Light() && before == OggMux.AddHeld(t, held[..n]) && before.2
        invariant Tracks(streams) == before.0 && out == old(out) + before.1
      {
        HeldStep(t, held, n);
        var added := AddTo(held[n].track, held[n].packet);
        before := OggMux.AddHeld(t, held[..n + 1]);
        if !added {
          HeldStops(t, held, n + 1);
          return false;
        }
      }
      assert held[..|held|] == held;
      return true;
    }

    method StartHeaders()
      requires Apart(streams)
      modifies this`out, streams
      ensures var h := HeadsFrom(old(Tracks(streams)), 0); var g := TagsFrom(h.0, 0);
        Tracks(streams) == g.0 && out == old(out) + (h.1 + g.1)
    {
      hide HeadsFrom, TagsFrom, LeftOut, Marked;
      ghost var t := Tracks(streams);
      LeaveOut();
      MarkedHeads(t, 0);
      MarkedLeftOut(t);
      WriteHeads();
      WriteAllTags();
    }

    /** Every header page comes before anything else, then the packets held back. */
    method Start() returns (ok: bool)
      requires Valid()
      modifies this, streams
      ensures Valid() && streams == old(streams)
      ensures var r := OggMux.Start(old(S())); S() == r.mux && out == old(out) + r.pages && ok == r.ok
    {
      hide HeadsFrom, TagsFrom, OggMux.AddHeld, OggMux.Start, Tracks;
      ghost var m, t := S(), Tracks(streams);
      StartIs(m);
      started := true;
      StartHeaders();
      assert Light() by {
        }
      var held := pending;
      pending := [];
      ok := AddHeld(held);
      assert out == old(out) + OggMux.Start(m).pages;
    }

    method MakeReady(i: nat, built: bytes)
      requires Valid() && i < |streams|
      modifies streams
      ensures Tracks(streams) == old(Tracks(streams))[i := Readied(old(Tracks(streams))[i], built)]
    {
      if !streams[i].ready {
        streams[i].head := built;
        streams[i].ready := true;
      }
    }

    method EveryReady() returns (all: bool)
      ensures all == AllReady(Tracks(streams))
    {
      all := true;
      for k := 0 to |streams|
        invariant all <==> forall j :: 0 <= j < k ==> streams[j].ready
      {
        all := all && streams[k].ready;
      }
    }

    /** Holds the packet back, or starts the file with it. */
    method Hold(i: nat, p: Source, built: bytes) returns (ok: bool)
      requires Valid() && !started && i < |streams|
      modifies this, streams
      ensures Valid() && streams == old(streams)
      ensures var r := WriteOne(old(S()), i, p, built); S() == r.mux && out == old(out) + r.pages && ok == r.ok
    {
      hide OggMux.Start, AllReady, Readied, Tracks;
      assert out == out + [];
      ghost var next := Waiting(S(), i, p, built);
      WaitingSmall(S(), i, p, built);
      MakeReady(i, built);
      pending := pending + [Held(i, p)];
      assert S() == next;
      var allReady := EveryReady();
      if !allReady && |pending| < MAX_PENDING {
        return true;
      }
      ok := Start();
    }

    method AddReady(i: nat, p: Source, built: bytes) returns (ok: bool)
      requires Valid() && started && i < |streams|
      modifies this`out, streams
      ensures Valid()
      ensures var r := WriteOne(old(S()), i, p, built); S() == r.mux && out == old(out) + r.pages && ok == r.ok
    {
      hide OggMux.AddTo, Readied;
      WaitingSmall(S(), i, p, built);
      ghost var t := Tracks(streams)[i := Readied(Tracks(streams)[i], built)];
      MakeReady(i, built);
      assert Tracks(streams) == t;
      ok := AddTo(i, p);
    }

    /** Write with the padding of the last packet; `built` is the header for a stream that came without one. */
    method WritePadded(serial: u32, p: Source, built: bytes) returns (ok: bool)
      requires Valid()
      modifies this, streams
      ensures Valid() && streams == old(streams)
      ensures var r := Do(old(S()), Write(serial, p, built)); S() == r.mux && out == old(out) + r.pages && ok == r.ok
    {
      hide WriteOne;
      assert out == out + [];
      if finished {
        return false;
      }
      var i := FindStream(serial);
      if i == |streams| || |p.data| == 0 {
        return false;
      }
      if !started {
        ok := Hold(i, p, built);
      } else {
        ok := AddReady(i, p, built);
      }
    }

    method CloseAll()
      requires Valid()
      modifies this`out, streams
      ensures Valid()
      ensures var h := LastFrom(old(Tracks(streams)), 0); Tracks(streams) == h.0 && out == old(out) + h.1
    {
      hide LastFrom, LastWritten, Tracks;
      ghost var t := Tracks(streams);
      LastSmall(t, 0);
      ghost var all := LastFrom(t, 0);
      ghost var sofar: seq<Page> := [];
      assert out == out + sofar && sofar + all.1 == all.1;
      for i := 0 to |streams|
        invariant out == old(out) + sofar && After(sofar, LastFrom(Tracks(streams), i)) == all
      {
        ghost var now := Tracks(streams);
        LastStep(now, i, sofar);
        if !streams[i].ended {
          var page := streams[i].Close();
          out := out + [page];
          sofar := sofar + [page];
          assert Tracks(streams) == now[i := LastWritten(now[i]).0];
        }
      }
      LastStep(Tracks(streams), |streams|, sofar);
    }

    method WriteTrailer() returns (ok: bool)
      requires Valid()
      modifies this, streams
      ensures Valid() && streams == old(streams)
      ensures var r := Do(old(S()), Trailer); S() == r.mux && out == old(out) + r.pages && ok == r.ok
    {
      hide OggMux.Start, LastFrom, Tracks;
      assert out == out + [];
      if finished {
        return true;
      }
      if !started {
        ok := Start();
        if !ok {
          return;
        }
      }
      finished := true;
      CloseAll();
      return true;
    }
  }

  lemma {:induction false} StartIs(m: Mux)
    requires Small(m)
    ensures var h := HeadsFrom(m.tracks, 0); var g := TagsFrom(h.0, 0);
      && Bounded(g.0)
      && var a := OggMux.AddHeld(g.0, m.pending);
         OggMux.Start(m) == Result(m.(tracks := a.0, started := true, pending := []), (h.1 + g.1) + a.1, a.2)
  {
    hide HeadsFrom, TagsFrom, OggMux.AddHeld;
    HeadsFromSmall(m.tracks, 0);
    TagsFromSmall(HeadsFrom(m.tracks, 0).0, 0);
  }

  lemma {:induction false} WaitingSmall(m: Mux, i: nat, p: Source, built: bytes)
    requires Small(m) && i < |m.tracks|
    ensures Small(Waiting(m, i, p, built))
  {
  }

  lemma {:induction false} HeldNone(t: seq<Track>)
    requires Bounded(t)
    ensures OggMux.AddHeld(t, []) == (t, [], true)
  {
  }

  lemma {:induction false} HeldStep(t: seq<Track>, held: seq<Held>, n: nat)
    requires Bounded(t)
    requires n < |held| && forall k :: 0 <= k < |held| ==> held[k].track < |t|
    ensures var before := OggMux.AddHeld(t, held[..n]);
      OggMux.AddHeld(t, held[..n + 1]) ==
        if !before.2 then before
        else
          var one := AddTo(before.0, held[n].track, held[n].packet);
          (one.0, before.1 + one.1, one.2)
  {
    assert held[..n + 1][..n] == held[..n];
  }

  lemma {:induction false} HeldStops(t: seq<Track>, held: seq<Held>, n: nat)
    requires Bounded(t)
    requires n <= |held| && forall k :: 0 <= k < |held| ==> held[k].track < |t|
    requires !OggMux.AddHeld(t, held[..n]).2
    ensures OggMux.AddHeld(t, held) == OggMux.AddHeld(t, held[..n])
    decreases |held| - n
  {
    hide AddTo;
    if n < |held| {
      HeldStep(t, held, n);
      HeldStops(t, held, n + 1);
    } else {
      assert held[..n] == held;
    }
  }

  lemma {:induction false} MarkedLeftOut(t: seq<Track>)
    ensures LeftOut(Marked(t))
  {
  }

  lemma {:induction false} MarkedHeads(t: seq<Track>, i: nat)
    requires i <= |t|
    ensures HeadsFrom(Marked(t), 0) == HeadsFrom(t, 0)
  {
    MarkedFrom(t, Marked(t), 0);
  }

  /** Whether the streams left out are marked first or on the way makes no difference. */
  lemma {:induction false} MarkedFrom(t: seq<Track>, u: seq<Track>, i: nat)
    requires i <= |t| == |u| && (forall k :: 0 <= k < i ==> u[k] == t[k]) && forall k :: i <= k < |t| ==> u[k] == MarkedOne(t[k])
    ensures HeadsFrom(u, i) == HeadsFrom(t, i)
    decreases |t| - i
  {
    hide HeadWritten;
    if i == |t| {
      assert u == t;
    } else if t[i].ready {
      MarkedFrom(t[i := HeadWritten(t[i]).0], u[i := HeadWritten(t[i]).0], i + 1);
    } else {
      MarkedFrom(t[i := t[i].(ended := true)], u[i := u[i].(ended := true)], i + 1);
    }
  }

  lemma {:induction false} LastSmall(t: seq<Track>, i: nat)
    requires i <= |t| && Bounded(t)
    ensures Bounded(LastFrom(t, i).0)
    decreases |t| - i
  {
    if i < |t| {
      LastSmall(if t[i].ended then t else t[i := LastWritten(t[i]).0], i + 1);
    }
  }

  lemma {:induction false} LastStep(t: seq<Track>, i: nat, sofar: seq<Page>)
    requires i <= |t|
    ensures i == |t| ==> After(sofar, LastFrom(t, i)) == (t, sofar)
    ensures i < |t| && t[i].ended ==> After(sofar, LastFrom(t, i)) == After(sofar, LastFrom(t, i + 1))
    ensures i < |t| && !t[i].ended ==>
      After(sofar, LastFrom(t, i)) == After(sofar + [LastWritten(t[i]).1], LastFrom(t[i := LastWritten(t[i]).0], i + 1))
  {
    hide LastWritten;
    assert sofar + [] == sofar;
    if i < |t| && !t[i].ended {
      var one := LastWritten(t[i]);
      var rest := LastFrom(t[i := one.0], i + 1).1;
      assert sofar + ([one.1] + rest) == (sofar + [one.1]) + rest;
    }
  }

  predicate LeftOut(tracks: seq<Track>) {
    forall i :: 0 <= i < |tracks| && !tracks[i].ready ==> tracks[i].ended
  }

  function After(sofar: seq<Page>, r: (seq<Track>, seq<Page>)): (seq<Track>, seq<Page>) {
    (r.0, sofar + r.1)
  }

  lemma {:induction false} HeadKeeps(t: Track)
    ensures HeadWritten(t).0.ready == t.ready
  {
  }

  lemma {:induction false} HeadsStep(t: seq<Track>, i: nat, sofar: seq<Page>)
    requires i <= |t| && LeftOut(t)
    ensures i == |t| ==> After(sofar, HeadsFrom(t, i)) == (t, sofar)
    ensures i < |t| && !t[i].ready ==> After(sofar, HeadsFrom(t, i)) == After(sofar, HeadsFrom(t, i + 1))
    ensures i < |t| && t[i].ready ==>
      After(sofar, HeadsFrom(t, i)) == After(sofar + [HeadWritten(t[i]).1], HeadsFrom(t[i := HeadWritten(t[i]).0], i + 1))
  {
    hide HeadWritten;
    assert sofar + [] == sofar;
    if i < |t| {
      if t[i].ready {
        var one := HeadWritten(t[i]);
        var rest := HeadsFrom(t[i := one.0], i + 1).1;
        assert sofar + ([one.1] + rest) == (sofar + [one.1]) + rest;
      } else {
        assert t[i := t[i].(ended := true)] == t;
      }
    }
  }

  lemma {:induction false} TagsStep(t: seq<Track>, i: nat, sofar: seq<Page>)
    requires i <= |t|
    ensures i == |t| ==> After(sofar, TagsFrom(t, i)) == (t, sofar)
    ensures i < |t| && !t[i].ready ==> After(sofar, TagsFrom(t, i)) == After(sofar, TagsFrom(t, i + 1))
    ensures i < |t| && t[i].ready ==>
      After(sofar, TagsFrom(t, i)) == After(sofar + [TagsWritten(t[i]).1], TagsFrom(t[i := TagsWritten(t[i]).0], i + 1))
  {
    hide TagsWritten;
    assert sofar + [] == sofar;
    if i < |t| && t[i].ready {
      var one := TagsWritten(t[i]);
      var rest := TagsFrom(t[i := one.0], i + 1).1;
      assert sofar + ([one.1] + rest) == (sofar + [one.1]) + rest;
    }
  }

  lemma {:induction false} BegunKeeps(t: Track, p: Source)
    ensures Begun(t, p.pts).segments == t.segments
  {
  }

  lemma {:induction false} TimedKeeps(t: Track, p: Source)
    ensures Timed(t, p).segments == t.segments
  {
  }

  lemma {:induction false} DueIs(t: Track)
    ensures Due(t) <==> |t.body| >= PAGE_TARGET_BYTES || (t.granule as int - t.pageStart as int) % TWO_64 >= PAGE_TARGET_SAMPLES
  {
  }

  lemma {:induction false} LastLace(n: nat)
    requires n < 255
    ensures Lace(n) == [n]
  {
  }

  lemma {:induction false} NoFull()
    ensures Full(0) == []
  {
  }

  lemma {:induction false} AddDataShort(t: Track, data: bytes)
    requires |t.segments| <= MAX_SEGMENTS && |data| / 255 + 1 <= MAX_SEGMENTS - |t.segments|
    ensures AddData(t, data) == (WithPacket(t, data).(pageGranule := t.granule), [])
  {
  }

  lemma {:induction false} AddDataLong(t: Track, data: bytes, pages: seq<Page>)
    requires |t.segments| <= MAX_SEGMENTS && |data| / 255 + 1 > MAX_SEGMENTS - |t.segments|
    ensures var room := MAX_SEGMENTS - |t.segments|; var n := room * 255;
      var filled := t.(body := t.body + data[..n], segments := t.segments + Full(room));
      var next := Flushed(filled).(continued := true);
      && AddData(t, data).0 == AddData(next, data[n..]).0
      && pages + AddData(t, data).1 == (pages + [PageOf(filled, false, false)]) + AddData(next, data[n..]).1
  {
    hide Lace, Full;
  }
}
