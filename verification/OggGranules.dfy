/** The time stamps on a stream's pages never go backwards. */
module OggGranules {
  import opened Bytes
  import opened Wrappers
  import opened OggPages
  import opened OggMux
  import opened OggReader
  import opened OggRoundTrip
  import opened OggInterleave

  /** A packet ends among these segments. */
  predicate Ends(segments: bytes) {
    segments != [] && (segments[0] < 255 || Ends(segments[1..]))
  }

  /** A page carries a granule exactly when a packet ends on it. */
  predicate Stamped(p: Page) {
    p.granule == NO_GRANULE <==> !Ends(p.segments)
  }

  /** The granule in force after the pages, if all are stamped and granules never go backwards from `floor`. */
  function Rise(pages: seq<Page>, floor: int): Option<int>
    decreases |pages|
  {
    if pages == [] then Some(floor)
    else if !Stamped(pages[0]) then None
    else if pages[0].granule == NO_GRANULE then Rise(pages[1..], floor)
    else if pages[0].granule < floor then None
    else Rise(pages[1..], pages[0].granule)
  }

  /** When the last of the packets ends, in samples. */
  function EndTime(packets: seq<Source>): nat {
    if packets == [] then 0
    else if |packets| == 1 then packets[0].pts as int * 48 + packets[0].duration as int
    else EndTime(packets[..|packets| - 1]) + packets[|packets| - 1].duration as int
  }

  lemma {:induction false} RiseConcat(a: seq<Page>, b: seq<Page>, floor: int)
    requires Rise(a, floor).Some?
    ensures Rise(a + b, floor) == Rise(b, Rise(a, floor).value)
    decreases |a|
  {
    hide Stamped;
    if a == [] {
      assert a + b == b;
    } else {
      assert (a + b)[0] == a[0] && (a + b)[1..] == a[1..] + b;
      RiseConcat(a[1..], b, if a[0].granule == NO_GRANULE then floor else a[0].granule);
    }
  }

  lemma {:induction false} EndsFull(segments: bytes, n: nat)
    ensures Ends(segments + Full(n)) == Ends(segments)
    decreases |segments|, n
  {
    if segments == [] {
      assert segments + Full(n) == Full(n);
      if n > 0 {
        assert Full(n)[1..] == [] + Full(n - 1);
        EndsFull([], n - 1);
      }
    } else {
      assert (segments + Full(n))[1..] == segments[1..] + Full(n);
      EndsFull(segments[1..], n);
    }
  }

  lemma {:induction false} EndsLaced(segments: bytes, size: nat)
    ensures Ends(segments + Lace(size))
    decreases |segments|, size
  {
    if segments == [] {
      assert segments + Lace(size) == Lace(size);
      if size >= 255 {
        assert Lace(size)[1..] == [] + Lace(size - 255);
        EndsLaced([], size - 255);
      }
    } else {
      assert (segments + Lace(size))[1..] == segments[1..] + Lace(size);
      EndsLaced(segments[1..], size);
    }
  }

  /** The open page has a granule exactly when a packet ends on it, and one between what was written and `now`. */
  predicate Timely(t: Track, floor: int, now: int) {
    if t.pageGranule == NO_GRANULE then !Ends(t.segments) && floor <= now
    else Ends(t.segments) && floor <= t.pageGranule <= now
  }

  lemma {:induction false} OnePageRises(t: Track, p: Page, floor: int, now: int)
    requires Timely(t, floor, now) && p == PageOf(t, p.first, p.last)
    ensures Rise([p], floor).Some? && floor <= Rise([p], floor).value <= now
    ensures Timely(Flushed(t).(continued := true), Rise([p], floor).value, now) && Timely(Flushed(t), Rise([p], floor).value, now)
  {
    assert [p][1..] == [];
    assert !Ends([]);
  }

  lemma {:induction false} AddDataRises(t: Track, data: bytes, floor: int, now: int)
    requires |t.segments| <= MAX_SEGMENTS && Timely(t, floor, now) && now <= t.granule < NO_GRANULE
    ensures var r := AddData(t, data);
      && Rise(r.1, floor).Some? && Rise(r.1, floor).value <= now
      && Ends(r.0.segments)
      && r.0.pageGranule == r.0.granule == t.granule && r.0.lastDur == t.lastDur && r.0.padding == t.padding && r.0.started == t.started
    decreases |data|, |t.segments|
  {
    hide Rise, Ends, Lace, Full;
    var room := MAX_SEGMENTS - |t.segments|;
    RiseNothing(floor);
    if |data| / 255 + 1 > room {
      var n := room * 255;
      var filled := t.(body := t.body + data[..n], segments := t.segments + Full(room));
      EndsFull(t.segments, room);
      var page := PageOf(filled, false, false);
      OnePageRises(filled, page, floor, now);
      var next := Flushed(filled).(continued := true);
      AddDataRises(next, data[n..], Rise([page], floor).value, now);
      RiseConcat([page], AddData(next, data[n..]).1, floor);
    } else {
      EndsLaced(t.segments, |data|);
    }
  }

  lemma {:induction false} RiseNothing(floor: int)
    ensures Rise([], floor) == Some(floor)
  {
  }

  /** A stream between packets: nothing written is later than where its last packet began. */
  predicate OnTime(t: Track, floor: int) {
    floor <= t.granule as int - t.lastDur as int && Timely(t, floor, t.granule)
  }

  lemma {:induction false} StillTimely(t: Track, u: Track, floor: int, was: int, now: int)
    requires Timely(t, floor, was) && was <= now && u.pageGranule == t.pageGranule && u.segments == t.segments
    ensures Timely(u, floor, now)
  {
  }

  lemma {:induction false} EndsTimely(t: Track, floor: int)
    requires t.pageGranule == t.granule < NO_GRANULE && floor <= t.granule as int - t.lastDur as int && Ends(t.segments)
    ensures OnTime(t, floor)
  {
  }

  lemma {:induction false} AddPacketRises(t: Track, p: Source, floor: int, begin: int)
    requires |t.segments| <= MAX_SEGMENTS && OnTime(t, floor)
    requires begin == (if t.started then t.granule else p.pts as int * 48)
    requires begin + p.duration as int < NO_GRANULE && t.granule <= begin
    ensures var r := AddPacket(t, p);
      && Rise(r.1, floor).Some? && OnTime(r.0, Rise(r.1, floor).value)
      && r.0.granule == begin + p.duration as int && r.0.started && Ends(r.0.segments)
      && r.0.lastDur == p.duration && r.0.padding == SamplesOf(p.padding)
  {
    hide Rise, Ends, AddData, Timely;
    var t1 := Begun(t, p.pts);
    var g := begin;
    assert t1.granule == g;
    StillTimely(t, t1, floor, t.granule, g);
    var t2 := if t1.flushDue then Flushed(t1.(flushDue := false)) else t1;
    var first := if t1.flushDue then [PageOf(t1, false, false)] else [];
    RiseNothing(floor);
    if t1.flushDue {
      OnePageRises(t1, PageOf(t1, false, false), floor, g);
    }
    var f1 := Rise(first, floor).value;
    var timed := Timed(t2, p);
    assert timed.granule == g + p.duration as int;
    StillTimely(if t1.flushDue then Flushed(t1) else t1, timed, f1, g, g);
    AddDataRises(timed, p.data, f1, g);
    var done := AddData(timed, p.data);
    RiseConcat(first, done.1, floor);
    EndsTimely(done.0.(flushDue := Due(done.0)), Rise(done.1, f1).value);
  }

  lemma {:induction false} AddPacketsRise(t: Track, packets: seq<Source>)
    requires |t.segments| <= MAX_SEGMENTS && OnTime(t, 0) && !t.started && t.granule == 0 && t.lastDur == 0 && t.padding == 0
    requires EndTime(packets) < NO_GRANULE
    ensures var r := AddPackets(t, packets);
      && Rise(r.1, 0).Some? && OnTime(r.0, Rise(r.1, 0).value)
      && r.0.granule == EndTime(packets) && (r.0.started <==> packets != []) && (packets != [] ==> Ends(r.0.segments))
      && r.0.lastDur == (if packets == [] then 0 else packets[|packets| - 1].duration)
      && r.0.padding == (if packets == [] then 0 else SamplesOf(packets[|packets| - 1].padding))
    decreases |packets|
  {
    hide Rise, AddPacket, Timely, Ends;
    RiseNothing(0);
    if packets != [] {
      var n := |packets| - 1;
      AddPacketsRise(t, packets[..n]);
      var before := AddPackets(t, packets[..n]);
      var f := Rise(before.1, 0).value;
      AddPacketRises(before.0, packets[n], f, if n == 0 then packets[0].pts as int * 48 else before.0.granule);
      RiseConcat(before.1, AddPacket(before.0, packets[n]).1, 0);
    }
  }

  lemma {:induction false} RiseUp(pages: seq<Page>, floor: int)
    ensures Rise(pages, floor).Some? ==> floor <= Rise(pages, floor).value
    decreases |pages|
  {
    hide Stamped;
    if pages != [] {
      RiseUp(pages[1..], if pages[0].granule == NO_GRANULE then floor else pages[0].granule);
    }
  }

  /** How much of the end is cut off: the last packet's padding, when it is within the packet. */
  function Trim(packets: seq<Source>): nat {
    if packets == [] then 0
    else
      var p := packets[|packets| - 1];
      if SamplesOf(p.padding) <= p.duration then SamplesOf(p.padding) else 0
  }

  /**
   * On all pages of a stream with packets, a page carries a granule exactly when a packet ends on
   * it, granules never decrease, and the last is the end of the stream less the padding of its
   * last packet.
   */
  lemma {:induction false} GranulesRise(serial: u32, head: bytes, packets: seq<Source>)
    requires packets != [] && EndTime(packets) < NO_GRANULE
    ensures Rise(Life(NewTrack(serial, Some(head)), packets), 0) == Some(EndTime(packets) - Trim(packets))
  {
    hide Ends, AddPackets, Rise, Lace;
    var n := NewTrack(serial, Some(head));
    OpenedSegments(n);
    OpenedRises(n);
    var begun := Opened(n);
    AddPacketsRise(begun.0, packets);
    var filled := AddPackets(begun.0, packets);
    RiseConcat(begun.1, filled.1, 0);
    var last := LastWritten(filled.0).1;
    RiseUp(filled.1, 0);
    LastRises(filled.0, Rise(filled.1, 0).value);
    RiseConcat(begun.1 + filled.1, [last], 0);
  }

  /** The pages of a stream without packets: its headers, and a page on which nothing ends and that carries a granule all the same. */
  predicate HeadersOnly(pages: seq<Page>) {
    && |pages| == 3 && Rise(pages[..2], 0) == Some(0)
    && pages[2].last && pages[2].segments == [] && pages[2].granule == 0 && !Stamped(pages[2])
  }

  /** Such a stream ends with a page that breaks the rule. */
  lemma {:induction false} EmptyStreamStamped(serial: u32, head: bytes)
    ensures HeadersOnly(Life(NewTrack(serial, Some(head)), []))
    ensures Rise(Life(NewTrack(serial, Some(head)), []), 0) == None
  {
    hide Ends, Rise, Lace;
    var n := NewTrack(serial, Some(head));
    OpenedSegments(n);
    OpenedRises(n);
    NoEnd();
    var begun := Opened(n);
    var last := LastWritten(begun.0).1;
    assert AddPackets(begun.0, []) == (begun.0, []);
    var pages := Life(n, []);
    assert pages == begun.1 + [last] && pages[..2] == begun.1;
    RiseConcat(begun.1, [last], 0);
    UnstampedStops(last);
  }

  lemma {:induction false} UnstampedStops(p: Page)
    ensures !Stamped(p) ==> Rise([p], 0) == None
  {
    hide Stamped;
  }

  lemma {:induction false} OpenedRises(n: Track)
    requires n == NewTrack(n.serial, Some(n.head))
    ensures var o := Opened(n);
      && Rise(o.1, 0) == Some(0) && OnTime(o.0, 0) && !o.0.started && o.0.granule == 0 && o.0.lastDur == 0 && o.0.padding == 0
  {
    hide Lace, Ends;
    NoEnd();
    EndsLaced([], |n.head|);
    EndsLaced([], |TAGS|);
    assert [] + Lace(|n.head|) == Lace(|n.head|) && [] + Lace(|TAGS|) == Lace(|TAGS|);
    var o := Opened(n);
    assert o.1[1..] == [o.1[1]] && [o.1[1]][1..] == [];
    assert Rise([o.1[1]], 0) == Rise([], 0) == Some(0);
  }

  lemma {:induction false} NoEnd()
    ensures !Ends([])
  {
  }

  lemma {:induction false} LastRises(t: Track, floor: int)
    requires OnTime(t, floor) && 0 <= floor && t.granule < NO_GRANULE && Ends(t.segments)
    ensures Rise([LastWritten(t).1], floor)
            == Some(t.granule as int - if t.padding <= t.lastDur then t.padding as int else 0)
  {
    assert [LastWritten(t).1][1..] == [];
    hide Ends;
  }

  /** The same in a file of many streams, whatever was written in between. */
  lemma {:induction false} FileGranulesRise(m: Mux, ops: seq<Op>, k: nat)
    requires Small(m) && Initial(m) && AllOpsFit(ops) && k < |m.tracks| && EndTime(Accepted(m, ops, k)) < NO_GRANULE
    ensures var own := PagesOf(RunOps(m, ops + [Trailer]).1, m.tracks[k].serial); var packets := Accepted(m, ops, k);
      && AllFit(own)
      && if packets != [] then Rise(own, 0) == Some(EndTime(packets) - Trim(packets)) else own == [] || HeadersOnly(own)
  {
    hide Rise, Life, RunOps, EndTime, HeadersOnly;
    EndTold(m, ops, k);
    var end := RunOps(m, ops + [Trailer]);
    PagesOfFit(end.1, m.tracks[k].serial);
    var head := end.0.tracks[k].head;
    if Accepted(m, ops, k) == [] {
      EmptyStreamStamped(m.tracks[k].serial, head);
    } else {
      GranulesRise(m.tracks[k].serial, head, Accepted(m, ops, k));
    }
  }
}
