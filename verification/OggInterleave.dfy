/** Several streams in one file: what the muxer does to each is what it would do alone. */
module OggInterleave {
  import opened Bytes
  import opened Wrappers
  import opened OggPages
  import opened OggReader
  import opened OggMux
  import opened OggRoundTrip

  predicate DistinctSerials(tracks: seq<Track>) {
    forall i, j :: 0 <= i < j < |tracks| ==> tracks[i].serial != tracks[j].serial
  }

  predicate SameSerials(a: seq<Track>, b: seq<Track>) {
    |a| == |b| && forall i :: 0 <= i < |a| ==> a[i].serial == b[i].serial
  }

  predicate AllOf(pages: seq<Page>, serial: u32) {
    forall i :: 0 <= i < |pages| ==> pages[i].serial == serial
  }

  lemma {:induction false} PagesOfConcat(a: seq<Page>, b: seq<Page>, serial: u32)
    ensures PagesOf(a + b, serial) == PagesOf(a, serial) + PagesOf(b, serial)
  {
    if a == [] {
      assert a + b == b;
    } else {
      assert (a + b)[1..] == a[1..] + b;
      PagesOfConcat(a[1..], b, serial);
      var one := if a[0].serial == serial then [a[0]] else [];
      assert one + (PagesOf(a[1..], serial) + PagesOf(b, serial)) == (one + PagesOf(a[1..], serial)) + PagesOf(b, serial);
    }
  }

  lemma {:induction false} PagesOfAll(pages: seq<Page>, serial: u32, other: u32)
    requires AllOf(pages, serial)
    ensures PagesOf(pages, other) == if other == serial then pages else []
  {
    if pages != [] {
      PagesOfAll(pages[1..], serial, other);
    }
  }

  lemma {:induction false} PagesOfNone(serial: u32)
    ensures PagesOf([], serial) == []
  {
  }

  lemma {:induction false} PagesOfCons(p: Page, rest: seq<Page>, serial: u32)
    ensures PagesOf([p] + rest, serial) == if p.serial == serial then [p] + PagesOf(rest, serial) else PagesOf(rest, serial)
  {
    assert ([p] + rest)[1..] == rest;
  }

  lemma {:induction false} AllFitConcat(a: seq<Page>, b: seq<Page>)
    requires AllFit(a) && AllFit(b)
    ensures AllFit(a + b)
  {
  }

  // ---------------------------------------------------------------------------
  // Steps of one track
  // ---------------------------------------------------------------------------

  /** What adding packets leaves alone. */
  predicate SameTrack(t: Track, u: Track) {
    u.serial == t.serial && u.head == t.head && u.ready == t.ready && u.ended == t.ended
  }

  lemma {:induction false} AddDataKeeps(t: Track, data: bytes)
    requires |t.segments| <= MAX_SEGMENTS
    ensures SameTrack(t, AddData(t, data).0)
    decreases |data|, |t.segments|
  {
    hide Lace, Full;
    var room := MAX_SEGMENTS - |t.segments|;
    if |data| / 255 + 1 > room {
      var n := room * 255;
      var filled := t.(body := t.body + data[..n], segments := t.segments + Full(room));
      AddDataKeeps(Flushed(filled).(continued := true), data[n..]);
    }
  }

  lemma {:induction false} AddPacketKeeps(t: Track, p: Source)
    requires Laced(t)
    ensures var r := AddPacket(t, p);
      SameTrack(t, r.0) && Laced(r.0) && AllFit(r.1) && AllOf(r.1, t.serial)
  {
    hide AddData, Sum;
    var t1 := Begun(t, p.pts);
    var t2 := if t1.flushDue then Flushed(t1.(flushDue := false)) else t1;
    assert Sum([]) == 0 by { NoSum(); }
    var timed := Timed(t2, p);
    AddDataKeeps(timed, p.data);
    var pages := AddData(timed, p.data).1;
    AddDataLaced(timed, p.data, 0);
    forall i | 0 <= i < |pages|
      ensures Fits(pages[i]) && pages[i].serial == t.serial
    {
      AddDataLaced(timed, p.data, i);
    }
  }

  lemma {:induction false} NoSum()
    ensures Sum([]) == 0
  {
  }

  lemma {:induction false} HeaderKeeps(t: Track, data: bytes, first: bool)
    requires t.segments == [] && t.body == [] && HeadFits(data)
    ensures var w := WithHeader(t, data);
      Laced(w) && Fits(PageOf(w, first, false)) && Laced(Flushed(w)) && SameTrack(t, Flushed(w)) && Flushed(w).segments == [] && Flushed(w).body == []
  {
    hide Sum;
    NoSum();
    WithPacketLaced(t, data);
  }

  // ---------------------------------------------------------------------------
  // The file's start, seen by one track
  // ---------------------------------------------------------------------------

  /** A track about to get its headers. */
  predicate Bare(t: Track) {
    t.segments == [] && t.body == [] && HeadFits(t.head)
  }

  predicate AllBare(tracks: seq<Track>) {
    forall i :: 0 <= i < |tracks| ==> Bare(tracks[i])
  }

  lemma {:induction false} HeaderFacts(t: Track)
    requires Bare(t)
    ensures var h, g := HeadWritten(t), TagsWritten(t);
      && h.1.serial == t.serial && Fits(h.1) && Bare(h.0) && SameTrack(t, h.0)
      && g.1.serial == t.serial && Fits(g.1) && Bare(g.0) && SameTrack(t, g.0)
  {
    HeaderKeeps(t, t.head, true);
    HeaderKeeps(t, TAGS, false);
  }

  lemma {:induction false} HeadsAlone(tracks: seq<Track>, i: nat, k: nat)
    requires i <= |tracks| && k < |tracks| && DistinctSerials(tracks) && AllBare(tracks)
    ensures var r := HeadsFrom(tracks, i);
      && SameSerials(tracks, r.0) && AllBare(r.0) && AllFit(r.1)
      && r.0[k] == (if k < i then tracks[k] else if tracks[k].ready then HeadWritten(tracks[k]).0 else tracks[k].(ended := true))
      && PagesOf(r.1, tracks[k].serial) == (if k >= i && tracks[k].ready then [HeadWritten(tracks[k]).1] else [])
    decreases |tracks| - i
  {
    hide HeadWritten, Fits, PagesOf;
    PagesOfNone(tracks[k].serial);
    if i < |tracks| {
      var t := tracks[i];
      HeaderFacts(t);
      var next := tracks[i := if t.ready then HeadWritten(t).0 else t.(ended := true)];
      HeadsAlone(next, i + 1, k);
      PagesOfCons(HeadWritten(t).1, HeadsFrom(next, i + 1).1, tracks[k].serial);
    }
  }

  lemma {:induction false} TagsAlone(tracks: seq<Track>, i: nat, k: nat)
    requires i <= |tracks| && k < |tracks| && DistinctSerials(tracks) && AllBare(tracks)
    ensures var r := TagsFrom(tracks, i);
      && SameSerials(tracks, r.0) && AllBare(r.0) && AllFit(r.1)
      && r.0[k] == (if k >= i && tracks[k].ready then TagsWritten(tracks[k]).0 else tracks[k])
      && PagesOf(r.1, tracks[k].serial) == (if k >= i && tracks[k].ready then [TagsWritten(tracks[k]).1] else [])
    decreases |tracks| - i
  {
    hide TagsWritten, Fits, PagesOf;
    PagesOfNone(tracks[k].serial);
    if i < |tracks| {
      var t := tracks[i];
      HeaderFacts(t);
      var next := if t.ready then tracks[i := TagsWritten(t).0] else tracks;
      TagsAlone(next, i + 1, k);
      PagesOfCons(TagsWritten(t).1, TagsFrom(next, i + 1).1, tracks[k].serial);
    }
  }

  lemma {:induction false} LastAlone(tracks: seq<Track>, i: nat, k: nat)
    requires i <= |tracks| && k < |tracks| && DistinctSerials(tracks) && forall j :: 0 <= j < |tracks| ==> Laced(tracks[j])
    ensures var r := LastFrom(tracks, i);
      && SameSerials(tracks, r.0) && AllFit(r.1) && (forall j :: 0 <= j < |tracks| ==> Laced(r.0[j]))
      && PagesOf(r.1, tracks[k].serial) == (if k >= i && !tracks[k].ended then [LastWritten(tracks[k]).1] else [])
    decreases |tracks| - i
  {
    hide Sum;
    NoSum();
    if i < |tracks| {
      LastAlone(if tracks[i].ended then tracks else tracks[i := LastWritten(tracks[i]).0], i + 1, k);
    }
  }

  function HeldFor(held: seq<Held>, k: nat): seq<Source> {
    if held == [] then []
    else HeldFor(held[..|held| - 1], k) + if held[|held| - 1].track == k then [held[|held| - 1].packet] else []
  }

  lemma {:induction false} AddHeldAlone(tracks: seq<Track>, held: seq<Held>, k: nat)
    requires k < |tracks| && DistinctSerials(tracks) && forall j :: 0 <= j < |tracks| ==> Laced(tracks[j])
    requires Bounded(tracks)
    requires forall j :: 0 <= j < |held| ==> held[j].track < |tracks| && !tracks[held[j].track].ended
    ensures var r := AddHeld(tracks, held); var own := AddPackets(tracks[k], HeldFor(held, k));
      && r.2 && AllFit(r.1) && |r.0| == |tracks| && (forall j :: 0 <= j < |tracks| ==> Laced(r.0[j]) && SameTrack(tracks[j], r.0[j]))
      && r.0[k] == own.0 && PagesOf(r.1, tracks[k].serial) == own.1
    decreases |held|
  {
    hide AddPacket, Laced;
    LacedSmall(tracks);
    if held != [] {
      var n := |held| - 1;
      var i := held[n].track;
      assert !tracks[i].ended;
      AddHeldAlone(tracks, held[..n], k);
      var before := AddHeld(tracks, held[..n]);
      AddPacketKeeps(before.0[i], held[n].packet);
      var one := AddPacket(before.0[i], held[n].packet);
      PagesOfConcat(before.1, one.1, tracks[k].serial);
      PagesOfAll(one.1, before.0[i].serial, tracks[k].serial);
      var own := HeldFor(held[..n], k);
      if i == k {
        assert HeldFor(held, k)[..|own|] == own && HeldFor(held, k)[|own|] == held[n].packet;
      } else {
        assert own + [] == own;
        var pages := PagesOf(before.1, tracks[k].serial);
        assert pages + [] == pages;
      }
    }
  }

  lemma {:induction false} LacedSmall(tracks: seq<Track>)
    requires forall j :: 0 <= j < |tracks| ==> Laced(tracks[j])
    ensures Bounded(tracks)
  {
  }

  // ---------------------------------------------------------------------------
  // Whole runs
  // ---------------------------------------------------------------------------

  /** A file about to be written: streams with distinct serials, some with their header already. */
  predicate Initial(m: Mux) {
    && !m.started && !m.finished && m.pending == [] && DistinctSerials(m.tracks)
    && forall i :: 0 <= i < |m.tracks| ==> FreshTrack(m.tracks[i])
  }

  predicate FreshTrack(t: Track) {
    t == NewTrack(t.serial, if t.ready then Some(t.head) else None) && HeadFits(t.head)
  }

  predicate OpFits(op: Op) {
    op.Write? ==> HeadFits(op.built)
  }

  /** What holds between calls. */
  ghost predicate Good(m: Mux) {
    && Small(m) && DistinctSerials(m.tracks)
    && (forall i :: 0 <= i < |m.tracks| ==> Laced(m.tracks[i]))
    && (!m.started ==> !m.finished && forall i :: 0 <= i < |m.tracks| ==> FreshTrack(m.tracks[i]))
    && (m.started ==> m.pending == [])
    && (forall i :: 0 <= i < |m.pending| ==> m.tracks[m.pending[i].track].ready)
  }

  /** A stream's story so far: the packets accepted for it, on its pages or still to come; h0 is the header it came with. */
  ghost predicate Told(m: Mux, pages: seq<Page>, k: nat, accepted: seq<Source>, h0: Option<bytes>)
    requires k < |m.tracks| && Good(m)
  {
    var t := m.tracks[k];
    var n := NewTrack(t.serial, Some(t.head));
    var own := PagesOf(pages, t.serial);
    if !m.started then
      own == [] && HeldFor(m.pending, k) == accepted && (accepted != [] ==> t.ready)
      && (h0.Some? ==> t.ready && t.head == h0.value)
    else if m.finished then
      || (own == [] && accepted == [] && h0.None?)
      || (HeadFits(t.head) && own == Life(n, accepted) && (h0.Some? ==> t.head == h0.value))
    else
      || (own == [] && accepted == [] && t.ended && h0.None?)
      || (HeadFits(t.head) && !t.ended && Written(n, accepted) == (t, own) && (h0.Some? ==> t.head == h0.value))
  }

  /** A stream opened and given packets. */
  function Written(t: Track, packets: seq<Source>): (Track, seq<Page>) {
    OpenedSegments(t);
    var begun := Opened(t);
    var filled := AddPackets(begun.0, packets);
    (filled.0, begun.1 + filled.1)
  }

  /** The headers of every stream, seen by one. */
  lemma {:induction false} OpenedAlone(tracks: seq<Track>, k: nat)
    requires k < |tracks| && DistinctSerials(tracks) && AllBare(tracks)
    ensures var heads := HeadsFrom(tracks, 0); var tags := TagsFrom(heads.0, 0); var t := tracks[k];
      && SameSerials(tracks, tags.0) && AllBare(tags.0) && AllFit(heads.1 + tags.1)
      && tags.0[k] == (if t.ready then Opened(t).0 else t.(ended := true))
      && PagesOf(heads.1 + tags.1, t.serial) == (if t.ready then Opened(t).1 else [])
      && tags.0[k].head == t.head && tags.0[k].serial == t.serial && (t.ready ==> tags.0[k].ended == t.ended)
  {
    hide HeadsFrom, TagsFrom, WithHeader, Fits;
    HeadsAlone(tracks, 0, k);
    var heads := HeadsFrom(tracks, 0);
    TagsAlone(heads.0, 0, k);
    var tags := TagsFrom(heads.0, 0);
    PagesOfConcat(heads.1, tags.1, tracks[k].serial);
    HeaderKeeps(tracks[k], tracks[k].head, true);
    HeaderKeeps(heads.0[k], TAGS, false);
  }

  lemma {:induction false} StartTold(m: Mux, k: nat, accepted: seq<Source>, h0: Option<bytes>)
    requires Good(m) && !m.started && k < |m.tracks| && Told(m, [], k, accepted, h0)
    ensures var r := Start(m);
      && r.ok && AllFit(r.pages) && Good(r.mux) && r.mux.started && !r.mux.finished && SameSerials(m.tracks, r.mux.tracks)
      && Told(r.mux, r.pages, k, accepted, h0)
  {
    hide AddPackets, Opened, AddHeld, HeadsFrom, TagsFrom, Laced, HeldFor, Fits;
    BareTracks(m.tracks);
    OpenedAlone(m.tracks, k);
    HeadsFromSmall(m.tracks, 0);
    var heads := HeadsFrom(m.tracks, 0);
    TagsFromSmall(heads.0, 0);
    var tags := TagsFrom(heads.0, 0);
    BareLaced(tags.0);
    forall j | 0 <= j < |m.pending|
      ensures m.pending[j].track < |tags.0| && !tags.0[m.pending[j].track].ended
    {
      OpenedAlone(m.tracks, m.pending[j].track);
    }
    AddHeldAlone(tags.0, m.pending, k);
    var packets := AddHeld(tags.0, m.pending);
    PagesOfConcat(heads.1 + tags.1, packets.1, m.tracks[k].serial);
    AllFitConcat(heads.1 + tags.1, packets.1);
    assert m.tracks[k] == NewTrack(m.tracks[k].serial, if m.tracks[k].ready then Some(m.tracks[k].head) else None);
    if !m.tracks[k].ready {
      NoPackets(tags.0[k]);
    }
  }

  lemma {:induction false} NoPackets(t: Track)
    requires |t.segments| <= MAX_SEGMENTS
    ensures AddPackets(t, []) == (t, [])
  {
  }

  lemma {:induction false} BareTracks(tracks: seq<Track>)
    requires forall i :: 0 <= i < |tracks| ==> FreshTrack(tracks[i])
    ensures AllBare(tracks)
  {
  }

  lemma {:induction false} BareLaced(tracks: seq<Track>)
    requires AllBare(tracks)
    ensures forall i :: 0 <= i < |tracks| ==> Laced(tracks[i]) && |tracks[i].segments| <= MAX_SEGMENTS
  {
  }

  lemma {:induction false} AddPacketsKeep(t: Track, packets: seq<Source>)
    requires Laced(t)
    ensures |t.segments| <= MAX_SEGMENTS && SameTrack(t, AddPackets(t, packets).0) && Laced(AddPackets(t, packets).0)
    decreases |packets|
  {
    hide AddPacket, Laced;
    LacedIs(t);
    if packets != [] {
      AddPacketsKeep(t, packets[..|packets| - 1]);
      AddPacketKeeps(AddPackets(t, packets[..|packets| - 1]).0, packets[|packets| - 1]);
    }
  }

  lemma {:induction false} WrittenKeeps(serial: u32, head: bytes, packets: seq<Source>)
    requires HeadFits(head)
    ensures var n := NewTrack(serial, Some(head)); SameTrack(n, Written(n, packets).0)
  {
    hide AddPackets, HeadWritten, TagsWritten;
    var n := NewTrack(serial, Some(head));
    HeaderFacts(n);
    HeaderFacts(HeadWritten(n).0);
    assert Laced(Opened(n).0);
    AddPacketsKeep(Opened(n).0, packets);
  }

  lemma {:induction false} WrittenMore(n: Track, packets: seq<Source>, p: Source)
    ensures var before := Written(n, packets);
      && |before.0.segments| <= MAX_SEGMENTS
      && Written(n, packets + [p]) == (AddPacket(before.0, p).0, before.1 + AddPacket(before.0, p).1)
  {
    hide AddPacket;
    OpenedSegments(n);
    var all := packets + [p];
    assert all[..|all| - 1] == packets && all[|all| - 1] == p;
    var a, b, c := Opened(n).1, AddPackets(Opened(n).0, packets).1, AddPacket(Written(n, packets).0, p).1;
    assert a + (b + c) == (a + b) + c;
  }

  function AcceptedOne(m: Mux, op: Op, k: nat): seq<Source>
    requires Small(m) && k < |m.tracks|
  {
    if op.Write? && op.serial == m.tracks[k].serial && Do(m, op).ok then [op.packet] else []
  }

  lemma {:induction false} HeldForMore(held: seq<Held>, h: Held, k: nat)
    ensures HeldFor(held + [h], k) == HeldFor(held, k) + if h.track == k then [h.packet] else []
  {
    assert (held + [h])[..|held|] == held;
  }

  /** A packet held back, or the one that lets the file start. */
  lemma {:induction false} HoldTold(m: Mux, pages: seq<Page>, i: nat, p: Source, built: bytes, k: nat, accepted: seq<Source>, h0: Option<bytes>)
    requires Good(m) && !m.started && i < |m.tracks| && k < |m.tracks| && Told(m, pages, k, accepted, h0) && HeadFits(built)
    ensures var r := WriteOne(m, i, p, built);
      && r.ok && AllFit(r.pages) && Good(r.mux) && SameSerials(m.tracks, r.mux.tracks)
      && Told(r.mux, pages + r.pages, k, accepted + if i == k then [p] else [], h0)
  {
    hide Start, Good, Told, Waiting, PagesOf;
    var next := Waiting(m, i, p, built);
    var acc := accepted + if i == k then [p] else [];
    WaitingTold(m, pages, i, p, built, k, accepted, h0);
    NothingYet(m, pages, k, accepted, h0);
    StartTold(next, k, acc, h0);
    assert pages + [] == pages;
    GoodSmall(next);
    StartedMore(Start(next).mux, pages, Start(next).pages, k, acc, h0);
  }

  lemma {:induction false} GoodSmall(m: Mux)
    requires Good(m)
    ensures Small(m)
  {
  }

  lemma {:induction false} NothingYet(m: Mux, pages: seq<Page>, k: nat, accepted: seq<Source>, h0: Option<bytes>)
    requires k < |m.tracks| && Good(m) && !m.started && Told(m, pages, k, accepted, h0)
    ensures Small(m) && PagesOf(pages, m.tracks[k].serial) == []
  {
  }

  lemma {:induction false} StartedMore(m: Mux, pages: seq<Page>, more: seq<Page>, k: nat, accepted: seq<Source>, h0: Option<bytes>)
    requires k < |m.tracks| && Good(m) && PagesOf(pages, m.tracks[k].serial) == [] && Told(m, more, k, accepted, h0)
    ensures Told(m, pages + more, k, accepted, h0)
  {
    PagesOfConcat(pages, more, m.tracks[k].serial);
    var own := PagesOf(more, m.tracks[k].serial);
    assert [] + own == own;
  }

  lemma {:induction false} WaitingTold(m: Mux, pages: seq<Page>, i: nat, p: Source, built: bytes, k: nat, accepted: seq<Source>, h0: Option<bytes>)
    requires Good(m) && !m.started && i < |m.tracks| && k < |m.tracks| && Told(m, pages, k, accepted, h0) && HeadFits(built)
    ensures var next := Waiting(m, i, p, built); var acc := accepted + if i == k then [p] else [];
      && Good(next) && !next.started && SameSerials(m.tracks, next.tracks) && Told(next, [], k, acc, h0) && Told(next, pages, k, acc, h0)
  {
    hide HeldFor, Laced, PagesOf, Written, Life, HeadFits;
    HeldForMore(m.pending, Held(i, p), k);
    PagesOfNone(m.tracks[k].serial);
    LacedHead(m.tracks[i], built);
    var next := Waiting(m, i, p, built);
    assert FreshTrack(next.tracks[i]);
  }

  /** A packet written straight to its stream. */
  lemma {:induction false} AddTold(m: Mux, pages: seq<Page>, i: nat, p: Source, built: bytes, k: nat, accepted: seq<Source>, h0: Option<bytes>)
    requires Good(m) && m.started && !m.finished && i < |m.tracks| && k < |m.tracks| && Told(m, pages, k, accepted, h0)
    ensures var r := WriteOne(m, i, p, built);
      && AllFit(r.pages) && Good(r.mux) && SameSerials(m.tracks, r.mux.tracks)
      && Told(r.mux, pages + r.pages, k, accepted + if i == k && r.ok then [p] else [], h0)
  {
    hide AddPacket, Laced, PagesOf, Written, Life, HeldFor;
    var t := m.tracks[i];
    var u := Readied(t, built);
    assert accepted + [] == accepted;
    LacedHead(t, built);
    if u.ended {
      assert pages + [] == pages;
    } else {
      AddPacketKeeps(u, p);
      var one := AddPacket(u, p);
      PagesOfConcat(pages, one.1, m.tracks[k].serial);
      PagesOfAll(one.1, t.serial, m.tracks[k].serial);
      LacedIs(one.0);
      if i == k {
        WrittenKeeps(t.serial, t.head, accepted);
        WrittenMore(NewTrack(t.serial, Some(t.head)), accepted, p);
      } else {
        var own := PagesOf(pages, m.tracks[k].serial);
        assert own + [] == own;
      }
    }
  }

  lemma {:induction false} LacedHead(t: Track, head: bytes)
    requires Laced(t)
    ensures Laced(t.(head := head, ready := true)) && |t.segments| <= MAX_SEGMENTS
  {
  }

  lemma {:induction false} FinishTold(m: Mux, pages: seq<Page>, k: nat, accepted: seq<Source>, h0: Option<bytes>)
    requires Good(m) && k < |m.tracks| && Told(m, pages, k, accepted, h0)
    ensures var r := Finish(m);
      && r.ok && AllFit(r.pages) && Good(r.mux) && SameSerials(m.tracks, r.mux.tracks) && r.mux.finished
      && Told(r.mux, pages + r.pages, k, accepted, h0)
  {
    hide Start, LastFrom, Written, Life, HeldFor, PagesOf;
    if m.finished {
      assert pages + [] == pages;
    } else if m.started {
      LastTold(m, pages, k, accepted, h0);
      assert [] + LastFrom(m.tracks, 0).1 == LastFrom(m.tracks, 0).1;
    } else {
      PagesOfNone(m.tracks[k].serial);
      NothingYet(m, pages, k, accepted, h0);
      StartTold(m, k, accepted, h0);
      var s := Start(m);
      StartedMore(s.mux, pages, s.pages, k, accepted, h0);
      LastTold(s.mux, pages + s.pages, k, accepted, h0);
      AllFitConcat(s.pages, LastFrom(s.mux.tracks, 0).1);
      assert (pages + s.pages) + LastFrom(s.mux.tracks, 0).1 == pages + (s.pages + LastFrom(s.mux.tracks, 0).1);
    }
  }

  lemma {:induction false} LastTold(m: Mux, pages: seq<Page>, k: nat, accepted: seq<Source>, h0: Option<bytes>)
    requires Good(m) && m.started && !m.finished && k < |m.tracks| && Told(m, pages, k, accepted, h0)
    ensures var last := LastFrom(m.tracks, 0); var r := m.(tracks := last.0, finished := true);
      && AllFit(last.1) && Good(r) && SameSerials(m.tracks, r.tracks) && Told(r, pages + last.1, k, accepted, h0)
  {
    hide LastFrom, LastWritten, Opened, AddPackets, PagesOf, Laced, HeldFor;
    LastAlone(m.tracks, 0, k);
    LastKeepsHead(m.tracks, 0, k);
    var last := LastFrom(m.tracks, 0);
    LacedSmall(last.0);
    PagesOfConcat(pages, last.1, m.tracks[k].serial);
    var own := PagesOf(pages, m.tracks[k].serial);
    assert own + [] == own;
    OpenedSegments(NewTrack(m.tracks[k].serial, Some(m.tracks[k].head)));
  }

  lemma {:induction false} LastKeepsHead(tracks: seq<Track>, i: nat, k: nat)
    requires i <= |tracks| && k < |tracks|
    ensures LastFrom(tracks, i).0[k].head == tracks[k].head
    decreases |tracks| - i
  {
    if i < |tracks| {
      LastKeepsHead(if tracks[i].ended then tracks else tracks[i := LastWritten(tracks[i]).0], i + 1, k);
    }
  }

  lemma {:induction false} DoTold(m: Mux, pages: seq<Page>, op: Op, k: nat, accepted: seq<Source>, h0: Option<bytes>)
    requires Good(m) && k < |m.tracks| && Told(m, pages, k, accepted, h0) && OpFits(op)
    ensures var r := Do(m, op);
      && AllFit(r.pages) && Good(r.mux) && SameSerials(m.tracks, r.mux.tracks)
      && Told(r.mux, pages + r.pages, k, accepted + AcceptedOne(m, op, k), h0)
  {
    hide Told, Good, WriteOne, Finish, Small;
    assert accepted + [] == accepted && pages + [] == pages;
    GoodSmall(m);
    if op.Trailer? {
      FinishTold(m, pages, k, accepted, h0);
    } else {
      var i := Find(m.tracks, op.serial);
      if !m.finished && i < |m.tracks| && op.packet.data != [] {
        OnlyOne(m, i, k);
        if m.started {
          AddTold(m, pages, i, op.packet, op.built, k, accepted, h0);
        } else {
          HoldTold(m, pages, i, op.packet, op.built, k, accepted, h0);
        }
      }
    }
  }

  lemma {:induction false} OnlyOne(m: Mux, i: nat, k: nat)
    requires Good(m) && i < |m.tracks| && k < |m.tracks|
    ensures m.tracks[i].serial == m.tracks[k].serial <==> i == k
  {
  }

  lemma {:induction false} LastSmall(tracks: seq<Track>, i: nat)
    requires i <= |tracks| && Bounded(tracks)
    ensures Bounded(LastFrom(tracks, i).0)
    decreases |tracks| - i
  {
    if i < |tracks| {
      LastSmall(if tracks[i].ended then tracks else tracks[i := LastWritten(tracks[i]).0], i + 1);
    }
  }

  lemma {:induction false} DoSmall(m: Mux, op: Op)
    requires Small(m)
    ensures Small(Do(m, op).mux) && |Do(m, op).mux.tracks| == |m.tracks|
  {
    hide AddHeld, HeadsFrom, TagsFrom, LastFrom, AddPacket;
    StartSmall(m);
    if op.Write? {
      var i := Find(m.tracks, op.serial);
      if i < |m.tracks| {
        StartSmall(Waiting(m, i, op.packet, op.built));
      }
    } else {
      var s := if m.started then m else Start(m).mux;
      LastSmall(s.tracks, 0);
    }
  }

  lemma {:induction false} StartSmall(m: Mux)
    requires Small(m)
    ensures Small(Start(m).mux) && |Start(m).mux.tracks| == |m.tracks|
  {
    hide AddHeld, HeadsFrom, TagsFrom;
    HeadsFromSmall(m.tracks, 0);
    TagsFromSmall(HeadsFrom(m.tracks, 0).0, 0);
  }

  /** A sequence of calls: the final state, and every page written. */
  function RunOps(m: Mux, ops: seq<Op>): (r: (Mux, seq<Page>))
    requires Small(m)
    ensures Small(r.0) && |r.0.tracks| == |m.tracks|
    decreases |ops|
  {
    if ops == [] then (m, [])
    else
      var n := |ops| - 1;
      var before := RunOps(m, ops[..n]);
      var one := Do(before.0, ops[n]);
      DoSmall(before.0, ops[n]);
      (one.mux, before.1 + one.pages)
  }

  /** The packets of stream k that were accepted, in order. */
  function Accepted(m: Mux, ops: seq<Op>, k: nat): seq<Source>
    requires Small(m) && k < |m.tracks|
    decreases |ops|
  {
    if ops == [] then []
    else
      var n := |ops| - 1;
      Accepted(m, ops[..n], k) + AcceptedOne(RunOps(m, ops[..n]).0, ops[n], k)
  }

  function Given(t: Track): Option<bytes> {
    if t.ready then Some(t.head) else None
  }

  predicate AllOpsFit(ops: seq<Op>) {
    forall i :: 0 <= i < |ops| ==> OpFits(ops[i])
  }

  lemma {:induction false} RunTold(m: Mux, ops: seq<Op>, k: nat)
    requires Small(m) && Initial(m) && AllOpsFit(ops) && k < |m.tracks|
    ensures var r := RunOps(m, ops);
      && AllFit(r.1) && Good(r.0) && SameSerials(m.tracks, r.0.tracks) && Told(r.0, r.1, k, Accepted(m, ops, k), Given(m.tracks[k]))
    decreases |ops|
  {
    hide Told, Do, Laced;
    if ops == [] {
      InitialTold(m, k);
    } else {
      var n := |ops| - 1;
      RunTold(m, ops[..n], k);
      var before := RunOps(m, ops[..n]);
      DoTold(before.0, before.1, ops[n], k, Accepted(m, ops[..n], k), Given(m.tracks[k]));
      AllFitConcat(before.1, Do(before.0, ops[n]).pages);
    }
  }

  lemma {:induction false} InitialTold(m: Mux, k: nat)
    requires Initial(m) && k < |m.tracks|
    ensures Good(m) && Told(m, [], k, [], Given(m.tracks[k]))
  {
    BareTracks(m.tracks);
    BareLaced(m.tracks);
  }

  /**
   * Any calls on any streams, then the end of the file: the bytes written, in whatever
   * pieces they are read, give back every stream's headers and then every packet accepted
   * for it, whole, once and in order; a stream left out of the file gives nothing.
   */
  lemma {:induction false} FileRoundTrip(m: Mux, ops: seq<Op>, k: nat, crcs: seq<u32>, pieces: seq<bytes>)
    requires Small(m) && Initial(m) && AllOpsFit(ops) && k < |m.tracks|
    requires |crcs| == |RunOps(m, ops + [Trailer]).1| && AllFit(RunOps(m, ops + [Trailer]).1)
    requires Concat(pieces) == EncodePages(RunOps(m, ops + [Trailer]).1, crcs)
    ensures var end := RunOps(m, ops + [Trailer]); var read := Inputs(OggReader.FRESH, pieces); var accepted := Accepted(m, ops, k);
      && read.2 == None && read.0.core.mode == AtHead && read.0.cache == []
      && (DataOf(read.1, m.tracks[k].serial) == [end.0.tracks[k].head, TAGS] + DataIn(accepted)
          || (accepted == [] && !m.tracks[k].ready && DataOf(read.1, m.tracks[k].serial) == []))
      && (m.tracks[k].ready ==> end.0.tracks[k].head == m.tracks[k].head)
  {
    hide RunOps, Advance, Inputs, Life, Do, EncodePages;
    var all := ops + [Trailer];
    var end := RunOps(m, all);
    EndTold(m, ops, k);
    SplitIndependence(OggReader.FRESH, pieces);
    AdvancePages(map[], end.1, crcs);
    assert [] + Concat(pieces) == Concat(pieces);
    StreamAlone(map[], end.1, m.tracks[k].serial);
    var own := PagesOf(end.1, m.tracks[k].serial);
    var t := end.0.tracks[k];
    if own == [] && Accepted(m, ops, k) == [] && !m.tracks[k].ready {
      RunNoPages(None);
    } else {
      LifeRoundTrip(NewTrack(t.serial, Some(t.head)), Accepted(m, ops, k));
    }
  }

  lemma {:induction false} EndTold(m: Mux, ops: seq<Op>, k: nat)
    requires Small(m) && Initial(m) && AllOpsFit(ops) && k < |m.tracks|
    ensures var end := RunOps(m, ops + [Trailer]); var t := end.0.tracks[k]; var own := PagesOf(end.1, m.tracks[k].serial);
      && AllFit(end.1) && t.serial == m.tracks[k].serial
      && ((own == [] && Accepted(m, ops, k) == [] && !m.tracks[k].ready)
          || (HeadFits(t.head) && own == Life(NewTrack(t.serial, Some(t.head)), Accepted(m, ops, k))
              && (m.tracks[k].ready ==> t.head == m.tracks[k].head)))
  {
    hide Do, Life, Laced, RunOps, PagesOf;
    var all := ops + [Trailer];
    assert all[..|all| - 1] == ops;
    RunTold(m, ops, k);
    var before := RunOps(m, ops);
    FinishTold(before.0, before.1, k, Accepted(m, ops, k), Given(m.tracks[k]));
    RunEnd(m, ops);
    AllFitConcat(before.1, Finish(before.0).pages);
  }

  lemma {:induction false} RunEnd(m: Mux, ops: seq<Op>)
    requires Small(m)
    ensures RunOps(m, ops + [Trailer]) == (Finish(RunOps(m, ops).0).mux, RunOps(m, ops).1 + Finish(RunOps(m, ops).0).pages)
  {
    hide Finish;
    var all := ops + [Trailer];
    assert all[..|all| - 1] == ops;
  }
}
