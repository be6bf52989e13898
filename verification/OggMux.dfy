/** The Ogg Opus muxer: packets onto pages, stream by stream. */
module OggMux {
  import opened Bytes
  import opened Wrappers
  import opened OggPages

  const PAGE_TARGET_BYTES := 4096
  const PAGE_TARGET_SAMPLES := 48000
  const MAX_PENDING := 256

  /** "OpusTags", the vendor string "gomediautils" and no comments. */
  const TAGS: bytes :=
    ['O' as int, 'p' as int, 'u' as int, 's' as int, 'T' as int, 'a' as int, 'g' as int, 's' as int, 12, 0, 0, 0,
     'g' as int, 'o' as int, 'm' as int, 'e' as int, 'd' as int, 'i' as int, 'a' as int, 'u' as int,
     't' as int, 'i' as int, 'l' as int, 's' as int, 0, 0, 0, 0]

  /** A packet to write: its time, the padding announced for its end in nanoseconds, and its length in samples. */
  datatype Source = Source(data: bytes, pts: u64, padding: int, duration: u64)

  datatype Track = Track(serial: u32, number: u32, head: bytes, ready: bool, started: bool,
                         granule: u64, padding: u64, lastDur: u64, ended: bool,
                         body: bytes, segments: bytes, pageGranule: u64, pageStart: u64, continued: bool, flushDue: bool)

  function NewTrack(serial: u32, head: Option<bytes>): Track {
    Track(serial, 0, if head.Some? then head.value else [], head.Some?, false, 0, 0, 0, false, [], [], NO_GRANULE, 0, false, false)
  }

  // ---------------------------------------------------------------------------
  // One stream
  // ---------------------------------------------------------------------------

  function PageOf(t: Track, first: bool, last: bool): Page {
    Page(t.continued, first, last, t.pageGranule, t.serial, t.number, t.segments, t.body)
  }

  /** The stream after its open page has been written. */
  function Flushed(t: Track): Track {
    t.(number := (t.number as int + 1) % TWO_32, body := [], segments := [], continued := false,
       pageGranule := NO_GRANULE, pageStart := t.granule)
  }

  function WithPacket(t: Track, data: bytes): Track {
    t.(body := t.body + data, segments := t.segments + Lace(|data|))
  }

  /** A packet on a page of its own: the stream's headers. */
  function WithHeader(t: Track, data: bytes): Track {
    WithPacket(t, data).(pageGranule := 0)
  }

  /** A packet takes a segment for every 255 bytes and one more; what does not fit goes on to the next page. */
  function AddData(t: Track, data: bytes): (r: (Track, seq<Page>))
    requires |t.segments| <= MAX_SEGMENTS
    ensures |r.0.segments| <= MAX_SEGMENTS
    decreases |data|, |t.segments|
  {
    var room := MAX_SEGMENTS - |t.segments|;
    if |data| / 255 + 1 <= room then (WithPacket(t, data).(pageGranule := t.granule), [])
    else
      var n := room * 255;
      var filled := t.(body := t.body + data[..n], segments := t.segments + Full(room));
      var rest := AddData(Flushed(filled).(continued := true), data[n..]);
      (rest.0, [PageOf(filled, false, false)] + rest.1)
  }

  function SamplesOf(padding: int): u64 {
    if padding > 0 then padding * 48000 % TWO_64 / 1_000_000_000 else 0
  }

  /** The granule counts samples from the start of the file, so a late stream keeps its place. */
  function Begun(t: Track, pts: u64): Track {
    if t.started then t
    else
      var g := pts as int * 48 % TWO_64;
      t.(started := true, granule := g, pageStart := g)
  }

  function Due(t: Track): bool {
    |t.body| >= PAGE_TARGET_BYTES || (t.granule as int - t.pageStart as int) % TWO_64 >= PAGE_TARGET_SAMPLES
  }

  function Timed(t: Track, p: Source): Track {
    t.(lastDur := p.duration, granule := (t.granule as int + p.duration as int) % TWO_64, padding := SamplesOf(p.padding))
  }

  /** A page that is full enough is written when the next packet arrives. */
  function AddPacket(t: Track, p: Source): (r: (Track, seq<Page>))
    requires |t.segments| <= MAX_SEGMENTS
    ensures |r.0.segments| <= MAX_SEGMENTS
  {
    var t1 := Begun(t, p.pts);
    var t2 := if t1.flushDue then Flushed(t1.(flushDue := false)) else t1;
    var done := AddData(Timed(t2, p), p.data);
    (done.0.(flushDue := Due(done.0)), (if t1.flushDue then [PageOf(t1, false, false)] else []) + done.1)
  }

  /** The last page: its granule is the end of the stream less the padding of the last packet. */
  function Closing(t: Track): Track {
    t.(ended := true,
       pageGranule := if 0 < t.padding <= t.lastDur then (t.granule as int - t.padding as int) % TWO_64 else t.granule)
  }

  /** The header pages and the last page of a stream. */
  function HeadWritten(t: Track): (Track, Page) {
    (Flushed(WithHeader(t, t.head)), PageOf(WithHeader(t, t.head), true, false))
  }

  function TagsWritten(t: Track): (Track, Page) {
    (Flushed(WithHeader(t, TAGS)), PageOf(WithHeader(t, TAGS), false, false))
  }

  function LastWritten(t: Track): (Track, Page) {
    (Flushed(Closing(t)), PageOf(Closing(t), false, true))
  }

  // ---------------------------------------------------------------------------
  // The whole file
  // ---------------------------------------------------------------------------

  datatype Held = Held(track: nat, packet: Source)

  datatype Mux = Mux(tracks: seq<Track>, started: bool, finished: bool, pending: seq<Held>)

  /** A call: a packet, with the header to use if its stream has none yet, or the end of the file. */
  datatype Op = Write(serial: u32, packet: Source, built: bytes) | Trailer

  datatype Result = Result(mux: Mux, pages: seq<Page>, ok: bool)

  /** Every segment table fits its page. */
  predicate Bounded(tracks: seq<Track>) {
    forall i :: 0 <= i < |tracks| ==> |tracks[i].segments| <= MAX_SEGMENTS
  }

  predicate Small(m: Mux) {
    && Bounded(m.tracks)
    && (forall i :: 0 <= i < |m.pending| ==> m.pending[i].track < |m.tracks|)
  }

  function Find(tracks: seq<Track>, serial: u32): (i: nat)
    ensures i <= |tracks| && (i < |tracks| ==> tracks[i].serial == serial)
    ensures forall j :: 0 <= j < i ==> tracks[j].serial != serial
  {
    if tracks == [] || tracks[0].serial == serial then 0 else 1 + Find(tracks[1..], serial)
  }

  /** The head pages of the tracks from i on; a track without a header by now is left out. */
  function HeadsFrom(tracks: seq<Track>, i: nat): (r: (seq<Track>, seq<Page>))
    requires i <= |tracks|
    ensures |r.0| == |tracks|
    decreases |tracks| - i
  {
    if i == |tracks| then (tracks, [])
    else if !tracks[i].ready then HeadsFrom(tracks[i := tracks[i].(ended := true)], i + 1)
    else
      var one := HeadWritten(tracks[i]);
      var rest := HeadsFrom(tracks[i := one.0], i + 1);
      (rest.0, [one.1] + rest.1)
  }

  function TagsFrom(tracks: seq<Track>, i: nat): (r: (seq<Track>, seq<Page>))
    requires i <= |tracks|
    ensures |r.0| == |tracks|
    decreases |tracks| - i
  {
    if i == |tracks| then (tracks, [])
    else if !tracks[i].ready then TagsFrom(tracks, i + 1)
    else
      var one := TagsWritten(tracks[i]);
      var rest := TagsFrom(tracks[i := one.0], i + 1);
      (rest.0, [one.1] + rest.1)
  }

  function AddTo(tracks: seq<Track>, i: nat, p: Source): (r: (seq<Track>, seq<Page>, bool))
    requires i < |tracks| && Bounded(tracks)
    ensures |r.0| == |tracks| && Bounded(r.0)
  {
    if tracks[i].ended then (tracks, [], false)
    else
      var one := AddPacket(tracks[i], p);
      (tracks[i := one.0], one.1, true)
  }

  /** The packets held back until every stream had its header. */
  function AddHeld(tracks: seq<Track>, held: seq<Held>): (r: (seq<Track>, seq<Page>, bool))
    requires Bounded(tracks)
    requires forall k :: 0 <= k < |held| ==> held[k].track < |tracks|
    ensures |r.0| == |tracks| && Bounded(r.0)
    decreases |held|
  {
    if held == [] then (tracks, [], true)
    else
      var n := |held| - 1;
      var before := AddHeld(tracks, held[..n]);
      if !before.2 then before
      else
        var one := AddTo(before.0, held[n].track, held[n].packet);
        (one.0, before.1 + one.1, one.2)
  }

  lemma {:induction false} HeadsFromSmall(tracks: seq<Track>, i: nat)
    requires i <= |tracks| && Bounded(tracks)
    ensures Bounded(HeadsFrom(tracks, i).0)
    decreases |tracks| - i
  {
    hide WithHeader;
    if i < |tracks| {
      HeadsFromSmall(tracks[i := if tracks[i].ready then HeadWritten(tracks[i]).0 else tracks[i].(ended := true)], i + 1);
    }
  }

  lemma {:induction false} TagsFromSmall(tracks: seq<Track>, i: nat)
    requires i <= |tracks| && Bounded(tracks)
    ensures Bounded(TagsFrom(tracks, i).0)
    decreases |tracks| - i
  {
    hide WithHeader;
    if i < |tracks| {
      TagsFromSmall(if tracks[i].ready then tracks[i := TagsWritten(tracks[i]).0] else tracks, i + 1);
    }
  }

  /** Every header page comes before anything else, then the packets held back. */
  function Start(m: Mux): Result
    requires Small(m)
  {
    HeadsFromSmall(m.tracks, 0);
    var heads := HeadsFrom(m.tracks, 0);
    TagsFromSmall(heads.0, 0);
    var tags := TagsFrom(heads.0, 0);
    var packets := AddHeld(tags.0, m.pending);
    Result(m.(tracks := packets.0, started := true, pending := []), heads.1 + tags.1 + packets.1, packets.2)
  }

  predicate AllReady(tracks: seq<Track>) {
    forall i :: 0 <= i < |tracks| ==> tracks[i].ready
  }

  /** A stream without a header takes the one built from its first packet. */
  function Readied(t: Track, built: bytes): Track {
    if t.ready then t else t.(head := built, ready := true)
  }

  function Waiting(m: Mux, i: nat, p: Source, built: bytes): Mux
    requires i < |m.tracks|
  {
    m.(tracks := m.tracks[i := Readied(m.tracks[i], built)], pending := m.pending + [Held(i, p)])
  }

  function WriteOne(m: Mux, i: nat, p: Source, built: bytes): Result
    requires Small(m) && i < |m.tracks|
  {
    if m.started then
      var r := AddTo(m.tracks[i := Readied(m.tracks[i], built)], i, p);
      Result(m.(tracks := r.0), r.1, r.2)
    else
      var next := Waiting(m, i, p, built);
      if !AllReady(next.tracks) && |next.pending| < MAX_PENDING then Result(next, [], true) else Start(next)
  }

  /** The last page of the tracks from i on that are in the file. */
  function LastFrom(tracks: seq<Track>, i: nat): (r: (seq<Track>, seq<Page>))
    requires i <= |tracks|
    ensures |r.0| == |tracks|
    decreases |tracks| - i
  {
    if i == |tracks| then (tracks, [])
    else if tracks[i].ended then LastFrom(tracks, i + 1)
    else
      var one := LastWritten(tracks[i]);
      var rest := LastFrom(tracks[i := one.0], i + 1);
      (rest.0, [one.1] + rest.1)
  }

  function Finish(m: Mux): Result
    requires Small(m)
  {
    if m.finished then Result(m, [], true)
    else
      var s := if m.started then Result(m, [], true) else Start(m);
      if !s.ok then s
      else
        var last := LastFrom(s.mux.tracks, 0);
        Result(s.mux.(tracks := last.0, finished := true), s.pages + last.1, true)
  }

  function Do(m: Mux, op: Op): Result
    requires Small(m)
  {
    match op
    case Trailer => Finish(m)
    case Write(serial, p, built) =>
      var i := Find(m.tracks, serial);
      if m.finished || i == |m.tracks| || p.data == [] then Result(m, [], false) else WriteOne(m, i, p, built)
  }

  // ---------------------------------------------------------------------------
  // Every page is well formed
  // ---------------------------------------------------------------------------

  predicate Laced(t: Track) {
    |t.segments| <= MAX_SEGMENTS && Sum(t.segments) == |t.body|
  }

  lemma {:induction false} WithPacketLaced(t: Track, data: bytes)
    requires Laced(t) && |t.segments| + |data| / 255 + 1 <= MAX_SEGMENTS
    ensures Laced(WithPacket(t, data))
  {
    LaceSum(|data|);
    SumConcat(t.segments, Lace(|data|));
  }

  lemma {:induction false} FilledLaced(t: Track, data: bytes, room: nat)
    requires Laced(t) && |t.segments| + room == MAX_SEGMENTS && room * 255 <= |data|
    ensures Laced(t.(body := t.body + data[..room * 255], segments := t.segments + Full(room)))
  {
    FullSum(room);
    SumConcat(t.segments, Full(room));
  }

  lemma {:induction false} AddDataLaced(t: Track, data: bytes, i: nat)
    requires Laced(t)
    ensures Laced(AddData(t, data).0)
    ensures i < |AddData(t, data).1| ==> Fits(AddData(t, data).1[i]) && AddData(t, data).1[i].serial == t.serial
    decreases |data|, |t.segments|
  {
    hide Laced, Lace, Sum, Full;
    assert |t.segments| <= MAX_SEGMENTS by {
      LacedIs(t);
    }
    var room := MAX_SEGMENTS - |t.segments|;
    if |data| / 255 + 1 <= room {
      WithPacketLaced(t, data);
      LacedWhatever(WithPacket(t, data), t.granule);
    } else {
      var n := room * 255;
      var filled := t.(body := t.body + data[..n], segments := t.segments + Full(room));
      FilledLaced(t, data, room);
      LacedIs(filled);
      EmptyLaced(filled);
      AddDataLaced(Flushed(filled).(continued := true), data[n..], if i == 0 then 0 else i - 1);
    }
  }

  lemma {:induction false} LacedIs(t: Track)
    requires Laced(t)
    ensures |t.segments| <= MAX_SEGMENTS && Fits(PageOf(t, false, false))
  {
  }

  lemma {:induction false} LacedWhatever(t: Track, granule: u64)
    requires Laced(t)
    ensures Laced(t.(pageGranule := granule))
  {
  }

  lemma {:induction false} EmptyLaced(t: Track)
    ensures Laced(Flushed(t).(continued := true))
  {
  }
}
