/** The transport stream demuxer: tables, continuity counters and PES reassembly. */
module TsDemux {
  import opened Bytes
  import opened Wrappers
  import opened TsWire
  import opened TsMux

  /** The frame under assembly. */
  datatype Unit = Unit(payload: bytes, pts: u64, dts: u64)

  /** An elementary stream; `header` holds a PES header that did not fit its packet. */
  datatype Es = Es(kind: byte, cc: Option<nat>, header: bytes, waiting: bool, pts: u64, dts: u64, unit: Option<Unit>)

  datatype Report = Report(pid: pid13, kind: byte, data: bytes, pts: u64, dts: u64)

  /** The streams announced by each program map, and the state of every stream. */
  datatype Demux = Demux(programs: map<pid13, set<pid13>>, es: map<pid13, Es>)

  const EMPTY: Demux := Demux(map[], map[])

  function NewEs(kind: byte): Es {
    Es(kind, None, [], true, 0, 0, None)
  }

  function Dropped(s: Es): Es {
    s.(header := [], waiting := true, unit := if s.unit.None? then None else Some(s.unit.value.(payload := [])))
  }

  /** The continuity check: a duplicate is ignored, a gap drops the frame under assembly. */
  function Continued(s: Es, p: Packet): Option<Es> {
    if !p.hasPayload then Some(s)
    else if s.cc.None? then Some(s.(cc := Some(p.cc)))
    else if p.cc == s.cc.value then None
    else if p.cc != (s.cc.value + 1) % 16 && !p.discontinuity then Some(Dropped(s).(cc := Some(p.cc)))
    else Some(s.(cc := Some(p.cc)))
  }

  /** The frame that would be reported if the stream ended here. */
  function Pending(s: Es): seq<Unit> {
    if s.unit.Some? && s.unit.value.payload != [] then [s.unit.value] else []
  }

  /** Adds payload to the frame under assembly; the start of another reports it first. */
  function Deliver(s: Es, start: bool, payload: bytes): (Es, seq<Unit>) {
    if !IsAudio(s.kind) then (s.(header := []), [])
    else
      var unit := if s.unit.Some? then s.unit.value else Unit([], s.pts, s.dts);
      var done := unit.payload != [] && (start || s.pts != unit.pts);
      (s.(header := [], unit := Some(Unit((if done then [] else unit.payload) + payload, s.pts, s.dts))),
       if done then [unit] else [])
  }

  /** One decoded PES header, from one packet or from the cache. */
  function Began(s: Es, b: bytes): Result<(Es, seq<Unit>), Error> {
    var r := DecodePes(b, s.pts, s.dts);
    match r
    case Short(pts, dts) => Ok((s.(pts := pts, dts := dts, header := b), []))
    case Bad => Err(BadPes)
    case Found(pts, dts, payload) => Ok(Deliver(s.(pts := pts, dts := dts), true, payload))
  }

  function EsStep(s: Es, p: Packet): Result<(Es, seq<Unit>), Error> {
    var c := Continued(s, p);
    if c.None? then Ok((s, []))
    else if p.start then Began(c.value.(header := [], waiting := false), p.payload)
    else if c.value.waiting then Ok((c.value, []))
    else if c.value.header != [] then Began(c.value, c.value.header + p.payload)
    else Ok(Deliver(c.value, false, p.payload))
  }

  function Reports(pid: pid13, kind: byte, units: seq<Unit>): (r: seq<Report>)
    ensures |r| == |units|
  {
    seq(|units|, i requires 0 <= i < |units| => Report(pid, kind, units[i].payload, units[i].pts / 90, units[i].dts / 90))
  }

  /** A section starts after the pointer byte of a packet that begins one. */
  function SectionOf(p: Packet): bytes {
    if p.start && p.payload != [] then p.payload[1..] else p.payload
  }

  function AddPrograms(programs: map<pid13, set<pid13>>, entries: seq<ProgramEntry>): map<pid13, set<pid13>>
    decreases |entries|
  {
    if entries == [] then programs
    else
      var e := entries[0];
      AddPrograms(if e.number != 0 && e.pid !in programs then programs[e.pid := {}] else programs, entries[1..])
  }

  function AddStreams(known: set<pid13>, es: map<pid13, Es>, entries: seq<StreamEntry>): (set<pid13>, map<pid13, Es>)
    decreases |entries|
  {
    if entries == [] then (known, es)
    else
      var e := entries[0];
      if e.pid in known then AddStreams(known, es, entries[1..])
      else AddStreams(known + {e.pid}, es[e.pid := NewEs(e.kind)], entries[1..])
  }

  function Step(d: Demux, b: bytes): Result<(Demux, seq<Report>), Error>
    requires |b| == PACKET_SIZE
  {
    var r := DecodePacket(b);
    if r.Err? then Err(r.error) else StepPacket(d, r.value)
  }

  function StepPacket(d: Demux, p: Packet): Result<(Demux, seq<Report>), Error> {
    if p.pid == 0 then
      var pat := DecodePat(SectionOf(p));
      if pat.Err? then Err(pat.error) else Ok((d.(programs := AddPrograms(d.programs, pat.value)), []))
    else if p.pid == PID_NULL then Ok((d, []))
    else if p.pid in d.programs then
      var pmt := DecodePmt(SectionOf(p));
      if pmt.Err? then Err(pmt.error)
      else
        var added := AddStreams(d.programs[p.pid], d.es, pmt.value.1);
        Ok((Demux(d.programs[p.pid := added.0], added.1), []))
    else if p.pid in d.es then
      var s := EsStep(d.es[p.pid], p);
      if s.Err? then Err(s.error)
      else Ok((d.(es := d.es[p.pid := s.value.0]), Reports(p.pid, d.es[p.pid].kind, s.value.1)))
    else Ok((d, []))
  }

  predicate Whole(packets: seq<bytes>) {
    forall i :: 0 <= i < |packets| ==> |packets[i]| == PACKET_SIZE
  }

  function Run(d: Demux, packets: seq<bytes>): Result<(Demux, seq<Report>), Error>
    requires Whole(packets)
    decreases |packets|
  {
    if packets == [] then Ok((d, []))
    else
      var one := Step(d, packets[0]);
      if one.Err? then one
      else
        var rest := Run(one.value.0, packets[1..]);
        if rest.Err? then rest else Ok((rest.value.0, one.value.1 + rest.value.1))
  }

  /** What is reported for one stream. */
  function ReportsOf(reports: seq<Report>, pid: pid13): seq<Report> {
    if reports == [] then []
    else (if reports[0].pid == pid then [reports[0]] else []) + ReportsOf(reports[1..], pid)
  }

  function PendingOf(d: Demux, pid: pid13): seq<Report> {
    if pid in d.es then Reports(pid, d.es[pid].kind, Pending(d.es[pid])) else []
  }

  lemma {:induction false} RunConcat(d: Demux, a: seq<bytes>, b: seq<bytes>)
    requires Whole(a) && Whole(b) && Run(d, a).Ok? && Run(Run(d, a).value.0, b).Ok?
    ensures Whole(a + b)
    ensures Run(d, a + b) == Ok((Run(Run(d, a).value.0, b).value.0, Run(d, a).value.1 + Run(Run(d, a).value.0, b).value.1))
    decreases |a|
  {
    hide Step;
    if a == [] {
      assert a + b == b;
      assert [] + Run(d, b).value.1 == Run(d, b).value.1;
    } else {
      assert (a + b)[0] == a[0] && (a + b)[1..] == a[1..] + b;
      var one := Step(d, a[0]).value;
      RunConcat(one.0, a[1..], b);
      var y, z := Run(one.0, a[1..]).value, Run(Run(d, a).value.0, b).value;
      assert one.1 + (y.1 + z.1) == (one.1 + y.1) + z.1;
    }
  }

  lemma {:induction false} ReportsOfConcat(a: seq<Report>, b: seq<Report>, pid: pid13)
    ensures ReportsOf(a + b, pid) == ReportsOf(a, pid) + ReportsOf(b, pid)
  {
    if a == [] {
      assert a + b == b;
    } else {
      assert (a + b)[0] == a[0] && (a + b)[1..] == a[1..] + b;
      ReportsOfConcat(a[1..], b, pid);
      var one := if a[0].pid == pid then [a[0]] else [];
      assert one + (ReportsOf(a[1..], pid) + ReportsOf(b, pid)) == (one + ReportsOf(a[1..], pid)) + ReportsOf(b, pid);
    }
  }

  /** Reports of a single stream are that stream's, and no other's. */
  lemma {:induction false} ReportsOfOne(pid: pid13, kind: byte, units: seq<Unit>, other: pid13)
    ensures ReportsOf(Reports(pid, kind, units), other) == if other == pid then Reports(pid, kind, units) else []
  {
    if units != [] {
      var r := Reports(pid, kind, units);
      assert r[1..] == Reports(pid, kind, units[1..]);
      ReportsOfOne(pid, kind, units[1..], other);
    }
  }
}
