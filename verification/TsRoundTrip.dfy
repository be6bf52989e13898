/** What the muxer writes, the demuxer reports: audio frames over a transport stream. */
module TsRoundTrip {
  import opened Bytes
  import opened Wrappers
  import opened TsWire
  import opened TsMux
  import opened TsDemux

  // ---------------------------------------------------------------------------
  // One PES packet through one stream
  // ---------------------------------------------------------------------------

  function EsRun(s: Es, packets: seq<bytes>): Result<(Es, seq<Unit>), Error>
    requires Whole(packets)
    decreases |packets|
  {
    if packets == [] then Ok((s, []))
    else
      var p := DecodePacket(packets[0]);
      if p.Err? then Err(p.error)
      else
        var one := EsStep(s, p.value);
        if one.Err? then one
        else
          var rest := EsRun(one.value.0, packets[1..]);
          if rest.Err? then rest else Ok((rest.value.0, one.value.1 + rest.value.1))
  }

  /** The stream is ready for a packet with this counter: nothing seen yet, or the one before it. */
  predicate Expects(s: Es, cc: nat) {
    s.cc.None? || (s.cc.value < 16 && cc == (s.cc.value + 1) % 16)
  }

  /** The continuity check lets every packet of the muxer through and drops nothing. */
  lemma {:induction false} NeverDiscontinuous(s: Es, p: Packet)
    requires p.hasPayload && p.cc < 16 && Expects(s, p.cc)
    ensures Continued(s, p) == Some(s.(cc := Some(p.cc)))
  {
  }

  /** The stream in the middle of a job, with `got` of its payload collected. */
  function Midway(s: Es, job: Job, cc: nat, got: bytes): Es {
    Es(s.kind, Some(cc), [], false, job.pts % TWO_33, job.dts % TWO_33,
       if IsAudio(s.kind) then Some(Unit(got, job.pts % TWO_33, job.dts % TWO_33)) else s.unit)
  }

  function PendingAudio(s: Es): seq<Unit> {
    if IsAudio(s.kind) then Pending(s) else []
  }

  lemma {:induction false} NextPacketIs(job: Job, first: bool, cc: nat, data: bytes)
    requires Sane(job) && cc < 16 && job.pid < PID_NULL
    ensures NextPacket(job, first, cc, data) == EncodePacket(first, job.pid, cc, FieldFor(job, first, |data|), PayloadOf(job, first, data))
  {
    hide EncodePacket, FieldFor, PayloadOf;
  }

  lemma {:induction false} DecodesAs(job: Job, first: bool, cc: nat, data: bytes)
    requires Sane(job) && cc < 16 && job.pid < PID_NULL
    ensures |NextPacket(job, first, cc, data)| == PACKET_SIZE
    ensures DecodePacket(NextPacket(job, first, cc, data))
            == Ok(Packet(first, job.pid, true, cc, false, PayloadOf(job, first, data)))
  {
    hide DecodePacket, EncodePacket, FieldFor, PayloadOf, NextPacket, FieldLength;
    NextPacketSize(job, first, cc, data);
    NextPacketIs(job, first, cc, data);
    PacketRoundTrip(first, job.pid, cc, FieldFor(job, first, |data|), PayloadOf(job, first, data));
  }

  lemma {:induction false} FirstPacket(s: Es, job: Job, cc: nat, data: bytes)
    requires Sane(job) && cc < 16 && job.pid < PID_NULL && Expects(s, cc)
    ensures EsStep(s, Packet(true, job.pid, true, cc, false, PayloadOf(job, true, data)))
            == Ok((Midway(s, job, cc, job.aud + data[..Taken(job, true, |data|)]), PendingAudio(s)))
  {
    hide EncodePes, DecodePes, Continued, Taken, PayloadOf;
    var p := Packet(true, job.pid, true, cc, false, PayloadOf(job, true, data));
    NeverDiscontinuous(s, p);
    FirstPayload(job, data, s.pts, s.dts);
    var part := job.aud + data[..Taken(job, true, |data|)];
    assert [] + part == part;
  }

  lemma {:induction false} FirstPayload(job: Job, data: bytes, pts: u64, dts: u64)
    requires Sane(job)
    ensures DecodePes(PayloadOf(job, true, data), pts, dts)
            == Found(job.pts % TWO_33, job.dts % TWO_33, job.aud + data[..Taken(job, true, |data|)])
  {
    hide EncodePes, DecodePes, Taken;
    var total, part := |job.aud| + |data|, job.aud + data[..Taken(job, true, |data|)];
    PesRoundTrip(PesId(job.kind), job.idr, job.pts, job.dts, total, part, pts, dts);
    assert PayloadOf(job, true, data)
        == EncodePes(PesId(job.kind), PesLength(total), job.idr, job.pts, job.dts) + part;
  }

  lemma {:induction false} LaterPacket(s: Es, job: Job, was: nat, got: bytes, cc: nat, data: bytes)
    requires Sane(job) && was < 16 && cc == (was + 1) % 16 && job.pid < PID_NULL
    ensures EsStep(Midway(s, job, was, got), Packet(false, job.pid, true, cc, false, PayloadOf(job, false, data)))
            == Ok((Midway(s, job, cc, got + data[..Taken(job, false, |data|)]), []))
  {
    var mid := Midway(s, job, was, got);
    var p := Packet(false, job.pid, true, cc, false, PayloadOf(job, false, data));
    NeverDiscontinuous(mid, p);
    hide Continued, Taken;
    assert PayloadOf(job, false, data) == data[..Taken(job, false, |data|)];
  }

  lemma {:induction false} PacketsWhole(job: Job, first: bool, cc: nat, data: bytes)
    requires Sane(job) && cc < 16
    ensures Whole(PesPackets(job, first, cc, data))
  {
    forall i | 0 <= i < |PesPackets(job, first, cc, data)|
      ensures |PesPackets(job, first, cc, data)[i]| == PACKET_SIZE
    {
      PesPacketSizes(job, first, cc, data, i);
    }
  }

  lemma {:induction false} EsRunStep(s: Es, b: bytes, more: seq<bytes>, p: Packet, t: Es, units: seq<Unit>)
    requires |b| == PACKET_SIZE && Whole(more) && DecodePacket(b) == Ok(p) && EsStep(s, p) == Ok((t, units))
    requires EsRun(t, more).Ok?
    ensures Whole([b] + more) && EsRun(s, [b] + more) == Ok((EsRun(t, more).value.0, units + EsRun(t, more).value.1))
  {
    hide DecodePacket, EsStep;
    assert ([b] + more)[1..] == more;
  }

  /** The rest of a job's packets complete its data and report nothing. */
  lemma {:induction false} LaterPackets(s: Es, job: Job, was: nat, got: bytes, cc: nat, data: bytes)
    requires Sane(job) && was < 16 && cc == (was + 1) % 16 && job.pid < PID_NULL
    ensures Whole(PesPackets(job, false, cc, data))
    ensures EsRun(Midway(s, job, was, got), PesPackets(job, false, cc, data))
            == Ok((Midway(s, job, CcAfter(was, |PesPackets(job, false, cc, data)|), got + data), []))
    decreases |data|
  {
    hide DecodePacket, EsStep, Midway, PayloadOf, NextPacket, PesPackets, CcAfter;
    var n := Taken(job, false, |data|);
    var rest := data[n..];
    var all, more := PesPackets(job, false, cc, data), if rest == [] then [] else PesPackets(job, false, (cc + 1) % 16, rest);
    PesPacketsIs(job, false, cc, data);
    PacketsWhole(job, false, cc, data);
    DecodesAs(job, false, cc, data);
    LaterPacket(s, job, was, got, cc, data);
    CcStep(was, 0);
    assert got + data[..n] + rest == got + data;
    if rest != [] {
      LaterPackets(s, job, cc, got + data[..n], (cc + 1) % 16, rest);
      CcShift(was, |more|);
    } else {
      assert data[..n] == data;
    }
    EsRunStep(Midway(s, job, was, got), NextPacket(job, false, cc, data), more,
      Packet(false, job.pid, true, cc, false, PayloadOf(job, false, data)), Midway(s, job, cc, got + data[..n]), []);
    var none: seq<Unit> := [];
    assert none + none == none;
    assert |all| == 1 + |more|;
  }

  lemma {:induction false} CcShift(was: nat, n: nat)
    requires was < 16
    ensures CcAfter((was + 1) % 16, n) == CcAfter(was, n + 1)
  {
  }

  /** A whole job: the frame before it is reported, and its own is left under assembly. */
  lemma {:induction false} WholeJob(s: Es, job: Job, cc: nat, data: bytes)
    requires Sane(job) && cc < 16 && job.pid < PID_NULL && Expects(s, cc)
    ensures Whole(PesPackets(job, true, cc, data))
    ensures EsRun(s, PesPackets(job, true, cc, data))
            == Ok((Midway(s, job, CcAfter(cc, |PesPackets(job, true, cc, data)| - 1), job.aud + data), PendingAudio(s)))
  {
    hide DecodePacket, EsStep, Midway, PayloadOf, NextPacket, PesPackets, CcAfter, PendingAudio;
    var n := Taken(job, true, |data|);
    var rest := data[n..];
    var more := if rest == [] then [] else PesPackets(job, false, (cc + 1) % 16, rest);
    PesPacketsIs(job, true, cc, data);
    PacketsWhole(job, true, cc, data);
    DecodesAs(job, true, cc, data);
    FirstPacket(s, job, cc, data);
    CcStep(cc, 0);
    assert job.aud + data[..n] + rest == job.aud + data;
    if rest != [] {
      LaterPackets(s, job, cc, job.aud + data[..n], (cc + 1) % 16, rest);
    } else {
      assert data[..n] == data;
    }
    EsRunStep(s, NextPacket(job, true, cc, data), more,
      Packet(true, job.pid, true, cc, false, PayloadOf(job, true, data)), Midway(s, job, cc, job.aud + data[..n]), PendingAudio(s));
    assert PendingAudio(s) + [] == PendingAudio(s);
  }

  // ---------------------------------------------------------------------------
  // One stream among many
  // ---------------------------------------------------------------------------

  predicate AllFor(packets: seq<bytes>, pid: pid13) {
    Whole(packets) && forall i :: 0 <= i < |packets| ==> DecodePacket(packets[i]).Ok? && DecodePacket(packets[i]).value.pid == pid
  }

  lemma {:induction false} PacketsAllFor(job: Job, first: bool, cc: nat, data: bytes)
    requires Sane(job) && cc < 16 && job.pid < PID_NULL
    ensures AllFor(PesPackets(job, first, cc, data), job.pid)
    decreases |data|
  {
    hide DecodePacket, NextPacket, PesPackets, PayloadOf;
    PesPacketsIs(job, first, cc, data);
    PacketsWhole(job, first, cc, data);
    DecodesAs(job, first, cc, data);
    var rest := data[Taken(job, first, |data|)..];
    if rest != [] {
      PacketsAllFor(job, false, (cc + 1) % 16, rest);
    }
  }

  lemma {:induction false} EsStepKeepsKind(s: Es, p: Packet)
    ensures EsStep(s, p).Ok? ==> EsStep(s, p).value.0.kind == s.kind
  {
    hide DecodePes;
  }

  predicate Elementary(d: Demux, pid: pid13) {
    pid in d.es && pid !in d.programs && pid != 0 && pid != PID_NULL
  }

  /** Packets of one stream touch that stream only. */
  lemma {:induction false} RunOnStream(d: Demux, pid: pid13, packets: seq<bytes>)
    requires Elementary(d, pid) && AllFor(packets, pid) && EsRun(d.es[pid], packets).Ok?
    ensures Run(d, packets) == Ok((d.(es := d.es[pid := EsRun(d.es[pid], packets).value.0]),
                                   Reports(pid, d.es[pid].kind, EsRun(d.es[pid], packets).value.1)))
    decreases |packets|
  {
    hide DecodePacket, EsStep, DecodePat, DecodePmt;
    if packets == [] {
      assert d.es == d.es[pid := d.es[pid]];
      assert Reports(pid, d.es[pid].kind, []) == [];
    } else {
      var p := DecodePacket(packets[0]).value;
      var one := EsStep(d.es[pid], p).value;
      EsStepKeepsKind(d.es[pid], p);
      var d' := d.(es := d.es[pid := one.0]);
      RunOnStream(d', pid, packets[1..]);
      var rest := EsRun(one.0, packets[1..]).value;
      assert d'.es[pid := rest.0] == d.es[pid := rest.0];
      assert Reports(pid, one.0.kind, one.1) + Reports(pid, one.0.kind, rest.1) == Reports(pid, one.0.kind, one.1 + rest.1);
    }
  }

  // ---------------------------------------------------------------------------
  // Muxer and demuxer in step
  // ---------------------------------------------------------------------------

  /** A muxer whose streams were added one after the other and whose map fits its packet. */
  predicate Regular(m: Mux) {
    CountersSmall(m) && PmtFits(m.streams) && forall i :: 0 <= i < |m.streams| ==> m.streams[i].pid == FIRST_STREAM_PID + i
  }

  function PidsOf(n: nat): (pids: set<pid13>)
    requires n <= 33
    ensures forall pid: pid13 :: pid in pids <==> FIRST_STREAM_PID <= pid < FIRST_STREAM_PID + n
  {
    if n == 0 then {} else PidsOf(n - 1) + {FIRST_STREAM_PID + n - 1}
  }

  predicate Linked(m: Mux, d: Demux)
    requires Regular(m)
  {
    if m.patPeriod == 0 then d == EMPTY
    else
      && d.programs == map[PMT_PID := PidsOf(|m.streams|)] && d.es.Keys == PidsOf(|m.streams|)
      && forall i :: 0 <= i < |m.streams| ==>
        m.streams[i].pid in d.es && d.es[m.streams[i].pid].kind == m.streams[i].kind && Expects(d.es[m.streams[i].pid], m.streams[i].cc)
  }

  /** A time stamp in milliseconds after its trip through 33 bits of a 90 kHz clock. */
  function Back(t: u64): u64 {
    t as int * 90 % TWO_64 % TWO_33 / 90
  }

  /** What one write should make the demuxer report for a stream, sooner or later. */
  function ExpectedOne(streams: seq<Stream>, f: Frame, i: nat): seq<Report>
    requires i < |streams| && streams[i].pid < 0x2000
  {
    if f.pid == streams[i].pid && f.data != [] then
      [Report(streams[i].pid, streams[i].kind, f.data, Back(f.pts), Back(f.dts))]
    else []
  }

  /** A job on a known stream. */
  lemma {:induction false} WriteDataLinked(m: Mux, d: Demux, i: nat, f: Frame)
    requires Regular(m) && Linked(m, d) && m.patPeriod != 0 && i < |m.streams| && f.pid == m.streams[i].pid
    ensures var w := WriteData(m, i, f);
      && Whole(w.packets) && Run(d, w.packets).Ok? && Regular(w.mux) && Linked(w.mux, Run(d, w.packets).value.0)
      && w.mux.streams == m.streams[i := m.streams[i].(cc := w.mux.streams[i].cc)]
    ensures forall k :: 0 <= k < |m.streams| && IsAudio(m.streams[k].kind) ==>
      var r := Run(d, WriteData(m, i, f).packets).value;
      ReportsOf(r.1, m.streams[k].pid) + PendingOf(r.0, m.streams[k].pid)
      == PendingOf(d, m.streams[k].pid) + ExpectedOne(m.streams, f, k)
  {
    hide PesPackets, EsRun, Run, CcAfter, AudFor, PesId, Back;
    var s := m.streams[i];
    var job := JobOf(m.pcrPid, s, f);
    var es := d.es[s.pid];
    WholeJob(es, job, s.cc, f.data);
    PacketsAllFor(job, true, s.cc, f.data);
    RunOnStream(d, s.pid, PesPackets(job, true, s.cc, f.data));
    var n := |PesPackets(job, true, s.cc, f.data)|;
    PesPacketsIs(job, true, s.cc, f.data);
    CcStep(s.cc, n - 1);
    var r := Run(d, WriteData(m, i, f).packets).value;
    forall k | 0 <= k < |m.streams| && IsAudio(m.streams[k].kind)
      ensures ReportsOf(r.1, m.streams[k].pid) + PendingOf(r.0, m.streams[k].pid)
           == PendingOf(d, m.streams[k].pid) + ExpectedOne(m.streams, f, k)
    {
      ReportsOfOne(s.pid, es.kind, PendingAudio(es), m.streams[k].pid);
      if k == i {
        JobPending(es, job, CcAfter(s.cc, n - 1), f);
      }
    }
  }

  /** The frame left under assembly is the one written. */
  lemma {:induction false} JobPending(es: Es, job: Job, cc: nat, f: Frame)
    requires IsAudio(es.kind) && job.aud == [] && job.pid < 0x2000
    requires job.pts == f.pts as int * 90 % TWO_64 && job.dts == f.dts as int * 90 % TWO_64
    ensures Reports(job.pid, es.kind, Pending(Midway(es, job, cc, job.aud + f.data)))
            == if f.data != [] then [Report(job.pid, es.kind, f.data, Back(f.pts), Back(f.dts))] else []
  {
    assert job.aud + f.data == f.data;
  }

  // ---------------------------------------------------------------------------
  // The program tables
  // ---------------------------------------------------------------------------

  lemma {:induction false} TableDecodes(pid: pid13, cc: nat, section: bytes)
    requires pid != PID_NULL && cc < 16 && |section| <= PACKET_SIZE - 5
    ensures DecodePacket(TablePacket(pid, cc, section))
            == Ok(Packet(true, pid, true, cc, false, [0] + section + Stuffing(PACKET_SIZE - 5 - |section|)))
    ensures var p := DecodePacket(TablePacket(pid, cc, section)).value;
            SectionOf(p) == section + Stuffing(PACKET_SIZE - 5 - |section|)
  {
    hide DecodePacket, EncodeHeader, Stuffing;
    var tail := Stuffing(PACKET_SIZE - 5 - |section|);
    var payload := [0] + section + tail;
    assert TablePacket(pid, cc, section) == EncodePacket(true, pid, cc, None, payload) by {
      assert EncodeHeader(true, pid, 1, cc) + [] + payload == TablePacket(pid, cc, section);
    }
    PacketRoundTrip(true, pid, cc, None, payload);
    assert payload[1..] == section + tail;
  }

  lemma {:induction false} PatStep(d: Demux, cc: nat, crc: u32)
    requires cc < 16
    ensures Step(d, PatPacket(cc, crc))
            == Ok((d.(programs := if PMT_PID in d.programs then d.programs else d.programs[PMT_PID := {}]), []))
  {
    hide DecodePacket, DecodePat, EncodePat, TablePacket, SectionOf;
    var programs := [ProgramEntry(PROGRAM, PMT_PID)];
    PatSize(programs, crc);
    var section := EncodePat(programs, crc);
    TableDecodes(0, cc, section);
    PatRoundTrip(programs, crc, Stuffing(PACKET_SIZE - 5 - |section|));
    AddOne(d.programs, programs[0]);
  }

  lemma {:induction false} PatSize(programs: seq<ProgramEntry>, crc: u32)
    requires 5 + 4 * |programs| + 4 < 0x1000
    ensures |EncodePat(programs, crc)| == 12 + 4 * |programs|
  {
  }

  lemma {:induction false} AddOne(programs: map<pid13, set<pid13>>, e: ProgramEntry)
    requires e.number != 0
    ensures AddPrograms(programs, [e]) == if e.pid in programs then programs else programs[e.pid := {}]
  {
    assert [e][1..] == [];
  }

  /** The stream entries from i on add nothing when every stream is known. */
  lemma {:induction false} AddKnown(known: set<pid13>, es: map<pid13, Es>, entries: seq<StreamEntry>)
    requires forall i :: 0 <= i < |entries| ==> entries[i].pid in known
    ensures AddStreams(known, es, entries) == (known, es)
    decreases |entries|
  {
    if entries != [] {
      assert entries[0].pid in known;
      forall i | 0 <= i < |entries[1..]|
        ensures entries[1..][i].pid in known
      {
        assert entries[1..][i] == entries[i + 1];
      }
      AddKnown(known, es, entries[1..]);
    }
  }

  /** Adding new streams one by one: the first k are there, new and of their kind. */
  ghost predicate AddedFirst(streams: seq<Stream>, k: nat, known: set<pid13>, es: map<pid13, Es>)
    requires k <= |streams| <= 33
  {
    && known == PidsOf(k) && es.Keys == PidsOf(k)
    && forall i :: 0 <= i < k ==> streams[i].pid < 0x2000 && streams[i].pid in es && es[streams[i].pid] == NewEs(streams[i].kind)
  }

  lemma {:induction false} AddNew(m: Mux, k: nat, known: set<pid13>, es: map<pid13, Es>)
    requires Regular(m) && k <= |m.streams| && AddedFirst(m.streams, k, known, es)
    ensures var r := AddStreams(known, es, Entries(m.streams)[k..]); AddedFirst(m.streams, |m.streams|, r.0, r.1)
    decreases |m.streams| - k
  {
    var entries := Entries(m.streams);
    if k < |m.streams| {
      var e := entries[k];
      assert e.pid == FIRST_STREAM_PID + k;
      assert entries[k..][1..] == entries[k + 1..];
      var es' := es[e.pid := NewEs(e.kind)];
      assert known + {e.pid} == PidsOf(k + 1);
      assert AddedFirst(m.streams, k + 1, known + {e.pid}, es');
      AddNew(m, k + 1, known + {e.pid}, es');
    }
  }

  lemma {:induction false} PmtStep(d: Demux, m: Mux, cc: nat, crc: u32)
    requires Regular(m) && cc < 16 && PMT_PID in d.programs
    ensures var added := AddStreams(d.programs[PMT_PID], d.es, Entries(m.streams));
            Step(d, PmtPacket(cc, m.pcrPid, m.streams, crc)) == Ok((Demux(d.programs[PMT_PID := added.0], added.1), []))
  {
    hide DecodePacket, DecodePmt, EncodePmt, TablePacket, SectionOf, AddStreams;
    var entries := Entries(m.streams);
    PmtSize(m.pcrPid % 0x2000, entries, crc);
    var section := EncodePmt(PROGRAM, m.pcrPid % 0x2000, entries, crc);
    TableDecodes(PMT_PID, cc, section);
    PmtRoundTrip(PROGRAM, m.pcrPid % 0x2000, entries, crc, Stuffing(PACKET_SIZE - 5 - |section|));
  }

  lemma {:induction false} PmtSize(pcrPid: pid13, streams: seq<StreamEntry>, crc: u32)
    requires 9 + 5 * |streams| + 4 < 0x1000
    ensures |EncodePmt(PROGRAM, pcrPid, streams, crc)| == 16 + 5 * |streams|
  {
  }

  lemma {:induction false} RunTwo(d: Demux, a: bytes, b: bytes)
    requires |a| == PACKET_SIZE && |b| == PACKET_SIZE && Step(d, a).Ok? && Step(Step(d, a).value.0, b).Ok?
    ensures Run(d, [a, b]) == Ok((Step(Step(d, a).value.0, b).value.0, Step(d, a).value.1 + Step(Step(d, a).value.0, b).value.1))
  {
    hide Step;
    assert [a, b][1..] == [b] && [b][1..] == [];
    var d1 := Step(d, a).value.0;
    var y := Step(d1, b).value.1;
    assert Run(d1, [b]) == Ok((Step(d1, b).value.0, y + []));
    assert y + [] == y;
  }

  /** Writing the tables, for the first time or again, keeps both sides in step and reports nothing. */
  lemma {:induction false} WriteTablesLinked(m: Mux, d: Demux, f: Frame)
    requires Regular(m) && Linked(m, d)
    ensures var t := WriteTables(m, f);
      && t.ok && Whole(t.packets) && Run(d, t.packets).Ok? && Run(d, t.packets).value.1 == []
      && Regular(t.mux) && t.mux.streams == m.streams && t.mux.patPeriod != 0
      && Linked(t.mux, Run(d, t.packets).value.0)
    ensures forall k :: 0 <= k < |m.streams| ==>
      PendingOf(Run(d, WriteTables(m, f).packets).value.0, m.streams[k].pid) == PendingOf(d, m.streams[k].pid)
  {
    hide Step, AddStreams, Run, PatPacket, PmtPacket;
    assert Run(d, []) == Ok((d, [])) by { RunNone(d); }
    if TablesDue(m, f.dts) {
      PatStep(d, m.patCc, f.patCrc);
      var d1 := Step(d, PatPacket(m.patCc, f.patCrc)).value.0;
      PmtStep(d1, m, m.pmtCc, f.pmtCrc);
      RunTwo(d, PatPacket(m.patCc, f.patCrc), PmtPacket(m.pmtCc, m.pcrPid, m.streams, f.pmtCrc));
      var entries := Entries(m.streams);
      assert entries[0..] == entries;
      if m.patPeriod == 0 {
        AddNew(m, 0, {}, map[]);
      } else {
        AddKnown(PidsOf(|m.streams|), d.es, entries);
        assert d.programs[PMT_PID := PidsOf(|m.streams|)] == d.programs;
      }
    }
  }

  lemma {:induction false} RunNone(d: Demux)
    ensures Run(d, []) == Ok((d, []))
  {
  }

  // ---------------------------------------------------------------------------
  // Whole runs
  // ---------------------------------------------------------------------------

  /** One write; a frame for an unknown stream leaves everything as it was. */
  lemma {:induction false} WriteFrameLinked(m: Mux, d: Demux, f: Frame)
    requires Regular(m) && Linked(m, d)
    ensures var w := WriteFrame(m, f);
      && Whole(w.packets) && Run(d, w.packets).Ok? && Regular(w.mux) && Linked(w.mux, Run(d, w.packets).value.0)
      && SameStreams(m, w.mux)
    ensures forall k :: 0 <= k < |m.streams| && IsAudio(m.streams[k].kind) ==>
      var r := Run(d, WriteFrame(m, f).packets).value;
      ReportsOf(r.1, m.streams[k].pid) + PendingOf(r.0, m.streams[k].pid)
      == PendingOf(d, m.streams[k].pid) + ExpectedOne(m.streams, f, k)
  {
    hide Run, WriteTables, WriteData, Back, Linked;
    var i := Find(m.streams, f.pid);
    if i == |m.streams| {
      RunNone(d);
    } else {
      var m1 := m.(pcrPid := PcrPidFor(m, m.streams[i]));
      assert Linked(m1, d) by {
        LinkedWhatever(m, m1, d);
      }
      WriteTablesLinked(m1, d, f);
      var t := WriteTables(m1, f);
      var d1 := Run(d, t.packets).value.0;
      WriteDataLinked(t.mux, d1, i, f);
      var w := WriteData(t.mux, i, f);
      RunConcat(d, t.packets, w.packets);
      var none: seq<Report> := Run(d, t.packets).value.1;
      assert none + Run(d1, w.packets).value.1 == Run(d1, w.packets).value.1;
    }
  }

  lemma {:induction false} LinkedWhatever(m: Mux, m1: Mux, d: Demux)
    requires Regular(m) && Regular(m1) && Linked(m, d) && m1.streams == m.streams && m1.patPeriod == m.patPeriod
    ensures Linked(m1, d)
  {
  }

  predicate SameStreams(m: Mux, n: Mux) {
    |m.streams| == |n.streams|
    && forall i :: 0 <= i < |m.streams| ==> m.streams[i].pid == n.streams[i].pid && m.streams[i].kind == n.streams[i].kind
  }

  function WriteAll(m: Mux, frames: seq<Frame>): (r: (Mux, seq<bytes>))
    requires CountersSmall(m)
    decreases |frames|
  {
    if frames == [] then (m, [])
    else
      var one := WriteFrame(m, frames[0]);
      WriteKeeps(m, frames[0]);
      var rest := WriteAll(one.mux, frames[1..]);
      (rest.0, one.packets + rest.1)
  }

  /** The frames written to stream k that hold data, as they should be reported. */
  function Expected(streams: seq<Stream>, frames: seq<Frame>, k: nat): seq<Report>
    requires k < |streams| && streams[k].pid < 0x2000
    decreases |frames|
  {
    if frames == [] then [] else ExpectedOne(streams, frames[0], k) + Expected(streams, frames[1..], k)
  }

  lemma {:induction false} ExpectedSame(m: Mux, n: Mux, frames: seq<Frame>, k: nat)
    requires SameStreams(m, n) && k < |m.streams| && m.streams[k].pid < 0x2000
    ensures Expected(m.streams, frames, k) == Expected(n.streams, frames, k)
    decreases |frames|
  {
    if frames != [] {
      ExpectedSame(m, n, frames[1..], k);
    }
  }

  /** From any moment on, what is reported and left pending is what was pending and written. */
  lemma {:induction false} RunLinked(m: Mux, d: Demux, frames: seq<Frame>, k: nat)
    requires Regular(m) && Linked(m, d) && k < |m.streams| && IsAudio(m.streams[k].kind)
    ensures var packets := WriteAll(m, frames).1;
      && Whole(packets) && Run(d, packets).Ok?
      && ReportsOf(Run(d, packets).value.1, m.streams[k].pid) + PendingOf(Run(d, packets).value.0, m.streams[k].pid)
         == PendingOf(d, m.streams[k].pid) + Expected(m.streams, frames, k)
    decreases |frames|
  {
    hide Run, WriteFrame, ExpectedOne, Linked, PendingOf, ReportsOf;
    if frames == [] {
      RunNone(d);
      var pid := m.streams[k].pid;
      assert ReportsOf([], pid) == [] by { NoReports(pid); }
      assert [] + PendingOf(d, pid) == PendingOf(d, pid) + [];
    } else {
      WriteFrameLinked(m, d, frames[0]);
      var w := WriteFrame(m, frames[0]);
      var r := Run(d, w.packets).value;
      RunLinked(w.mux, r.0, frames[1..], k);
      ExpectedSame(m, w.mux, frames[1..], k);
      var packets := WriteAll(w.mux, frames[1..]).1;
      RunConcat(d, w.packets, packets);
      var rest := Run(r.0, packets).value;
      var pid := m.streams[k].pid;
      ReportsOfConcat(r.1, rest.1, pid);
      Chain(ReportsOf(r.1, pid), ReportsOf(rest.1, pid), PendingOf(rest.0, pid), PendingOf(r.0, pid),
        PendingOf(d, pid), ExpectedOne(m.streams, frames[0], k), Expected(m.streams, frames[1..], k));
    }
  }

  lemma {:induction false} NoReports(pid: pid13)
    ensures ReportsOf([], pid) == []
  {
  }

  lemma {:induction false} Chain<T>(a: seq<T>, b: seq<T>, last: seq<T>, mid: seq<T>, first: seq<T>, x: seq<T>, y: seq<T>)
    requires a + mid == first + x && b + last == mid + y
    ensures (a + b) + last == first + (x + y)
  {
    assert (a + b) + last == a + (b + last);
    assert a + (mid + y) == (a + mid) + y;
    assert (first + x) + y == first + (x + y);
  }

  // ---------------------------------------------------------------------------
  // Continuity over whole runs
  // ---------------------------------------------------------------------------

  /** Every packet of a run that reaches this stream carries the counter it waits for. */
  predicate EsContinuous(s: Es, packets: seq<bytes>)
    requires Whole(packets)
    decreases |packets|
  {
    packets == [] ||
    var p := DecodePacket(packets[0]);
    && p.Ok? && Continued(s, p.value) == Some(s.(cc := Some(p.value.cc)))
    && (EsStep(s, p.value).Ok? ==> EsContinuous(EsStep(s, p.value).value.0, packets[1..]))
  }

  /** The same for all streams: no packet is taken for a duplicate, and no gap is seen. */
  predicate Continuous(d: Demux, packets: seq<bytes>)
    requires Whole(packets)
    decreases |packets|
  {
    packets == [] ||
    var p := DecodePacket(packets[0]);
    && (p.Ok? && Elementary(d, p.value.pid) ==>
         Continued(d.es[p.value.pid], p.value) == Some(d.es[p.value.pid].(cc := Some(p.value.cc))))
    && (Step(d, packets[0]).Ok? ==> Continuous(Step(d, packets[0]).value.0, packets[1..]))
  }

  lemma {:induction false} EsContinuousStep(s: Es, b: bytes, more: seq<bytes>, p: Packet)
    requires |b| == PACKET_SIZE && Whole(more) && DecodePacket(b) == Ok(p) && EsStep(s, p).Ok?
    requires Continued(s, p) == Some(s.(cc := Some(p.cc))) && EsContinuous(EsStep(s, p).value.0, more)
    ensures Whole([b] + more) && EsContinuous(s, [b] + more)
  {
    hide DecodePacket, EsStep, Continued;
    assert ([b] + more)[1..] == more;
  }

  lemma {:induction false} LaterContinuous(s: Es, job: Job, was: nat, got: bytes, cc: nat, data: bytes)
    requires Sane(job) && was < 16 && cc == (was + 1) % 16 && job.pid < PID_NULL
    ensures Whole(PesPackets(job, false, cc, data))
    ensures EsContinuous(Midway(s, job, was, got), PesPackets(job, false, cc, data))
    decreases |data|
  {
    var mid := Midway(s, job, was, got);
    var p := Packet(false, job.pid, true, cc, false, PayloadOf(job, false, data));
    NeverDiscontinuous(mid, p);
    hide DecodePacket, EsStep, Midway, PayloadOf, NextPacket, PesPackets, Continued, EsContinuous;
    var n := Taken(job, false, |data|);
    var rest := data[n..];
    var more := if rest == [] then [] else PesPackets(job, false, (cc + 1) % 16, rest);
    PesPacketsIs(job, false, cc, data);
    DecodesAs(job, false, cc, data);
    LaterPacket(s, job, was, got, cc, data);
    var next := Midway(s, job, cc, got + data[..n]);
    if rest != [] {
      LaterContinuous(s, job, cc, got + data[..n], (cc + 1) % 16, rest);
    } else {
      NoneContinuous(next);
    }
    EsContinuousStep(mid, NextPacket(job, false, cc, data), more, p);
  }

  lemma {:induction false} NoneContinuous(s: Es)
    ensures EsContinuous(s, [])
  {
  }

  lemma {:induction false} JobContinuous(s: Es, job: Job, cc: nat, data: bytes)
    requires Sane(job) && cc < 16 && job.pid < PID_NULL && Expects(s, cc)
    ensures Whole(PesPackets(job, true, cc, data))
    ensures EsContinuous(s, PesPackets(job, true, cc, data))
  {
    var p := Packet(true, job.pid, true, cc, false, PayloadOf(job, true, data));
    NeverDiscontinuous(s, p);
    hide DecodePacket, EsStep, Midway, PayloadOf, NextPacket, PesPackets, Continued, EsContinuous, PendingAudio;
    var n := Taken(job, true, |data|);
    var rest := data[n..];
    var more := if rest == [] then [] else PesPackets(job, false, (cc + 1) % 16, rest);
    PesPacketsIs(job, true, cc, data);
    DecodesAs(job, true, cc, data);
    FirstPacket(s, job, cc, data);
    var next := Midway(s, job, cc, job.aud + data[..n]);
    if rest != [] {
      LaterContinuous(s, job, cc, job.aud + data[..n], (cc + 1) % 16, rest);
    } else {
      NoneContinuous(next);
    }
    EsContinuousStep(s, NextPacket(job, true, cc, data), more, p);
  }

  lemma {:induction false} ContinuousOnStream(d: Demux, pid: pid13, packets: seq<bytes>)
    requires Elementary(d, pid) && AllFor(packets, pid) && EsRun(d.es[pid], packets).Ok? && EsContinuous(d.es[pid], packets)
    ensures Continuous(d, packets)
    decreases |packets|
  {
    hide DecodePacket, EsStep, DecodePat, DecodePmt, Continued;
    if packets != [] {
      var one := EsStep(d.es[pid], DecodePacket(packets[0]).value).value;
      ContinuousOnStream(d.(es := d.es[pid := one.0]), pid, packets[1..]);
    }
  }

  lemma {:induction false} ContinuousConcat(d: Demux, a: seq<bytes>, b: seq<bytes>)
    requires Whole(a) && Whole(b) && Continuous(d, a) && Run(d, a).Ok? && Continuous(Run(d, a).value.0, b)
    ensures Whole(a + b) && Continuous(d, a + b)
    decreases |a|
  {
    hide Step, DecodePacket, Continued;
    if a == [] {
      assert a + b == b;
    } else {
      assert (a + b)[0] == a[0] && (a + b)[1..] == a[1..] + b;
      ContinuousConcat(Step(d, a[0]).value.0, a[1..], b);
    }
  }

  lemma {:induction false} TwoContinuous(d: Demux, a: bytes, b: bytes)
    requires |a| == PACKET_SIZE && |b| == PACKET_SIZE && DecodePacket(a).Ok? && DecodePacket(b).Ok?
    requires !Elementary(d, DecodePacket(a).value.pid)
    requires Step(d, a).Ok? ==> !Elementary(Step(d, a).value.0, DecodePacket(b).value.pid)
    ensures Continuous(d, [a, b])
  {
    hide Step, DecodePacket, Continued, Elementary;
    assert [a, b][1..] == [b] && [b][1..] == [];
    if Step(d, a).Ok? {
      assert Continuous(Step(d, a).value.0, [b]);
    }
  }

  lemma {:induction false} TablesContinuous(m: Mux, d: Demux, f: Frame)
    requires Regular(m)
    ensures Whole(WriteTables(m, f).packets) && Continuous(d, WriteTables(m, f).packets)
  {
    hide Step, DecodePacket, EncodePat, EncodePmt, TablePacket, Continuous;
    if TablesDue(m, f.dts) {
      var programs := [ProgramEntry(PROGRAM, PMT_PID)];
      PatSize(programs, f.patCrc);
      TableDecodes(0, m.patCc, EncodePat(programs, f.patCrc));
      PmtSize(m.pcrPid % 0x2000, Entries(m.streams), f.pmtCrc);
      TableDecodes(PMT_PID, m.pmtCc, EncodePmt(PROGRAM, m.pcrPid % 0x2000, Entries(m.streams), f.pmtCrc));
      PatStep(d, m.patCc, f.patCrc);
      TwoContinuous(d, PatPacket(m.patCc, f.patCrc), PmtPacket(m.pmtCc, m.pcrPid, m.streams, f.pmtCrc));
    } else {
      NothingContinuous(d);
    }
  }

  lemma {:induction false} NothingContinuous(d: Demux)
    ensures Continuous(d, [])
  {
  }

  lemma {:induction false} FrameContinuous(m: Mux, d: Demux, f: Frame)
    requires Regular(m) && Linked(m, d)
    ensures Whole(WriteFrame(m, f).packets) && Continuous(d, WriteFrame(m, f).packets)
  {
    hide Run, WriteTables, PesPackets, Linked, Continuous, EsContinuous, EsRun, AudFor, Elementary, AllFor;
    var i := Find(m.streams, f.pid);
    if i == |m.streams| {
      NothingContinuous(d);
    } else {
      var m1 := m.(pcrPid := PcrPidFor(m, m.streams[i]));
      LinkedWhatever(m, m1, d);
      WriteTablesLinked(m1, d, f);
      TablesContinuous(m1, d, f);
      var t := WriteTables(m1, f);
      var d1 := Run(d, t.packets).value.0;
      DataContinuous(t.mux, d1, i, f);
      ContinuousConcat(d, t.packets, WriteData(t.mux, i, f).packets);
    }
  }

  lemma {:induction false} DataContinuous(m: Mux, d: Demux, i: nat, f: Frame)
    requires Regular(m) && Linked(m, d) && m.patPeriod != 0 && i < |m.streams|
    ensures Whole(WriteData(m, i, f).packets) && Continuous(d, WriteData(m, i, f).packets)
  {
    hide PesPackets, EsRun, Continuous, EsContinuous, CcAfter, AudFor, PesId, AllFor;
    var s := m.streams[i];
    var job := JobOf(m.pcrPid, s, f);
    WholeJob(d.es[s.pid], job, s.cc, f.data);
    JobContinuous(d.es[s.pid], job, s.cc, f.data);
    PacketsAllFor(job, true, s.cc, f.data);
    ContinuousOnStream(d, s.pid, PesPackets(job, true, s.cc, f.data));
  }

  /** No run of writes is refused. */
  lemma {:induction false} RunAccepted(m: Mux, d: Demux, frames: seq<Frame>)
    requires Regular(m) && Linked(m, d)
    ensures Whole(WriteAll(m, frames).1) && Run(d, WriteAll(m, frames).1).Ok?
    decreases |frames|
  {
    hide Run, WriteFrame, Linked;
    if frames == [] {
      RunNone(d);
    } else {
      WriteFrameLinked(m, d, frames[0]);
      var w := WriteFrame(m, frames[0]);
      var d' := Run(d, w.packets).value.0;
      RunAccepted(w.mux, d', frames[1..]);
      RunConcat(d, w.packets, WriteAll(w.mux, frames[1..]).1);
    }
  }

  /** No packet of any run of writes, audio or video, is taken for a duplicate or follows a gap. */
  lemma {:induction false} RunContinuous(m: Mux, d: Demux, frames: seq<Frame>)
    requires Regular(m) && Linked(m, d)
    ensures Whole(WriteAll(m, frames).1) && Continuous(d, WriteAll(m, frames).1)
    decreases |frames|
  {
    hide Run, WriteFrame, Linked, Continuous;
    if frames == [] {
      NothingContinuous(d);
    } else {
      FrameContinuous(m, d, frames[0]);
      WriteFrameLinked(m, d, frames[0]);
      var w := WriteFrame(m, frames[0]);
      var d' := Run(d, w.packets).value.0;
      RunContinuous(w.mux, d', frames[1..]);
      ContinuousConcat(d, w.packets, WriteAll(w.mux, frames[1..]).1);
    }
  }

  function WithStreams(m: Mux, kinds: seq<byte>): (n: Mux)
    ensures CountersSmall(m) ==> CountersSmall(n)
    decreases |kinds|
  {
    if kinds == [] then m else WithStreams(WithStream(m, kinds[0]), kinds[1..])
  }

  lemma {:induction false} WithStreamsRegular(m: Mux, kinds: seq<byte>)
    requires Regular(m) && m.patPeriod == 0 && m.nextPid == FIRST_STREAM_PID + |m.streams| && |m.streams| + |kinds| <= 33
    ensures var n := WithStreams(m, kinds);
      && Regular(n) && n.patPeriod == 0 && |n.streams| == |m.streams| + |kinds|
      && (forall i :: 0 <= i < |m.streams| ==> n.streams[i] == m.streams[i])
      && (forall i :: 0 <= i < |kinds| ==> n.streams[|m.streams| + i] == Stream(FIRST_STREAM_PID + |m.streams| + i, kinds[i], 0))
    decreases |kinds|
  {
    if kinds != [] {
      WithStreamsRegular(WithStream(m, kinds[0]), kinds[1..]);
      var n := WithStreams(m, kinds);
      forall i | 0 <= i < |kinds|
        ensures n.streams[|m.streams| + i] == Stream(FIRST_STREAM_PID + |m.streams| + i, kinds[i], 0)
      {
        if i > 0 {
          assert kinds[i] == kinds[1..][i - 1];
        }
      }
    }
  }

  /**
   * Any frames written to any streams reach the demuxer without an error, and for every
   * audio stream the demuxer reports, by the time it is flushed, exactly the frames
   * written to it that hold data, in order, with their 33-bit time stamps.
   */
  lemma {:induction false} AudioRoundTrip(kinds: seq<byte>, frames: seq<Frame>, k: nat)
    requires |kinds| <= 33 && k < |kinds| && IsAudio(kinds[k])
    ensures var m := WithStreams(FRESH, kinds);
      && Regular(m) && |m.streams| == |kinds| && m.streams[k].pid == FIRST_STREAM_PID + k && m.streams[k].kind == kinds[k]
      && Whole(WriteAll(m, frames).1) && Run(EMPTY, WriteAll(m, frames).1).Ok?
      && var r := Run(EMPTY, WriteAll(m, frames).1).value;
         ReportsOf(r.1, FIRST_STREAM_PID + k) + PendingOf(r.0, FIRST_STREAM_PID + k) == Expected(m.streams, frames, k)
  {
    hide Run, WriteAll, Expected;
    WithStreamsRegular(FRESH, kinds);
    var m := WithStreams(FRESH, kinds);
    RunLinked(m, EMPTY, frames, k);
    assert PendingOf(EMPTY, m.streams[k].pid) == [];
    assert [] + Expected(m.streams, frames, k) == Expected(m.streams, frames, k);
  }

  /** A time in milliseconds survives exactly when its 90 kHz form fits 33 bits. */
  lemma {:induction false} BackIff(t: u64)
    ensures Back(t) == t <==> t as int * 90 < TWO_33
  {
    var x := t as int * 90;
    assert x % TWO_64 % TWO_33 < TWO_33;
  }
}
