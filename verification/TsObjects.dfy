/** The demuxer's streams, changed in place packet by packet. */
module TsObjects {
  import opened Bytes
  import opened Wrappers
  import opened TsWire
  import opened TsMux
  import opened TsDemux
  import D = TsDecoding

  class TsStream {
    const kind: byte
    var cc: Option<nat>
    var header: bytes
    var waiting: bool
    var pts: u64
    var dts: u64
    var unit: Option<Unit>

    ghost function S(): Es
      reads this
    {
      Es(kind, cc, header, waiting, pts, dts, unit)
    }

    constructor (kind: byte)
      ensures S() == NewEs(kind)
    {
      this.kind := kind;
      cc, header, waiting, pts, dts, unit := None, [], true, 0, 0, None;
    }

    method DropPartial()
      modifies this
      ensures S() == Dropped(old(S()))
    {
      if unit.Some? {
        unit := Some(unit.value.(payload := []));
      }
      header := [];
      waiting := true;
    }

    /** False when the packet must be ignored. */
    method CheckContinuity(p: Packet) returns (ok: bool)
      modifies this
      ensures ok == Continued(old(S()), p).Some? && S() == if ok then Continued(old(S()), p).value else old(S())
    {
      if !p.hasPayload {
        return true;
      }
      if cc.Some? {
        var expected := (cc.value + 1) % 16;
        if p.cc == cc.value {
          return false;
        }
        if p.cc != expected && !p.discontinuity {
          DropPartial();
        }
      }
      cc := Some(p.cc);
      return true;
    }

    /** Collects audio payload; whatever was collected before a new start is done. */
    method DoAudio(start: bool, payload: bytes) returns (done: seq<Unit>)
      modifies this
      ensures (S().(header := []), done) == Deliver(old(S()), start, payload) && header == old(header)
    {
      if !IsAudio(kind) {
        return [];
      }
      var u := if unit.Some? then unit.value else Unit([], pts, dts);
      done := [];
      if |u.payload| > 0 && (start || pts != u.pts) {
        done := [u];
        u := u.(payload := []);
      }
      unit := Some(Unit(u.payload + payload, pts, dts));
    }

    method Begin(b: bytes) returns (r: Result<seq<Unit>, Error>)
      modifies this
      ensures var e := Began(old(S()), b);
        if e.Err? then r == Err(e.error) else r == Ok(e.value.1) && S() == e.value.0
    {
      hide DecodePes;
      var found := D.DecodePes(b, pts, dts);
      match found
      case Short(p, d) =>
        pts, dts, header := p, d, b;
        return Ok([]);
      case Bad =>
        return Err(BadPes);
      case Found(p, d, payload) =>
        pts, dts := p, d;
        var done := DoAudio(true, payload);
        header := [];
        return Ok(done);
    }

    /** The frame under assembly is handed over, unless there is nothing in it. */
    method Flush() returns (done: seq<Unit>)
      modifies this
      ensures done == Pending(old(S())) && Pending(S()) == []
      ensures S() == if done == [] then old(S()) else old(S()).(unit := None)
    {
      if unit.None? || |unit.value.payload| == 0 {
        return [];
      }
      done := [unit.value];
      unit := None;
    }

    method Input(p: Packet) returns (r: Result<seq<Unit>, Error>)
      modifies this
      ensures var e := EsStep(old(S()), p);
        if e.Err? then r == Err(e.error) else r == Ok(e.value.1) && S() == e.value.0
    {
      hide Continued, Began, Deliver;
      var ok := CheckContinuity(p);
      if !ok {
        return Ok([]);
      }
      if p.start {
        header := [];
        waiting := false;
        r := Begin(p.payload);
      } else if waiting {
        r := Ok([]);
      } else if |header| > 0 {
        r := Begin(header + p.payload);
      } else {
        var done := DoAudio(false, p.payload);
        r := Ok(done);
      }
    }
  }

  class TsDemuxer {
    var programs: map<pid13, set<pid13>>
    var esStreams: map<pid13, TsStream>
    /** The frames reported so far. */
    var out: seq<Report>

    /** No stream is shared between pids. */
    ghost predicate Valid()
      reads this
    {
      forall a, b :: a in esStreams && b in esStreams && a != b ==> esStreams[a] != esStreams[b]
    }

    ghost function S(): Demux
      reads this, esStreams.Values
    {
      Demux(programs, map pid | pid in esStreams :: esStreams[pid].S())
    }

    constructor ()
      ensures Valid() && S() == EMPTY && out == [] && esStreams == map[]
    {
      programs, esStreams, out := map[], map[], [];
    }

    method InputPat(p: Packet) returns (err: Option<Error>)
      modifies this`programs
      ensures var pat := DecodePat(SectionOf(p));
        if pat.Err? then err == Some(pat.error) && programs == old(programs)
        else err == None && programs == AddPrograms(old(programs), pat.value)
    {
      hide DecodePat;
      var pat := D.DecodePat(SectionOf(p));
      if pat.Err? {
        return Some(pat.error);
      }
      var i := 0;
      while i < |pat.value|
        invariant i <= |pat.value|
        invariant AddPrograms(old(programs), pat.value) == AddPrograms(programs, pat.value[i..])
      {
        var e := pat.value[i];
        if e.number != 0 && e.pid !in programs {
          programs := programs[e.pid := {}];
        }
        i := i + 1;
      }
      return None;
    }

    method AddStream(pid: pid13, kind: byte)
      requires Valid()
      modifies this`esStreams
      ensures Valid() && S() == old(S()).(es := old(S()).es[pid := NewEs(kind)])
      ensures fresh(esStreams.Values - old(esStreams.Values))
    {
      var s := new TsStream(kind);
      esStreams := esStreams[pid := s];
    }

    method InputPmt(p: Packet) returns (err: Option<Error>)
      requires Valid() && p.pid in programs
      modifies this`programs, this`esStreams
      ensures Valid() && fresh(esStreams.Values - old(esStreams.Values))
      ensures var pmt := DecodePmt(SectionOf(p));
        if pmt.Err? then err == Some(pmt.error) && S() == old(S())
        else
          var added := AddStreams(old(programs)[p.pid], old(S()).es, pmt.value.1);
          err == None && S() == Demux(old(programs)[p.pid := added.0], added.1)
    {
      hide DecodePmt;
      var pmt := D.DecodePmt(SectionOf(p));
      if pmt.Err? {
        return Some(pmt.error);
      }
      var streams, known := pmt.value.1, programs[p.pid];
      var i := 0;
      while i < |streams|
        invariant i <= |streams| && programs == old(programs)
        invariant Valid() && fresh(esStreams.Values - old(esStreams.Values))
        invariant AddStreams(old(programs)[p.pid], old(S()).es, streams) == AddStreams(known, S().es, streams[i..])
      {
        var e := streams[i];
        if e.pid !in known {
          known := known + {e.pid};
          AddStream(e.pid, e.kind);
        }
        i := i + 1;
      }
      programs := programs[p.pid := known];
      return None;
    }

    method InputEs(p: Packet) returns (err: Option<Error>)
      requires Valid() && p.pid in esStreams
      modifies this`out, esStreams[p.pid]
      ensures var s := EsStep(old(S()).es[p.pid], p);
        if s.Err? then err == Some(s.error) && out == old(out)
        else
          && err == None && S() == old(S()).(es := old(S()).es[p.pid := s.value.0])
          && out == old(out) + Reports(p.pid, old(S()).es[p.pid].kind, s.value.1)
    {
      hide EsStep, Reports;
      var stream := esStreams[p.pid];
      var r := stream.Input(p);
      if r.Err? {
        return Some(r.error);
      }
      out := out + Reports(p.pid, stream.kind, r.value);
      return None;
    }

    method InputPacket(b: bytes) returns (err: Option<Error>)
      requires Valid() && |b| == PACKET_SIZE
      modifies this, esStreams.Values
      ensures Valid() && fresh(esStreams.Values - old(esStreams.Values))
      ensures var r := Step(old(S()), b);
        if r.Err? then err == Some(r.error) && out == old(out)
        else err == None && S() == r.value.0 && out == old(out) + r.value.1
    {
      hide DecodePacket, EsStep, DecodePat, DecodePmt, AddPrograms, AddStreams;
      var r := D.DecodePacket(b);
      if r.Err? {
        return Some(r.error);
      }
      var p := r.value;
      if p.pid == 0 {
        err := InputPat(p);
      } else if p.pid == PID_NULL {
        err := None;
      } else if p.pid in programs {
        err := InputPmt(p);
      } else if p.pid in esStreams {
        err := InputEs(p);
      } else {
        err := None;
      }
    }

    /** Packets in, frames out, until the first error. */
    method Input(packets: seq<bytes>) returns (err: Option<Error>)
      requires Valid() && Whole(packets)
      modifies this, esStreams.Values
      ensures Valid() && fresh(esStreams.Values - old(esStreams.Values))
      ensures var r := Run(old(S()), packets);
        if r.Err? then err == Some(r.error) else err == None && S() == r.value.0 && out == old(out) + r.value.1
    {
      hide Step, Run;
      var i := 0;
      ghost var sofar: seq<Report> := [];
      assert packets[0..] == packets;
      RunNext([], S(), packets);
      while i < |packets|
        invariant i <= |packets| && Valid() && fresh(esStreams.Values - old(esStreams.Values))
        invariant out == old(out) + sofar
        invariant Run(old(S()), packets) == After(sofar, Run(S(), packets[i..]))
      {
        RunNext(sofar, S(), packets[i..]);
        assert packets[i..][1..] == packets[i + 1..];
        sofar := sofar + if Step(S(), packets[i]).Ok? then Step(S(), packets[i]).value.1 else [];
        err := InputPacket(packets[i]);
        if err.Some? {
          return;
        }
        i := i + 1;
      }
      RunNext(sofar, S(), []);
      return None;
    }

    method FlushStream(pid: pid13)
      requires Valid() && pid in esStreams
      modifies this`out, esStreams[pid]
      ensures S() == old(S()).(es := old(S()).es[pid := esStreams[pid].S()]) && Pending(S().es[pid]) == []
      ensures out == old(out) + Reports(pid, old(S()).es[pid].kind, Pending(old(S()).es[pid]))
    {
      hide Pending, Reports;
      var stream := esStreams[pid];
      var done := stream.Flush();
      out := out + Reports(pid, stream.kind, done);
    }

    /** At the end of the input the frame under assembly of every stream is reported, in any order of the streams. */
    method Flush()
      requires Valid()
      modifies this`out, esStreams.Values
      ensures Valid() && S().programs == old(S()).programs && S().es.Keys == old(S()).es.Keys
      ensures forall pid: pid13 :: ReportsOf(out, pid) == ReportsOf(old(out), pid) + PendingOf(old(S()), pid)
      ensures forall pid: pid13 :: PendingOf(S(), pid) == []
    {
      hide ReportsOf, Reports, Pending, ReportedBut, FlushedBut, PendingOf;
      var left := esStreams.Keys;
      ghost var d := S();
      assert d.es.Keys == left;
      ReportedNone(out, d);
      FlushedNone(d);
      while left != {}
        invariant left <= d.es.Keys && S().programs == d.programs && S().es.Keys == d.es.Keys
        invariant FlushedBut(S(), d, left)
        invariant ReportedBut(out, old(out), d, left)
        decreases |left|
      {
        var pid :| pid in left;
        ReportedMore(out, old(out), d, left, pid);
        ghost var was := S();
        FlushedStays(was, d, left, pid);
        FlushStream(pid);
        FlushedMore(was, S(), d, left, pid);
        left := left - {pid};
      }
      ReportedAll(out, old(out), d);
      NonePending(S(), d);
    }
  }

  /** Every stream but those left has nothing under assembly. */
  ghost predicate FlushedBut(now: Demux, was: Demux, left: set<pid13>)
    requires left <= was.es.Keys && now.es.Keys == was.es.Keys
  {
    forall pid :: pid in now.es ==> if pid in left then now.es[pid] == was.es[pid] else Pending(now.es[pid]) == []
  }

  lemma {:induction false} FlushedNone(d: Demux)
    ensures FlushedBut(d, d, d.es.Keys)
  {
  }

  lemma {:induction false} FlushedStays(now: Demux, was: Demux, left: set<pid13>, pid: pid13)
    requires left <= was.es.Keys && now.es.Keys == was.es.Keys && FlushedBut(now, was, left) && pid in left
    ensures now.es[pid] == was.es[pid]
  {
  }

  lemma {:induction false} FlushedMore(now: Demux, next: Demux, was: Demux, left: set<pid13>, pid: pid13)
    requires left <= was.es.Keys && now.es.Keys == was.es.Keys && FlushedBut(now, was, left) && pid in left
    requires pid in next.es && next == now.(es := now.es[pid := next.es[pid]]) && Pending(next.es[pid]) == []
    ensures next.es.Keys == was.es.Keys && FlushedBut(next, was, left - {pid})
  {
    hide Pending;
  }

  lemma {:induction false} NonePending(now: Demux, was: Demux)
    requires now.es.Keys == was.es.Keys && FlushedBut(now, was, {})
    ensures forall pid: pid13 :: PendingOf(now, pid) == []
  {
    hide Reports, Pending;
    forall pid: pid13
      ensures PendingOf(now, pid) == []
    {
      if pid in now.es {
        NoneReported(pid, now.es[pid].kind);
      }
    }
  }

  lemma {:induction false} NoneReported(pid: pid13, kind: byte)
    ensures Reports(pid, kind, []) == []
  {
  }

  /** What was pending has been reported for every stream but those left. */
  ghost predicate ReportedBut(out: seq<Report>, was: seq<Report>, d: Demux, left: set<pid13>) {
    forall pid: pid13 :: ReportsOf(out, pid) == ReportsOf(was, pid) + if pid in left then [] else PendingOf(d, pid)
  }

  lemma {:induction false} ReportedNone(out: seq<Report>, d: Demux)
    ensures ReportedBut(out, out, d, d.es.Keys)
  {
    forall pid: pid13
      ensures ReportsOf(out, pid) == ReportsOf(out, pid) + if pid in d.es.Keys then [] else PendingOf(d, pid)
    {
    }
  }

  lemma {:induction false} ReportedMore(out: seq<Report>, was: seq<Report>, d: Demux, left: set<pid13>, pid: pid13)
    requires ReportedBut(out, was, d, left) && pid in left && pid in d.es
    ensures ReportedBut(out + Reports(pid, d.es[pid].kind, Pending(d.es[pid])), was, d, left - {pid})
  {
    hide ReportsOf, Reports, Pending;
    var units := Pending(d.es[pid]);
    forall other: pid13
      ensures ReportsOf(out + Reports(pid, d.es[pid].kind, units), other)
           == ReportsOf(was, other) + if other in left - {pid} then [] else PendingOf(d, other)
    {
      ReportsOfConcat(out, Reports(pid, d.es[pid].kind, units), other);
      ReportsOfOne(pid, d.es[pid].kind, units, other);
      assert ReportsOf(out, other) + [] == ReportsOf(out, other);
      assert ReportsOf(was, other) + [] == ReportsOf(was, other);
    }
  }

  lemma {:induction false} ReportedAll(out: seq<Report>, was: seq<Report>, d: Demux)
    requires ReportedBut(out, was, d, {})
    ensures forall pid: pid13 :: ReportsOf(out, pid) == ReportsOf(was, pid) + PendingOf(d, pid)
  {
  }

  /** A run's result with the reports that came before it. */
  function After(sofar: seq<Report>, r: Result<(Demux, seq<Report>), Error>): Result<(Demux, seq<Report>), Error> {
    if r.Err? then r else Ok((r.value.0, sofar + r.value.1))
  }

  lemma {:induction false} RunNext(sofar: seq<Report>, d: Demux, packets: seq<bytes>)
    requires Whole(packets)
    ensures packets == [] ==> Run(d, packets) == Ok((d, [])) && sofar + [] == sofar
    ensures packets != [] ==> var one := Step(d, packets[0]);
      After(sofar, Run(d, packets)) == if one.Err? then one else After(sofar + one.value.1, Run(one.value.0, packets[1..]))
    ensures After([], Run(d, packets)) == Run(d, packets)
  {
    hide Step;
    var all := Run(d, packets);
    assert all.Ok? ==> [] + all.value.1 == all.value.1;
    if packets != [] && Step(d, packets[0]).Ok? {
      var one := Step(d, packets[0]).value;
      var rest := Run(one.0, packets[1..]);
      if rest.Ok? {
        assert sofar + (one.1 + rest.value.1) == (sofar + one.1) + rest.value.1;
      }
    }
  }
}
