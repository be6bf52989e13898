/** The transport stream muxer, changed in place; every packet goes through a bit writer. */
module TsMuxObjects {
  import opened Bytes
  import opened Wrappers
  import opened TsWire
  import opened TsMux
  import opened BitWriter
  import BitCodes
  import E = TsEncoding

  class TsMuxer {
    var streams: seq<Stream>
    var nextPid: u16
    var pcrPid: u16
    var patCc: nat
    var pmtCc: nat
    var patPeriod: u64
    /** The packets handed to the caller so far. */
    var out: seq<bytes>

    ghost function S(): Mux
      reads this
    {
      Mux(streams, nextPid, pcrPid, patCc, pmtCc, patPeriod)
    }

    ghost predicate Valid()
      reads this
    {
      CountersSmall(S())
    }

    constructor ()
      ensures Valid() && S() == FRESH && out == []
    {
      streams, nextPid, pcrPid, patCc, pmtCc, patPeriod, out := [], FIRST_STREAM_PID, 0, 0, 0, 0, [];
    }

    method AddStream(kind: byte) returns (pid: u16)
      requires Valid()
      modifies this
      ensures Valid() && S() == WithStream(old(S()), kind) && pid == old(nextPid) && out == old(out)
    {
      pid := nextPid;
      nextPid := (nextPid as int + 1) % 0x1_0000;
      streams := streams + [Stream(pid, kind, 0)];
    }

    method FindStream(pid: u16) returns (i: nat)
      ensures i == Find(streams, pid)
    {
      i := 0;
      while i < |streams| && streams[i].pid != pid
        invariant i <= |streams| && Find(streams, pid) == i + Find(streams[i..], pid)
      {
        i := i + 1;
      }
    }

    method Emit(packet: bytes)
      modifies this`out
      ensures out == old(out) + [packet]
    {
      out := out + [packet];
    }

    method WriteProgramTables(f: Frame) returns (ok: bool)
      requires Valid()
      modifies this`patPeriod, this`patCc, this`pmtCc, this`out
      ensures Valid() && old(out) <= out && Written(S(), out[|old(out)|..], ok) == WriteTables(old(S()), f)
    {
      if patPeriod == 0 || (patPeriod as int + 400) % TWO_64 < f.dts {
        patPeriod := f.dts;
        if patPeriod == 0 {
          patPeriod := 1;
        }
        var cc := patCc;
        patCc := (patCc + 1) % 16;
        var pat := BuildPat(cc, f.patCrc);
        Emit(pat);
        cc := pmtCc;
        pmtCc := (pmtCc + 1) % 16;
        if 5 + 3 + 9 + 5 * |streams| + 4 > PACKET_SIZE {
          return false;
        }
        var pmt := BuildPmt(cc, pcrPid, streams, f.pmtCrc);
        Emit(pmt);
      }
      return true;
    }

    method EmitNext(i: nat, job: Job, first: bool, data: bytes) returns (rest: bytes)
      requires Valid() && i < |streams| && Sane(job)
      modifies this`streams, this`out
      ensures streams == old(streams)[i := old(streams[i]).(cc := (old(streams[i].cc) + 1) % 16)]
      ensures out == old(out) + [NextPacket(job, first, old(streams[i].cc), data)]
      ensures rest == data[Taken(job, first, |data|)..]
    {
      hide NextPacket, Taken;
      var cc := streams[i].cc;
      streams := streams[i := streams[i].(cc := (cc + 1) % 16)];
      var packet;
      packet, rest := BuildPacket(job, first, cc, data);
      Emit(packet);
    }

    /** One PES packet: the continuity counter moves with every packet that leaves. */
    method WritePes(i: nat, job: Job, data: bytes)
      requires Valid() && i < |streams| && Sane(job)
      modifies this`streams, this`out
      ensures out == old(out) + PesPackets(job, true, old(streams[i].cc), data)
      ensures streams == old(streams)[i := old(streams[i]).(cc := CcAfter(old(streams[i].cc), |PesPackets(job, true, old(streams[i].cc), data)|))]
    {
      hide NextPacket, PesPackets, CcAfter;
      ghost var s0 := streams[i];
      CcStep(s0.cc, 0);
      ghost var all := PesPackets(job, true, s0.cc, data);
      ghost var sent: nat := 0;
      var first, more, rest := true, true, data;
      while more
        invariant i < |streams| && streams == old(streams)[i := s0.(cc := CcAfter(s0.cc, sent))]
        invariant more ==> out + PesPackets(job, first, streams[i].cc, rest) == old(out) + all
        invariant more ==> sent + |PesPackets(job, first, streams[i].cc, rest)| == |all|
        invariant !more ==> out == old(out) + all && sent == |all|
        decreases more, |rest|
      {
        PesPacketsIs(job, first, streams[i].cc, rest);
        CcStep(s0.cc, sent);
        rest := EmitNext(i, job, first, rest);
        first := false;
        sent := sent + 1;
        more := |rest| > 0;
      }
    }

    /** Writes one frame; an unknown stream or an oversized map is an error. */
    method Write(f: Frame) returns (ok: bool)
      requires Valid()
      modifies this
      ensures Valid() && old(out) <= out && Written(S(), out[|old(out)|..], ok) == WriteFrame(old(S()), f)
    {
      hide PesPackets, WriteTables, TablesDue;
      WriteKeeps(S(), f);
      var i := FindStream(f.pid);
      if i == |streams| {
        return false;
      }
      var kind := streams[i].kind;
      if pcrPid == 0 || (IsVideo(kind) && pcrPid != f.pid) {
        pcrPid := f.pid;
      }
      ghost var at := S();
      ok := WriteProgramTables(f);
      if !ok {
        return;
      }
      ghost var tables := out[|old(out)|..];
      assert out == old(out) + tables;
      TablesKeep(at, f);
      var job := JobOf(pcrPid, streams[i], f);
      WritePes(i, job, f.data);
      assert out[|old(out)|..] == tables + PesPackets(job, true, WriteTables(at, f).mux.streams[i].cc, f.data);
    }
  }

  /** The adaptation field asked for by a random access point or a clock, and what it takes. */
  method StartField(job: Job, first: bool) returns (field: Option<Field>, headlen: nat)
    requires Sane(job)
    ensures headlen == HeadLength(job, first) - (if first then PES_HEADER + |job.aud| else 0)
    ensures field == if first && (job.idr || job.pcr)
      then Some(Flags(job.idr, if job.pcr then Some(if job.dts == 0 then job.pts else job.dts) else None, 0)) else None
  {
    field, headlen := None, 4;
    if first && job.idr {
      field := Some(Flags(true, None, 0));
      headlen := headlen + 2;
    }
    if first && job.pcr {
      if field.None? {
        field := Some(Flags(false, None, 0));
        headlen := headlen + 2;
      }
      field := Some(field.value.(pcr := Some(if job.dts == 0 then job.pts else job.dts)));
      headlen := headlen + 6;
    }
  }

  /** Stuffing to fill the packet, in the field there is or in one made for it. */
  method Stuff(field0: Option<Field>, headlen0: nat, size: nat) returns (field: Field)
    requires size + headlen0 < PACKET_SIZE && (field0.Some? ==> field0.value.Flags? && field0.value.stuffing == 0)
    ensures var free := PACKET_SIZE - size - headlen0;
      field == if field0.Some? then field0.value.(stuffing := free) else if free == 1 then SingleStuffing else Flags(false, None, free - 2)
  {
    var headlen := headlen0;
    if field0.Some? {
      field := field0.value;
    } else {
      headlen := headlen + 1;
      if PACKET_SIZE - size - headlen >= 1 {
        headlen := headlen + 1;
        field := Flags(false, None, 0);
      } else {
        return SingleStuffing;
      }
    }
    field := field.(stuffing := PACKET_SIZE - size - headlen);
  }

  /** The length the header announces, none when it does not fit; the delimiter goes first. */
  method StartPayload(job: Job, first: bool, headlen0: nat, size: nat) returns (headlen: nat, length: u16, payload: bytes)
    ensures headlen == headlen0 + (if first then PES_HEADER + |job.aud| else 0)
    ensures payload == (if first then job.aud else []) && (first ==> length == PesLength(|job.aud| + size))
  {
    headlen, length, payload := headlen0, 0, [];
    if first {
      headlen := headlen + 19 + |job.aud|;
      payload := job.aud;
      if headlen - headlen0 - 6 + size <= 0xFFFF {
        length := headlen - headlen0 - 6 + size;
      }
    }
  }

  /** One packet of a PES packet, and the data left for the next. */
  method BuildPacket(job: Job, first: bool, cc: nat, data: bytes) returns (packet: bytes, rest: bytes)
    requires Sane(job) && cc < 16
    ensures packet == NextPacket(job, first, cc, data) && rest == data[Taken(job, first, |data|)..]
  {
    hide EncodePes, PesLength, EncodePacket, FieldLength, PesId;
    NextPacketSize(job, first, cc, data);
    var field, headlen0 := StartField(job, first);
    var headlen, length, payload := StartPayload(job, first, headlen0, |data|);
    if |data| + headlen < PACKET_SIZE {
      var stuffed := Stuff(field, headlen, |data|);
      field := Some(stuffed);
      assert data[..|data|] == data;
      payload := payload + data;
      rest := [];
    } else {
      payload := payload + data[..PACKET_SIZE - headlen];
      rest := data[PACKET_SIZE - headlen..];
    }
    assert field == FieldFor(job, first, |data|);
    packet := Assemble(job, first, cc, field, length, payload);
    assert payload == (if first then job.aud else []) + data[..Taken(job, first, |data|)];
    Joined(job, first, length, data, payload);
  }

  lemma {:induction false} Joined(job: Job, first: bool, length: u16, data: bytes, payload: bytes)
    requires Sane(job) && payload == (if first then job.aud else []) + data[..Taken(job, first, |data|)]
    requires first ==> length == PesLength(|job.aud| + |data|)
    ensures (if first then EncodePes(PesId(job.kind), length, job.idr, job.pts, job.dts) else []) + payload == PayloadOf(job, first, data)
  {
    hide EncodePes, Taken, PesLength;
  }

  method Assemble(job: Job, first: bool, cc: nat, field: Option<Field>, length: u16, payload: bytes) returns (packet: bytes)
    requires cc < 16 && (field.Some? ==> FieldLength(field.value) < 0x100)
    ensures packet == EncodePacket(first, job.pid % 0x2000, cc, field,
      (if first then EncodePes(PesId(job.kind), length, job.idr, job.pts, job.dts) else []) + payload)
  {
    hide EncodeHeader, EncodeField, EncodePes, PesId, FieldLength, BitCodes.Flat, E.Done;
    var w := new BitStreamWriter(PACKET_SIZE);
    E.DoneIs(w, []);
    E.EncodeHeader(w, first, job.pid % 0x2000, if field.Some? then 3 else 1, cc);
    ghost var head := EncodeHeader(first, job.pid % 0x2000, if field.Some? then 3 else 1, cc);
    assert [] + head == head;
    if field.Some? {
      var a := new E.AdaptationField(field.value);
      a.Encode(w);
    }
    ghost var start := head + if field.Some? then EncodeField(field.value) else [];
    assert E.Done(w) == start;
    if first {
      E.EncodePes(w, PesId(job.kind), length, job.idr, job.pts, job.dts, payload);
    } else {
      E.PutData(w, payload);
      assert [] + payload == payload;
    }
    packet := E.Take(w);
  }

  /** A table in a packet of its own: pointer byte, section, stuffing. */
  method BuildPat(cc: nat, crc: u32) returns (b: bytes)
    requires cc < 16
    ensures b == PatPacket(cc, crc)
  {
    hide EncodeHeader, EncodePat;
    var w := new BitStreamWriter(PACKET_SIZE);
    E.DoneIs(w, []);
    E.EncodeHeader(w, true, 0, 1, cc);
    E.PutData(w, [0]);
    E.EncodePat(w, [ProgramEntry(PROGRAM, PMT_PID)], crc);
    E.Pad(w, PACKET_SIZE);
    b := E.Take(w);
    PatLength(crc);
  }

  lemma {:induction false} PatLength(crc: u32)
    ensures |EncodePat([ProgramEntry(PROGRAM, PMT_PID)], crc)| <= PACKET_SIZE - 5
  {
  }

  lemma {:induction false} PmtLength(pcrPid: u16, streams: seq<Stream>, crc: u32)
    requires PmtFits(streams)
    ensures |EncodePmt(PROGRAM, pcrPid % 0x2000, Entries(streams), crc)| <= PACKET_SIZE - 5
  {
  }

  method BuildPmt(cc: nat, pcrPid: u16, streams: seq<Stream>, crc: u32) returns (b: bytes)
    requires cc < 16 && PmtFits(streams)
    ensures b == PmtPacket(cc, pcrPid, streams, crc)
  {
    hide EncodeHeader, EncodePmt;
    var entries: seq<StreamEntry> := [];
    for i := 0 to |streams|
      invariant entries == Entries(streams)[..i]
    {
      entries := entries + [StreamEntry(streams[i].kind, streams[i].pid % 0x2000)];
    }
    assert Entries(streams)[..|streams|] == Entries(streams);
    var w := new BitStreamWriter(PACKET_SIZE);
    E.DoneIs(w, []);
    E.EncodeHeader(w, true, PMT_PID, 1, cc);
    E.PutData(w, [0]);
    E.EncodePmt(w, PROGRAM, pcrPid % 0x2000, entries, crc);
    E.Pad(w, PACKET_SIZE);
    b := E.Take(w);
    PmtLength(pcrPid, streams, crc);
  }
}
