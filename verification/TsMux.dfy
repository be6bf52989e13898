/** The transport stream muxer: tables now and then, and PES packets cut into 188 bytes. */
module TsMux {
  import opened Bytes
  import opened Wrappers
  import opened TsWire

  const MPEG1_AUDIO := 0x03
  const MPEG2_AUDIO := 0x04
  const AAC := 0x0F
  const H264 := 0x1B
  const H265 := 0x24

  const FIRST_STREAM_PID := 0x100
  const PMT_PID := 0x200
  const PROGRAM := 1

  predicate IsAudio(kind: byte) {
    kind == AAC || kind == MPEG1_AUDIO || kind == MPEG2_AUDIO
  }

  predicate IsVideo(kind: byte) {
    kind == H264 || kind == H265
  }

  function PesId(kind: byte): byte {
    if IsAudio(kind) then 0xC0 else if IsVideo(kind) then 0xE0 else 0xBD
  }

  /** An access unit delimiter goes before video that does not carry its own. */
  function AudFor(kind: byte, hasAud: bool): (b: bytes)
    ensures |b| <= 7 && (!IsVideo(kind) ==> b == [])
  {
    if hasAud then [] else if kind == H264 then [0, 0, 0, 1, 9, 0xF0] else if kind == H265 then [0, 0, 0, 1, 0x46, 1, 0x50] else []
  }

  /** Everything about a PES packet but its data. */
  datatype Job = Job(pid: u16, kind: byte, pcr: bool, idr: bool, aud: bytes, pts: u64, dts: u64)

  predicate Sane(job: Job) {
    |job.aud| <= 7
  }

  function HeadLength(job: Job, first: bool): (n: nat)
    ensures Sane(job) ==> n <= 38
  {
    if !first then 4
    else 4 + (if job.idr || job.pcr then 2 else 0) + (if job.pcr then 6 else 0) + PES_HEADER + |job.aud|
  }

  /** How much of the data the next packet takes. */
  function Taken(job: Job, first: bool, size: nat): (n: nat)
    requires Sane(job)
    ensures n <= size && (n == 0 ==> size == 0)
  {
    var head := HeadLength(job, first);
    if size + head < PACKET_SIZE then size else PACKET_SIZE - head
  }

  /** The adaptation field of the next packet; it also takes up what the data leaves free. */
  function FieldFor(job: Job, first: bool, size: nat): Option<Field>
    requires Sane(job)
  {
    var head := HeadLength(job, first);
    var free := if size + head < PACKET_SIZE then PACKET_SIZE - size - head else 0;
    if first && (job.idr || job.pcr) then
      Some(Flags(job.idr, if job.pcr then Some(if job.dts == 0 then job.pts else job.dts) else None, free))
    else if free == 0 then None
    else if free == 1 then Some(SingleStuffing)
    else Some(Flags(false, None, free - 2))
  }

  function PayloadOf(job: Job, first: bool, data: bytes): bytes
    requires Sane(job)
  {
    (if first then EncodePes(PesId(job.kind), PesLength(|job.aud| + |data|), job.idr, job.pts, job.dts) + job.aud else [])
    + data[..Taken(job, first, |data|)]
  }

  function NextPacket(job: Job, first: bool, cc: nat, data: bytes): bytes
    requires Sane(job) && cc < 16
  {
    EncodePacket(first, job.pid % 0x2000, cc, FieldFor(job, first, |data|), PayloadOf(job, first, data))
  }

  /** The packets of one PES packet: the first carries its header, the last is stuffed. */
  function PesPackets(job: Job, first: bool, cc: nat, data: bytes): seq<bytes>
    requires Sane(job) && cc < 16
    decreases |data|
  {
    var rest := data[Taken(job, first, |data|)..];
    [NextPacket(job, first, cc, data)] + if rest == [] then [] else PesPackets(job, false, (cc + 1) % 16, rest)
  }

  /** Every packet built for a PES packet is exactly one transport packet long. */
  lemma {:induction false} NextPacketSize(job: Job, first: bool, cc: nat, data: bytes)
    requires Sane(job) && cc < 16
    ensures |NextPacket(job, first, cc, data)| == PACKET_SIZE
    ensures FieldFor(job, first, |data|).Some? ==> FieldLength(FieldFor(job, first, |data|).value) < 0x100
  {
    hide EncodePes, EncodeHeader, EncodeField, PutPcr;
  }

  lemma {:induction false} PesPacketSizes(job: Job, first: bool, cc: nat, data: bytes, i: nat)
    requires Sane(job) && cc < 16 && i < |PesPackets(job, first, cc, data)|
    ensures |PesPackets(job, first, cc, data)[i]| == PACKET_SIZE
    decreases i
  {
    NextPacketSize(job, first, cc, data);
    hide NextPacket, Taken;
    if i > 0 {
      var rest := data[Taken(job, first, |data|)..];
      PesPacketSizes(job, false, (cc + 1) % 16, rest, i - 1);
    }
  }

  // ---------------------------------------------------------------------------
  // The muxer's state
  // ---------------------------------------------------------------------------

  datatype Stream = Stream(pid: u16, kind: byte, cc: nat)

  datatype Mux = Mux(streams: seq<Stream>, nextPid: u16, pcrPid: u16, patCc: nat, pmtCc: nat, patPeriod: u64)

  /** A frame to write. Checksums of the tables are whatever the checksum routine gives. */
  datatype Frame = Frame(pid: u16, data: bytes, pts: u64, dts: u64, idr: bool, hasAud: bool, patCrc: u32, pmtCrc: u32)

  datatype Written = Written(mux: Mux, packets: seq<bytes>, ok: bool)

  predicate CountersSmall(m: Mux) {
    m.patCc < 16 && m.pmtCc < 16 && forall i :: 0 <= i < |m.streams| ==> m.streams[i].cc < 16
  }

  const FRESH: Mux := Mux([], FIRST_STREAM_PID, 0, 0, 0, 0)

  function WithStream(m: Mux, kind: byte): Mux {
    m.(streams := m.streams + [Stream(m.nextPid, kind, 0)], nextPid := (m.nextPid as int + 1) % 0x1_0000)
  }

  /** The first stream with the pid, or the number of streams. */
  function Find(streams: seq<Stream>, pid: u16): (i: nat)
    ensures i <= |streams| && (i < |streams| ==> streams[i].pid == pid)
    ensures forall j :: 0 <= j < i ==> streams[j].pid != pid
  {
    if streams == [] || streams[0].pid == pid then 0 else 1 + Find(streams[1..], pid)
  }

  function TablePacket(pid: pid13, cc: nat, section: bytes): (b: bytes)
    requires cc < 16 && |section| <= PACKET_SIZE - 5
    ensures |b| == PACKET_SIZE
  {
    EncodeHeader(true, pid, 1, cc) + [0] + section + Stuffing(PACKET_SIZE - 5 - |section|)
  }

  function Entries(streams: seq<Stream>): (e: seq<StreamEntry>)
    ensures |e| == |streams|
  {
    seq(|streams|, i requires 0 <= i < |streams| => StreamEntry(streams[i].kind, streams[i].pid % 0x2000))
  }

  function PatPacket(cc: nat, crc: u32): (b: bytes)
    requires cc < 16
    ensures |b| == PACKET_SIZE
  {
    TablePacket(0, cc, EncodePat([ProgramEntry(PROGRAM, PMT_PID)], crc))
  }

  /** A map of more streams than fit one packet is refused. */
  predicate PmtFits(streams: seq<Stream>) {
    5 + 3 + 9 + 5 * |streams| + 4 <= PACKET_SIZE
  }

  function PmtPacket(cc: nat, pcrPid: u16, streams: seq<Stream>, crc: u32): (b: bytes)
    requires cc < 16 && PmtFits(streams)
    ensures |b| == PACKET_SIZE
  {
    TablePacket(PMT_PID, cc, EncodePmt(PROGRAM, pcrPid % 0x2000, Entries(streams), crc))
  }

  function PcrPidFor(m: Mux, s: Stream): u16 {
    if m.pcrPid == 0 || (IsVideo(s.kind) && m.pcrPid != s.pid) then s.pid else m.pcrPid
  }

  predicate TablesDue(m: Mux, dts: u64) {
    m.patPeriod == 0 || (m.patPeriod as int + 400) % TWO_64 < dts
  }

  /** The program tables, written before the first frame and at least every 400 ms. */
  function WriteTables(m: Mux, f: Frame): Written
    requires CountersSmall(m)
  {
    if !TablesDue(m, f.dts) then Written(m, [], true)
    else
      var m' := m.(patPeriod := if f.dts == 0 then 1 else f.dts, patCc := (m.patCc + 1) % 16, pmtCc := (m.pmtCc + 1) % 16);
      var pat := PatPacket(m.patCc, f.patCrc);
      if PmtFits(m.streams) then Written(m', [pat, PmtPacket(m.pmtCc, m.pcrPid, m.streams, f.pmtCrc)], true)
      else Written(m', [pat], false)
  }

  function JobOf(pcrPid: u16, s: Stream, f: Frame): (job: Job)
    ensures Sane(job)
  {
    Job(s.pid, s.kind, s.pid == pcrPid, f.idr && IsVideo(s.kind), AudFor(s.kind, f.hasAud),
        f.pts as int * 90 % TWO_64, f.dts as int * 90 % TWO_64)
  }

  /** The continuity counter of a stream n packets later. */
  function CcAfter(cc: nat, n: nat): (r: nat)
    ensures r < 16
  {
    (cc + n) % 16
  }

  lemma {:induction false} CcStep(cc: nat, n: nat)
    requires cc < 16
    ensures CcAfter(cc, 0) == cc && CcAfter(cc, n + 1) == (CcAfter(cc, n) + 1) % 16
  {
  }

  function WriteData(m: Mux, i: nat, f: Frame): Written
    requires CountersSmall(m) && i < |m.streams|
  {
    var s := m.streams[i];
    var packets := PesPackets(JobOf(m.pcrPid, s, f), true, s.cc, f.data);
    Written(m.(streams := m.streams[i := s.(cc := CcAfter(s.cc, |packets|))]), packets, true)
  }

  function WriteFrame(m: Mux, f: Frame): Written
    requires CountersSmall(m)
  {
    var i := Find(m.streams, f.pid);
    if i == |m.streams| then Written(m, [], false)
    else
      var tables := WriteTables(m.(pcrPid := PcrPidFor(m, m.streams[i])), f);
      if !tables.ok then tables
      else
        var data := WriteData(tables.mux, i, f);
        Written(data.mux, tables.packets + data.packets, true)
  }

  lemma {:induction false} WriteKeeps(m: Mux, f: Frame)
    requires CountersSmall(m)
    ensures CountersSmall(WriteFrame(m, f).mux)
    ensures |WriteFrame(m, f).mux.streams| == |m.streams|
    ensures forall i :: 0 <= i < |WriteFrame(m, f).packets| ==> |WriteFrame(m, f).packets[i]| == PACKET_SIZE
  {
    hide PesPackets, PatPacket, PmtPacket;
    var i := Find(m.streams, f.pid);
    if i < |m.streams| {
      var t := WriteTables(m.(pcrPid := PcrPidFor(m, m.streams[i])), f);
      if t.ok {
        var s := t.mux.streams[i];
        var job := JobOf(t.mux.pcrPid, s, f);
        forall k | 0 <= k < |PesPackets(job, true, s.cc, f.data)|
          ensures |PesPackets(job, true, s.cc, f.data)[k]| == PACKET_SIZE
        {
          PesPacketSizes(job, true, s.cc, f.data, k);
        }
      }
    }
  }

  lemma {:induction false} TablesKeep(m: Mux, f: Frame)
    requires CountersSmall(m)
    ensures WriteTables(m, f).mux.streams == m.streams && CountersSmall(WriteTables(m, f).mux)
  {
  }

  lemma {:induction false} PesPacketsIs(job: Job, first: bool, cc: nat, data: bytes)
    requires Sane(job) && cc < 16
    ensures var rest := data[Taken(job, first, |data|)..];
            PesPackets(job, first, cc, data)
            == [NextPacket(job, first, cc, data)] + if rest == [] then [] else PesPackets(job, false, (cc + 1) % 16, rest)
  {
  }
}
