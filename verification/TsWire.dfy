/**
 * Transport stream packets, adaptation fields, PES headers and program tables as bytes
 * (sections 2.4.3 and 2.4.4 of ISO/IEC 13818-1).
 */
module TsWire {
  import opened Arithmetic
  import opened Bytes
  import opened Wrappers

  const PACKET_SIZE := 188
  const PID_NULL := 0x1FFF
  const TWO_33: int := 0x2_0000_0000

  type pid13 = x: int | 0 <= x < 0x2000

  datatype Error =
    | BadSync | FieldTooLong | FieldTruncated
    | NoSection | BadTable | ShortSection | LongSection | LongProgramInfo | LongStreamInfo
    | BadPes | WrongSize

  // ---------------------------------------------------------------------------
  // Packet headers and adaptation fields
  // ---------------------------------------------------------------------------

  /** The adaptation fields the muxer writes. */
  datatype Field =
    | SingleStuffing
    | Flags(randomAccess: bool, pcr: Option<u64>, stuffing: nat)

  function Bit(b: bool): nat {
    if b then 1 else 0
  }

  function Stuffing(n: nat): (b: bytes)
    ensures |b| == n
  {
    seq(n, _ => 0xFF)
  }

  /** 33 bits of base, 6 reserved, 9 of extension, which is always zero. */
  function PutPcr(base: u64): (b: bytes)
    ensures |b| == 6
  {
    [base / 0x200_0000 % 0x100, base / 0x2_0000 % 0x100, base / 0x200 % 0x100, base / 2 % 0x100, base % 2 * 0x80, 0]
  }

  function FieldLength(f: Field): nat {
    if f.SingleStuffing? then 0 else 1 + (if f.pcr.Some? then 6 else 0) + f.stuffing
  }

  function EncodeField(f: Field): (b: bytes)
    ensures |b| == 1 + FieldLength(f)
  {
    match f
    case SingleStuffing => [0]
    case Flags(ra, pcr, n) =>
      [FieldLength(f) % 0x100, Bit(ra) * 0x40 + Bit(pcr.Some?) * 0x10]
      + (if pcr.Some? then PutPcr(pcr.value) else []) + Stuffing(n)
  }

  function EncodeHeader(start: bool, pid: pid13, control: nat, cc: nat): (b: bytes)
    requires control < 4 && cc < 16
    ensures |b| == 4
  {
    [0x47, Bit(start) * 0x40 + pid / 0x100, pid % 0x100, control * 0x10 + cc]
  }

  /** A packet with a payload; the field, if any, comes first. */
  function EncodePacket(start: bool, pid: pid13, cc: nat, field: Option<Field>, payload: bytes): bytes
    requires cc < 16
  {
    EncodeHeader(start, pid, if field.Some? then 3 else 1, cc)
    + (if field.Some? then EncodeField(field.value) else []) + payload
  }

  datatype Packet = Packet(start: bool, pid: pid13, hasPayload: bool, cc: nat, discontinuity: bool, payload: bytes)

  /** Where the fields announced by the flags of an adaptation field end. */
  function FieldEnd(b: bytes): Option<nat>
    requires b != []
  {
    var fixed := 1 + b[0] / 0x10 % 2 * 6 + b[0] / 0x08 % 2 * 6 + b[0] / 0x04 % 2;
    var afterPrivate :=
      if b[0] / 0x02 % 2 == 0 then Some(fixed)
      else if fixed < |b| then Some(fixed + 1 + b[fixed]) else None;
    if b[0] % 2 == 0 || afterPrivate.None? then afterPrivate else ExtensionEnd(b, afterPrivate.value)
  }

  function ExtensionEnd(b: bytes, at: nat): Option<nat> {
    if at + 1 >= |b| then None
    else
      var flags := b[at + 1];
      var described := 1 + flags / 0x80 * 2 + flags / 0x40 % 2 * 3 + flags / 0x20 % 2 * 5;
      Some(at + 1 + Max(b[at], described))
  }

  function DecodeField(b: bytes): Result<(bool, bytes), Error> {
    if b == [] then Err(FieldTooLong)
    else if b[0] == 0 then Ok((false, b[1..]))
    else if |b| - 1 < b[0] then Err(FieldTooLong)
    else
      var field := b[1..1 + b[0]];
      var end := FieldEnd(field);
      if end.None? || end.value > |field| then Err(FieldTruncated)
      else Ok((field[0] / 0x80 == 1, b[1 + b[0]..]))
  }

  function DecodePacket(b: bytes): Result<Packet, Error>
    requires |b| == PACKET_SIZE
  {
    if b[0] != 0x47 then Err(BadSync)
    else
      var start, pid, control, cc :=
        b[1] / 0x40 % 2 == 1, b[1] as int % 0x20 * 0x100 + b[2] as int, b[3] / 0x10 % 4, b[3] % 0x10;
      if pid == PID_NULL || control < 2 then Ok(Packet(start, pid, control % 2 == 1, cc, false, b[4..]))
      else
        var f := DecodeField(b[4..]);
        if f.Err? then Err(f.error) else Ok(Packet(start, pid, control % 2 == 1, cc, f.value.0, f.value.1))
  }

  lemma {:induction false} FieldShape(f: Field)
    requires f.Flags? && FieldLength(f) < 0x100
    ensures var b := EncodeField(f);
            && b[0] == FieldLength(f) >= 1 + 6 * Bit(f.pcr.Some?) && b[1] == Bit(f.randomAccess) * 0x40 + Bit(f.pcr.Some?) * 0x10
  {
  }

  lemma {:induction false} FieldEndIs(b: bytes, ra: nat, pcr: nat)
    requires b != [] && ra < 2 && pcr < 2 && b[0] == ra * 0x40 + pcr * 0x10
    ensures FieldEnd(b) == Some(1 + pcr * 6)
  {
  }

  lemma {:induction false} FieldRoundTrip(f: Field, rest: bytes)
    requires FieldLength(f) < 0x100
    ensures DecodeField(EncodeField(f) + rest) == Ok((false, rest))
  {
    var e := EncodeField(f);
    var b := e + rest;
    if f.Flags? {
      FieldShape(f);
      hide EncodeField, FieldEnd, FieldLength;
      var n := FieldLength(f);
      assert b[0] == n && n > 0;
      assert b[1..1 + n] == e[1..];
      assert b[1 + n..] == rest;
      var field := b[1..1 + n];
      assert field[0] == b[1];
      FieldEndIs(field, Bit(f.randomAccess), Bit(f.pcr.Some?));
    } else {
      assert b[1..] == rest;
    }
  }

  lemma {:induction false} HeaderRoundTrip(start: bool, pid: pid13, control: nat, cc: nat)
    requires control < 4 && cc < 16
    ensures var b := EncodeHeader(start, pid, control, cc);
            && (b[1] / 0x40 % 2 == 1 <==> start) && b[1] as int % 0x20 * 0x100 + b[2] as int == pid
            && b[3] / 0x10 % 4 == control && b[3] % 0x10 == cc
  {
    var hi := pid / 0x100;
    assert pid == hi * 0x100 + pid % 0x100;
    assert hi < 0x20;
  }

  lemma {:induction false} PacketRoundTrip(start: bool, pid: pid13, cc: nat, field: Option<Field>, payload: bytes)
    requires cc < 16 && pid != PID_NULL && |EncodePacket(start, pid, cc, field, payload)| == PACKET_SIZE
    ensures DecodePacket(EncodePacket(start, pid, cc, field, payload)) == Ok(Packet(start, pid, true, cc, false, payload))
  {
    hide DecodeField, EncodeField;
    var control := if field.Some? then 3 else 1;
    var b := EncodePacket(start, pid, cc, field, payload);
    HeaderRoundTrip(start, pid, control, cc);
    assert b[..4] == EncodeHeader(start, pid, control, cc);
    if field.Some? {
      assert b[4..] == EncodeField(field.value) + payload;
      FieldRoundTrip(field.value, payload);
    } else {
      assert b[4..] == payload;
    }
  }

  // ---------------------------------------------------------------------------
  // PES headers
  // ---------------------------------------------------------------------------

  const PES_HEADER := 19

  /** A 33-bit time stamp behind a 4-bit prefix, with its marker bits. */
  function PutStamp(prefix: nat, v: u64): (b: bytes)
    requires prefix < 16
    ensures |b| == 5
  {
    [prefix * 0x10 + v / 0x4000_0000 % 8 * 2 + 1, v / 0x40_0000 % 0x100, v / 0x8000 % 0x80 * 2 + 1,
     v / 0x80 % 0x100, v % 0x80 * 2 + 1]
  }

  function Stamp(b: bytes): (v: u64)
    requires |b| >= 5
  {
    (b[0] as int / 2 % 8 * 0x8000 + b[1] as int * 0x80 + b[2] as int / 2) * 0x8000 + b[3] as int * 0x80 + b[4] as int / 2
  }

  lemma {:induction false} Digits33(v: int)
    requires v >= 0
    ensures v % TWO_33 == (v / 0x4000_0000 % 8 * 0x8000 + v / 0x40_0000 % 0x100 * 0x80 + v / 0x8000 % 0x80) * 0x8000
                          + v / 0x80 % 0x100 * 0x80 + v % 0x80
  {
    TwoDigits(v, 0x8000, 0x4_0000, TWO_33);
    TwoDigits(v, 0x80, 0x100, 0x8000);
    TwoDigits(v / 0x8000, 0x80, 0x800, 0x4_0000);
    TwoDigits(v / 0x8000 / 0x80, 0x100, 8, 0x800);
    TwoDigits(v, 0x8000, 0x80, 0x40_0000);
    TwoDigits(v, 0x40_0000, 0x100, 0x4000_0000);
  }

  lemma {:induction false} StampDigits(prefix: nat, a: nat, b: byte, c: nat, d: byte, e: nat, rest: bytes)
    requires prefix < 16 && a < 8 && c < 0x80 && e < 0x80
    ensures Stamp([prefix * 0x10 + a * 2 + 1, b, c * 2 + 1, d, e * 2 + 1] + rest)
            == (a * 0x8000 + b as int * 0x80 + c) * 0x8000 + d as int * 0x80 + e
  {
    assert (prefix * 0x10 + a * 2 + 1) / 2 == prefix * 8 + a && (prefix * 8 + a) % 8 == a;
    assert (c * 2 + 1) / 2 == c && (e * 2 + 1) / 2 == e;
  }

  lemma {:induction false} StampRoundTrip(prefix: nat, v: u64, rest: bytes)
    requires prefix < 16
    ensures Stamp(PutStamp(prefix, v) + rest) == v % TWO_33
  {
    hide Stamp;
    Digits33(v);
    StampDigits(prefix, v / 0x4000_0000 % 8, v / 0x40_0000 % 0x100, v / 0x8000 % 0x80, v / 0x80 % 0x100, v % 0x80, rest);
  }

  function EncodePes(sid: byte, length: u16, aligned: bool, pts: u64, dts: u64): (b: bytes)
    ensures |b| == PES_HEADER
  {
    [0, 0, 1, sid, length / 0x100, length % 0x100, 0x80 + Bit(aligned) * 4, 0xC0, 10] + PutStamp(3, pts) + PutStamp(1, dts)
  }

  /**
   * What decoding a PES packet leaves behind: the stamps in force and the payload found.
   * `Short` asks for more data before any payload is known.
   */
  datatype PesResult =
    | Short(pts: u64, dts: u64)
    | Bad
    | Found(pts: u64, dts: u64, payload: bytes)

  function OptionalSize(stampFlags: nat, flags: nat): nat {
    (if stampFlags >= 2 then 5 else 0) + (if stampFlags == 3 then 5 else 0)
    + flags / 0x20 % 2 * 6 + flags / 0x10 % 2 * 3 + flags / 0x08 % 2 + flags / 0x04 % 2 + flags / 0x02 % 2 * 2
  }

  function DecodePes(b: bytes, pts: u64, dts: u64): PesResult {
    if |b| < 9 then Short(pts, dts)
    else if b[..3] != [0, 0, 1] then Bad
    else
      var length, stampFlags := U16(b[4..]), b[7] / 0x40;
      var headerLength: nat := b[8];
      if length != 0 && length < 3 + headerLength then Bad
      else if OptionalSize(stampFlags, b[7]) > headerLength then Bad
      else if |b| - 9 < headerLength then Short(pts, dts)
      else
        var pts' := if stampFlags >= 2 then Stamp(b[9..]) else pts;
        var dts' := if stampFlags == 3 then Stamp(b[14..]) else pts';
        PesPayload(length, b[9 + headerLength..], headerLength, pts', dts')
  }

  function PesPayload(length: u16, rest: bytes, headerLength: nat, pts: u64, dts: u64): PesResult
    requires length == 0 || 3 + headerLength <= length
  {
    if length == 0 then Found(pts, dts, rest)
    else
      var size := length - 3 - headerLength;
      if |rest| >= size then Found(pts, dts, rest[..size])
      else if rest == [] then Short(pts, dts)
      else Found(pts, dts, rest)
  }

  /** The length the muxer announces: none when the payload does not fit 16 bits. */
  function PesLength(payload: nat): u16 {
    if 13 + payload > 0xFFFF then 0 else 13 + payload
  }

  lemma {:induction false} PesRoundTrip(sid: byte, aligned: bool, pts: u64, dts: u64, total: nat, payload: bytes, was: u64, wasDts: u64)
    requires |payload| <= total && (total > 0 ==> payload != [])
    ensures DecodePes(EncodePes(sid, PesLength(total), aligned, pts, dts) + payload, was, wasDts)
            == Found(pts % TWO_33, dts % TWO_33, payload)
  {
    hide Stamp, PutStamp;
    var length := PesLength(total);
    var head := EncodePes(sid, length, aligned, pts, dts);
    var b := head + payload;
    assert b[..3] == [0, 0, 1];
    assert b[4] == length / 0x100 && b[5] == length % 0x100;
    assert U16(b[4..]) == length;
    assert b[7] == 0xC0 && b[8] == 10;
    assert b[9..] == PutStamp(3, pts) + (PutStamp(1, dts) + payload);
    assert b[14..] == PutStamp(1, dts) + payload;
    assert b[19..] == payload;
    StampRoundTrip(3, pts, PutStamp(1, dts) + payload);
    StampRoundTrip(1, dts, payload);
    assert payload[..|payload|] == payload;
  }

  // ---------------------------------------------------------------------------
  // Program tables
  // ---------------------------------------------------------------------------

  datatype ProgramEntry = ProgramEntry(number: u16, pid: pid13)
  datatype StreamEntry = StreamEntry(kind: byte, pid: pid13)

  function PutPid(top: nat, pid: pid13): (b: bytes)
    requires top < 8
    ensures |b| == 2
  {
    [top * 0x20 + pid / 0x100, pid % 0x100]
  }

  function Pid(b: bytes): pid13
    requires |b| >= 2
  {
    b[0] as int % 0x20 * 0x100 + b[1] as int
  }

  lemma {:induction false} PidRoundTrip(top: nat, pid: pid13, rest: bytes)
    requires top < 8
    ensures Pid(PutPid(top, pid) + rest) == pid
  {
    var b := PutPid(top, pid) + rest;
    assert b[..2] == PutPid(top, pid);
    assert pid == pid / 0x100 * 0x100 + pid % 0x100;
  }

  function PutPrograms(programs: seq<ProgramEntry>): (b: bytes)
    ensures |b| == 4 * |programs|
  {
    if programs == [] then []
    else PutU16(programs[0].number) + PutPid(7, programs[0].pid) + PutPrograms(programs[1..])
  }

  function PutStreams(streams: seq<StreamEntry>): (b: bytes)
    ensures |b| == 5 * |streams|
  {
    if streams == [] then []
    else [streams[0].kind] + PutPid(0, streams[0].pid) + [0, 0] + PutStreams(streams[1..])
  }

  /** A section: table id, length, the body that the length counts together with the checksum. */
  function Section(table: byte, body: bytes, crc: u32): (b: bytes)
    requires |body| + 4 < 0x1000
    ensures |b| == 3 + |body| + 4
  {
    [table, 0xB0 + (|body| + 4) / 0x100, (|body| + 4) % 0x100] + body + PutU32LE(crc)
  }

  function EncodePat(programs: seq<ProgramEntry>, crc: u32): bytes
    requires 5 + 4 * |programs| + 4 < 0x1000
  {
    Section(0, [0, 0, 0xC1, 0, 0] + PutPrograms(programs), crc)
  }

  function EncodePmt(number: u16, pcrPid: pid13, streams: seq<StreamEntry>, crc: u32): bytes
    requires 9 + 5 * |streams| + 4 < 0x1000
  {
    Section(2, PutU16(number) + [0xC1, 0, 0] + PutPid(7, pcrPid) + [0xF0, 0] + PutStreams(streams), crc)
  }

  /** Fill bytes before a section are skipped. */
  function SkipFill(b: bytes): bytes {
    if b != [] && b[0] == 0xFF then SkipFill(b[1..]) else b
  }

  /** The body of a section without its checksum, once the section is known to be whole. */
  function SectionBody(b: bytes, table: byte, least: nat): Result<bytes, Error>
    requires least >= 4
  {
    var s := SkipFill(b);
    if s == [] then Err(NoSection)
    else if |s| < 3 then Err(ShortSection)
    else
      var length := s[1] as int % 0x10 * 0x100 + s[2] as int;
      if s[0] != table then Err(BadTable)
      else if length < least then Err(ShortSection)
      else if length > |s| - 3 then Err(LongSection)
      else Ok(s[3..3 + length - 4])
  }

  function ReadPrograms(b: bytes): seq<ProgramEntry> {
    if |b| < 4 then [] else [ProgramEntry(U16(b), Pid(b[2..]))] + ReadPrograms(b[4..])
  }

  function DecodePat(b: bytes): Result<seq<ProgramEntry>, Error> {
    var body := SectionBody(b, 0, 9);
    if body.Err? then Err(body.error) else Ok(ReadPrograms(body.value[5..]))
  }

  function ReadStreams(b: bytes): Result<seq<StreamEntry>, Error> {
    if |b| < 5 then Ok([])
    else
      var info := b[3] as int % 0x10 * 0x100 + b[4] as int;
      if 5 + info > |b| then Err(LongStreamInfo)
      else
        var rest := ReadStreams(b[5 + info..]);
        if rest.Err? then rest else Ok([StreamEntry(b[0], Pid(b[1..]))] + rest.value)
  }

  function DecodePmt(b: bytes): Result<(u16, seq<StreamEntry>), Error> {
    var body := SectionBody(b, 2, 13);
    if body.Err? then Err(body.error)
    else
      var info := body.value[7] as int % 0x10 * 0x100 + body.value[8] as int;
      if 9 + info > |body.value| then Err(LongProgramInfo)
      else
        var streams := ReadStreams(body.value[9 + info..]);
        if streams.Err? then Err(streams.error) else Ok((U16(body.value), streams.value))
  }

  lemma {:induction false} SectionRoundTrip(table: byte, body: bytes, crc: u32, least: nat, tail: bytes)
    requires table != 0xFF && 4 <= least <= |body| + 4 < 0x1000
    ensures SectionBody(Section(table, body, crc) + tail, table, least) == Ok(body)
  {
    var b := Section(table, body, crc) + tail;
    var length := |body| + 4;
    assert b[0] == table && b[1] == 0xB0 + length / 0x100 && b[2] == length % 0x100;
    assert b[1] as int % 0x10 == length / 0x100;
    assert b[3..3 + length - 4] == body;
  }

  lemma {:induction false} ProgramsRoundTrip(programs: seq<ProgramEntry>)
    ensures ReadPrograms(PutPrograms(programs)) == programs
  {
    if programs != [] {
      var p, rest := programs[0], PutPrograms(programs[1..]);
      var b := PutPrograms(programs);
      assert b == PutU16(p.number) + PutPid(7, p.pid) + rest;
      assert b[..2] == PutU16(p.number);
      assert b[2..] == PutPid(7, p.pid) + rest;
      assert b[4..] == rest;
      PidRoundTrip(7, p.pid, rest);
      ProgramsRoundTrip(programs[1..]);
      assert U16(b) == p.number;
    }
  }

  lemma {:induction false} StreamsRoundTrip(streams: seq<StreamEntry>)
    ensures ReadStreams(PutStreams(streams)) == Ok(streams)
  {
    if streams != [] {
      var s, rest := streams[0], PutStreams(streams[1..]);
      var b := PutStreams(streams);
      assert b == [s.kind] + PutPid(0, s.pid) + [0, 0] + rest;
      assert b[1..] == PutPid(0, s.pid) + ([0, 0] + rest);
      assert b[3] == 0 && b[4] == 0;
      assert b[5..] == rest;
      assert b[0] == s.kind && b[5 + 0..] == rest;
      PidRoundTrip(0, s.pid, [0, 0] + rest);
      StreamsRoundTrip(streams[1..]);
      assert [StreamEntry(b[0], Pid(b[1..]))] + streams[1..] == streams;
    }
  }

  /** The tables decode to what was encoded, whatever stuffing follows them. */
  lemma {:induction false} PatRoundTrip(programs: seq<ProgramEntry>, crc: u32, tail: bytes)
    requires 5 + 4 * |programs| + 4 < 0x1000
    ensures DecodePat(EncodePat(programs, crc) + tail) == Ok(programs)
  {
    hide Section, SectionBody, PutPrograms, ReadPrograms;
    var body := [0, 0, 0xC1, 0, 0] + PutPrograms(programs);
    SectionRoundTrip(0, body, crc, 9, tail);
    assert body[5..] == PutPrograms(programs);
    ProgramsRoundTrip(programs);
  }

  lemma {:induction false} PmtRoundTrip(number: u16, pcrPid: pid13, streams: seq<StreamEntry>, crc: u32, tail: bytes)
    requires 9 + 5 * |streams| + 4 < 0x1000
    ensures DecodePmt(EncodePmt(number, pcrPid, streams, crc) + tail) == Ok((number, streams))
  {
    hide Section, SectionBody, PutPid, PutU16, U16, PutStreams, ReadStreams;
    var pid, entries := PutPid(7, pcrPid), PutStreams(streams);
    var body := PutU16(number) + [0xC1, 0, 0] + pid + [0xF0, 0] + entries;
    SectionRoundTrip(2, body, crc, 13, tail);
    PmtLayout(number, pid, entries);
    StreamsRoundTrip(streams);
  }

  lemma {:induction false} PmtLayout(number: u16, pid: bytes, entries: bytes)
    requires |pid| == 2
    ensures var body := PutU16(number) + [0xC1, 0, 0] + pid + [0xF0, 0] + entries;
      |body| >= 9 && body[7] == 0xF0 && body[8] == 0 && body[9..] == entries && U16(body) == number
  {
    var body := PutU16(number) + [0xC1, 0, 0] + pid + [0xF0, 0] + entries;
    assert body[0] == PutU16(number)[0] && body[1] == PutU16(number)[1];
  }
}
