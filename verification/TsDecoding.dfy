/** Decoding packet headers, adaptation fields, PES headers and program tables with a bit reader. */
module TsDecoding {
  import opened Bytes
  import opened Wrappers
  import opened BitCodes
  import opened BitFields
  import opened BitStreams
  import opened BitWriter
  import opened TsFields
  import Ts = TsWire

  /** A reader with exactly these bytes left. */
  ghost predicate At(s: BitStream, b: bytes)
    reads s
  {
    s.Valid() && s.S() == Reader(Flat(b), false)
  }

  function SumOf(widths: seq<nat>): nat {
    if widths == [] then 0 else widths[0] + SumOf(widths[1..])
  }

  /** Reading fields takes exactly their bits, or fails. */
  lemma {:induction false} GetAllTakes(r: Reader, widths: seq<nat>)
    requires !r.failed && forall i :: 0 <= i < |widths| ==> 1 <= widths[i] <= 64
    ensures if SumOf(widths) <= |r.rest| then GetAll(r, widths).1 == Reader(r.rest[SumOf(widths)..], false) else GetAll(r, widths).1.failed
    decreases |widths|
  {
    hide Num;
    if widths == [] {
      assert r.rest[0..] == r.rest;
    } else {
      var one := Get(r, widths[0]);
      if one.1.failed {
        StaysFailed(one.1, widths[1..]);
      } else {
        GetAllTakes(one.1, widths[1..]);
        if SumOf(widths) <= |r.rest| {
          assert r.rest[widths[0]..][SumOf(widths[1..])..] == r.rest[SumOf(widths)..];
        }
      }
    }
  }

  lemma {:induction false} StaysFailed(r: Reader, widths: seq<nat>)
    requires r.failed
    ensures GetAll(r, widths).1 == r
    decreases |widths|
  {
    if widths != [] {
      StaysFailed(r, widths[1..]);
    }
  }

  /** The fields at the head of what is left. */
  method ReadHeads(s: BitStream, widths: seq<nat>, ghost fields: seq<Field>, ghost b: bytes, ghost k: nat) returns (v: seq<nat>)
    requires At(s, b) && Heads(fields, b, k) && WidthsOf(fields) == widths
    modifies s
    ensures k <= |b| && At(s, b[k..]) && v == RawOf(fields) && s.bits == old(s.bits)
  {
    hide Flat, GetAll, Fits, PutAll;
    HeadsRead(fields, b, k);
    v := ReadFields(s, widths);
  }

  lemma {:induction false} ByteRead(b: bytes)
    ensures b != [] ==> Get(Reader(Flat(b), false), 8) == (b[0], Reader(Flat(b[1..]), false))
    ensures b == [] ==> Get(Reader(Flat(b), false), 8).1.failed
    ensures forall r: Reader :: r.failed ==> Get(r, 8) == (0, r)
  {
    hide Flat, BitsOf;
    if b != [] {
      FlatCons(b);
      Powers();
      GetPut(b[0], 8, Flat(b[1..]));
    }
  }

  // ---------------------------------------------------------------------------
  // Packet headers and adaptation fields
  // ---------------------------------------------------------------------------

  method DecodePacket(b: bytes) returns (r: Result<Ts.Packet, Ts.Error>)
    requires |b| == Ts.PACKET_SIZE
    ensures r == Ts.DecodePacket(b)
  {
    hide Flat, Heads, Ts.DecodeField, Ts.DecodePacket, HeaderFields, RawOf;
    var s := new BitStream(b);
    HeaderHeads(b);
    PacketIs(b);
    var v := ReadHeads(s, HEADER_WIDTHS, HeaderFields(b), b, 4);
    if v[0] != 0x47 {
      return Err(Ts.BadSync);
    }
    AtBytes(s, b[4..]);
    var pid := v[4];
    if pid == Ts.PID_NULL || v[6] < 2 {
      return Ok(Ts.Packet(v[2] == 1, pid, v[6] % 2 == 1, v[7], false, s.RemainData()));
    }
    var f := DecodeField(s, b[4..]);
    if f.Err? {
      return Err(f.error);
    }
    AtBytes(s, Ts.DecodeField(b[4..]).value.1);
    return Ok(Ts.Packet(v[2] == 1, pid, v[6] % 2 == 1, v[7], f.value, s.RemainData()));
  }

  lemma {:induction false} PacketIs(b: bytes)
    requires |b| == Ts.PACKET_SIZE
    ensures var v := RawOf(HeaderFields(b));
      v[2] < 2 && v[4] < 0x2000 && v[6] < 4 &&
      var f := Ts.DecodeField(b[4..]);
      Ts.DecodePacket(b) ==
        if v[0] != 0x47 then Err(Ts.BadSync)
        else if v[4] == Ts.PID_NULL || v[6] < 2 then Ok(Ts.Packet(v[2] == 1, v[4], v[6] % 2 == 1, v[7], false, b[4..]))
        else if f.Err? then Err(f.error)
        else Ok(Ts.Packet(v[2] == 1, v[4], v[6] % 2 == 1, v[7], f.value.0, f.value.1))
  {
    hide Ts.DecodeField;
  }

  /** Leaves the reader behind the field; tells whether it announces a discontinuity. */
  method DecodeField(s: BitStream, ghost b: bytes) returns (r: Result<bool, Ts.Error>)
    requires At(s, b)
    modifies s
    ensures var f := Ts.DecodeField(b);
      if f.Err? then r == Err(f.error) else r == Ok(f.value.0) && At(s, f.value.1)
  {
    hide Flat, Get, Ts.FieldEnd;
    ByteRead(b);
    var length := s.GetBits(8);
    if s.err {
      return Err(Ts.FieldTooLong);
    }
    if length == 0 {
      return Ok(false);
    }
    AtBytes(s, b[1..]);
    var field := s.RemainData();
    if |field| < length {
      return Err(Ts.FieldTooLong);
    }
    field := field[..length];
    assert b[1..1 + length] == field && b[1..][length..] == b[1 + length..];
    SplitFlat(b[1..], length);
    s.SkipBits(|field| * 8);
    r := DecodeFlags(field);
  }

  /** A reader at byte `at` of the field, failed once that is past its end. */
  ghost predicate Cursor(s: BitStream, field: bytes, at: nat)
    reads s
  {
    s.Valid() && if at <= |field| then At(s, field[at..]) else s.err
  }

  /** Reads fields of n bytes in all, whatever they hold. */
  method Drop(s: BitStream, widths: seq<nat>, ghost field: bytes, ghost at: nat, ghost n: nat)
    requires Cursor(s, field, at) && SumOf(widths) == 8 * n && forall i :: 0 <= i < |widths| ==> 1 <= widths[i] <= 64
    modifies s
    ensures Cursor(s, field, at + n) && s.bits == old(s.bits)
  {
    hide Flat, GetAll, SumOf;
    if at <= |field| {
      GetAllTakes(s.S(), widths);
      if at + n <= |field| {
        SplitFlat(field[at..], n);
        assert field[at..][n..] == field[at + n..];
      }
    } else {
      StaysFailed(s.S(), widths);
    }
    var v := ReadFields(s, widths);
  }

  /** Skips n bytes. */
  method SkipBytes(s: BitStream, n: nat, ghost field: bytes, ghost at: nat)
    requires Cursor(s, field, at)
    modifies s
    ensures Cursor(s, field, at + n) && s.bits == old(s.bits)
  {
    hide Flat;
    if at + n <= |field| {
      SplitFlat(field[at..], n);
      assert field[at..][n..] == field[at + n..];
    }
    s.SkipBits(8 * n);
  }

  method DecodeFlags(field: bytes) returns (r: Result<bool, Ts.Error>)
    requires field != []
    ensures var end := Ts.FieldEnd(field);
      r == if end.None? || end.value > |field| then Err(Ts.FieldTruncated) else Ok(field[0] / 0x80 == 1)
  {
    hide Flat, Ts.FieldEnd, FlagFields, RawOf, Heads, FlaggedEnd;
    var s := new BitStream(field);
    FlagHeads(field);
    FlagsAre(field);
    var v := ReadHeads(s, FLAG_WIDTHS, FlagFields(field), field, 1);
    ghost var at := DropFlagged(s, field, v);
    if s.err {
      return Err(Ts.FieldTruncated);
    }
    return Ok(v[0] == 1);
  }

  ghost function FixedEnd(v: seq<nat>): nat
    requires |v| == 8
  {
    1 + (if v[3] == 1 then 6 else 0) + (if v[4] == 1 then 6 else 0) + (if v[5] == 1 then 1 else 0)
  }

  ghost function PrivateEnd(field: bytes, at: nat): nat {
    if at < |field| then at + 1 + field[at] as int else |field| + 1
  }

  ghost function ExtendedEnd(field: bytes, at: nat): nat {
    if Ts.ExtensionEnd(field, at).None? then |field| + 1 else Ts.ExtensionEnd(field, at).value
  }

  /** Where everything the flags announce ends; past the field when some of it is missing. */
  ghost function FlaggedEnd(field: bytes, v: seq<nat>): nat
    requires |v| == 8
  {
    var at := if v[6] == 1 then PrivateEnd(field, FixedEnd(v)) else FixedEnd(v);
    if v[7] == 1 then ExtendedEnd(field, at) else at
  }

  lemma {:induction false} FlagsAre(field: bytes)
    requires field != []
    ensures var v := RawOf(FlagFields(field)); var end := Ts.FieldEnd(field);
      v[0] == field[0] / 0x80 && (end.None? || end.value > |field| <==> FlaggedEnd(field, v) > |field|)
  {
    hide Ts.ExtensionEnd;
    assert forall at: nat :: at + 1 >= |field| ==> Ts.ExtensionEnd(field, at).None? by {
      forall at: nat | at + 1 >= |field| ensures Ts.ExtensionEnd(field, at).None? {
        NoExtension(field, at);
      }
    }
  }

  lemma {:induction false} NoExtension(field: bytes, at: nat)
    ensures at + 1 >= |field| ==> Ts.ExtensionEnd(field, at).None?
  {
  }

  method DropFlagged(s: BitStream, field: bytes, v: seq<nat>) returns (ghost at: nat)
    requires |v| == 8 && field != [] && At(s, field[1..]) && s.bits == field
    modifies s
    ensures s.err <==> FlaggedEnd(field, v) > |field|
  {
    hide Flat, Ts.ExtensionEnd, FixedEnd, PrivateEnd, ExtendedEnd, Cursor;
    CursorFirst(s, field);
    at := DropFixed(s, field, v);
    if v[6] == 1 {
      at := DropPrivate(s, field, at);
    }
    if v[7] == 1 {
      at := DropExtension(s, field, at);
    }
    CursorErr(s, field, at);
  }

  lemma {:induction false} CursorFirst(s: BitStream, field: bytes)
    requires field != [] && At(s, field[1..])
    ensures Cursor(s, field, 1)
  {
  }

  lemma {:induction false} CursorErr(s: BitStream, field: bytes, at: nat)
    requires Cursor(s, field, at)
    ensures s.Valid() && (s.err <==> at > |field|)
  {
  }

  /** The clocks and the splice countdown. */
  method DropFixed(s: BitStream, ghost field: bytes, v: seq<nat>) returns (ghost at: nat)
    requires |v| == 8 && Cursor(s, field, 1)
    modifies s
    ensures Cursor(s, field, at) && s.bits == old(s.bits)
    ensures at == FixedEnd(v)
  {
    hide Flat, SumOf, Cursor;
    Sums();
    at := 1;
    if v[3] == 1 {
      Drop(s, PCR_WIDTHS, field, at, 6);
      at := at + 6;
    }
    if v[4] == 1 {
      Drop(s, PCR_WIDTHS, field, at, 6);
      at := at + 6;
    }
    if v[5] == 1 {
      Drop(s, [8], field, at, 1);
      at := at + 1;
    }
  }

  lemma {:induction false} Sums()
    ensures SumOf(PCR_WIDTHS) == 48 && SumOf([8]) == 8 && SumOf(EXTENSION_WIDTHS) == 8 && SumOf([1, 15]) == 16 && SumOf([2, 22]) == 24
    ensures SumOf([4, 3, 1, 15, 1, 15, 1]) == 40
  {
    hide SumOf;
    SumNone();
    assert [8] == [8] + [] && [5] == [5] + [] && [15] == [15] + [] && [22] == [22] + [] && [1] == [1] + [];
    SumCons(8, []);
    SumCons(5, []);
    SumCons(15, []);
    SumCons(22, []);
    SumCons(1, []);
    assert PCR_WIDTHS == [33, 6, 9] + [] && EXTENSION_WIDTHS == [1, 1, 1] + [5] && [1, 15] == [1] + [15] && [2, 22] == [2] + [22];
    SumThree(33, 6, 9, []);
    SumThree(1, 1, 1, [5]);
    SumCons(1, [15]);
    SumCons(2, [22]);
    SumThree(15, 1, 15, [1]);
    SumThree(4, 3, 1, [15, 1, 15] + [1]);
    assert [4, 3, 1, 15, 1, 15, 1] == [4, 3, 1] + ([15, 1, 15] + [1]);
  }

  /** Private data behind a length byte. */
  method DropPrivate(s: BitStream, field: bytes, ghost at: nat) returns (ghost to: nat)
    requires Cursor(s, field, at)
    modifies s
    ensures Cursor(s, field, to) && s.bits == old(s.bits)
    ensures to == PrivateEnd(field, at)
  {
    hide Flat, Get;
    ByteRead(if at <= |field| then field[at..] else []);
    assert at < |field| ==> field[at..][1..] == field[at + 1..];
    var n := s.GetBits(8);
    to := if at < |field| then at + 1 else |field| + 1;
    SkipBytes(s, n, field, to);
    to := if at < |field| then to + n else |field| + 1;
  }

  /** An extension takes what its length says, or what its flags describe when that is more. */
  method DropExtension(s: BitStream, field: bytes, ghost at: nat) returns (ghost to: nat)
    requires Cursor(s, field, at) && s.bits == field
    modifies s
    ensures Cursor(s, field, to)
    ensures to == ExtendedEnd(field, at)
  {
    hide Flat, At, RawOf, ExtensionFields;
    ExtensionIs(field, at);
    var n, mark, v := ReadExtension(s, field, at);
    if s.err {
      return |field| + 1;
    }
    ghost var described := DropDescribed(s, field, at + 2, v);
    to := at + 1 + Max(n, described);
    CloseExtension(s, field, mark, n, described);
  }

  lemma {:induction false} ExtensionIs(field: bytes, at: nat)
    ensures if at + 1 >= |field| then ExtendedEnd(field, at) == |field| + 1
      else ExtendedEnd(field, at) == at + 1 + Max(field[at], Described(RawOf(ExtensionFields(field[at + 1..]))))
  {
  }

  function Described(v: seq<nat>): nat
    requires |v| == 4
  {
    1 + (if v[0] == 1 then 2 else 0) + (if v[1] == 1 then 3 else 0) + (if v[2] == 1 then 5 else 0)
  }

  /** Length and flags, and where the length starts to count. */
  method ReadExtension(s: BitStream, ghost field: bytes, ghost at: nat) returns (n: nat, mark: nat, v: seq<nat>)
    requires Cursor(s, field, at) && s.bits == field
    modifies s
    ensures s.bits == field && |v| == 4 && s.Valid()
    ensures if at + 1 >= |field| then s.err
      else !s.err && At(s, field[at + 2..]) && n == field[at] && mark == at + 1 && v == RawOf(ExtensionFields(field[at + 1..]))
  {
    hide Flat, Get, GetAll, RawOf, ExtensionFields, PutAll;
    ByteRead(if at <= |field| then field[at..] else []);
    assert at < |field| ==> field[at..][1..] == field[at + 1..];
    n := s.GetBits(8);
    mark := s.bytesOffset;
    if s.err {
      return n, mark, [0, 0, 0, 0];
    }
    AtBytes(s, field[at + 1..]);
    if at + 1 < |field| {
      ExtensionHeads(field[at + 1..]);
      assert field[at + 1..][1..] == field[at + 2..];
      HeadsRead(ExtensionFields(field[at + 1..]), field[at + 1..], 1);
    } else {
      Sums();
      GetAllTakes(s.S(), EXTENSION_WIDTHS);
      GetAllLength(s.S(), EXTENSION_WIDTHS);
    }
    v := ReadFields(s, EXTENSION_WIDTHS);
  }

  /** Skips what the flags did not describe. */
  method CloseExtension(s: BitStream, ghost field: bytes, mark: nat, n: nat, ghost described: nat)
    requires Cursor(s, field, mark + described) && s.bits == field
    modifies s
    ensures Cursor(s, field, mark + Max(n, described))
  {
    hide Flat;
    if s.err {
      return;
    }
    AtBytes(s, field[mark + described..]);
    var rest := n * 8 - (8 * (s.bytesOffset - mark) + s.bitsOffset);
    if rest > 0 {
      SkipBytes(s, n - (s.bytesOffset - mark), field, mark + described);
    }
  }

  method DropDescribed(s: BitStream, ghost field: bytes, ghost at: nat, v: seq<nat>) returns (ghost described: nat)
    requires Cursor(s, field, at) && |v| == 4
    modifies s
    ensures described >= 1 && Cursor(s, field, at + described - 1) && s.bits == old(s.bits)
    ensures described == Described(v)
  {
    hide Flat, SumOf, Cursor;
    Sums();
    described := 1;
    if v[0] == 1 {
      Drop(s, [1, 15], field, at, 2);
      described := described + 2;
    }
    if v[1] == 1 {
      Drop(s, [2, 22], field, at + described - 1, 3);
      described := described + 3;
    }
    if v[2] == 1 {
      Drop(s, [4, 3, 1, 15, 1, 15, 1], field, at + described - 1, 5);
      described := described + 5;
    }
  }

  // ---------------------------------------------------------------------------
  // PES headers
  // ---------------------------------------------------------------------------

  /** Asks for more data when the header or a bounded payload has not arrived; stamps read by then stay in force. */
  method DecodePes(b: bytes, pts0: u64, dts0: u64) returns (r: Ts.PesResult)
    ensures r == Ts.DecodePes(b, pts0, dts0)
  {
    hide Flat, Get, Heads, PesFields, RawOf, Ts.DecodePes, Ts.PesPayload, PesTail;
    var s := new BitStream(b);
    AtBytes(s, b);
    PesIs(b, pts0, dts0);
    if s.RemainBytes() < 9 {
      return Ts.Short(pts0, dts0);
    }
    PesHeads(b);
    var v := ReadHeads(s, PES_WIDTHS, PesFields(b), b, 9);
    if v[0] != 1 {
      return Ts.Bad;
    }
    var headerLength := v[16];
    if v[2] != 0 && v[2] < 3 + headerLength {
      return Ts.Bad;
    }
    if OptionalFields(v) > headerLength {
      return Ts.Bad;
    }
    AtBytes(s, b[9..]);
    if s.RemainBytes() < headerLength {
      return Ts.Short(pts0, dts0);
    }
    r := ReadPesTail(s, b[9..], v, pts0, dts0);
  }

  /** What the optional fields selected by the flags take. */
  function OptionalFields(v: seq<nat>): nat
    requires |v| == 17
  {
    (if v[9] >= 2 then 5 else 0) + (if v[9] == 3 then 5 else 0) + (if v[10] == 1 then 6 else 0) + (if v[11] == 1 then 3 else 0)
    + (if v[12] == 1 then 1 else 0) + (if v[13] == 1 then 1 else 0) + (if v[14] == 1 then 2 else 0)
  }

  /** The decoding of what follows the nine fixed bytes. */
  ghost function PesTail(c: bytes, v: seq<nat>, pts0: u64, dts0: u64): Ts.PesResult
    requires |v| == 17 && OptionalFields(v) <= v[16] <= |c| && v[2] < 0x1_0000 && (v[2] == 0 || 3 + v[16] <= v[2])
  {
    var pts := if v[9] >= 2 then Ts.Stamp(c) else pts0;
    var dts := if v[9] == 3 then Ts.Stamp(c[5..]) else pts;
    Ts.PesPayload(v[2], c[v[16]..], v[16], pts, dts)
  }

  lemma {:induction false} PesIs(b: bytes, pts0: u64, dts0: u64)
    ensures |b| < 9 ==> Ts.DecodePes(b, pts0, dts0) == Ts.Short(pts0, dts0)
    ensures |b| >= 9 ==> var v := RawOf(PesFields(b));
      && v[2] < 0x1_0000 && v[9] < 4
      && Ts.DecodePes(b, pts0, dts0) ==
        if v[0] != 1 || (v[2] != 0 && v[2] < 3 + v[16]) || OptionalFields(v) > v[16] then Ts.Bad
        else if |b| - 9 < v[16] then Ts.Short(pts0, dts0)
        else PesTail(b[9..], v, pts0, dts0)
  {
    hide Ts.PesPayload, Ts.Stamp;
    if |b| >= 9 {
      PesRaw(b);
      if |b| >= 14 {
        assert b[9..][5..] == b[14..];
      }
    }
  }

  lemma {:induction false} PesRaw(b: bytes)
    requires |b| >= 9
    ensures var v := RawOf(PesFields(b));
      && (v[0] == 1 <==> b[..3] == [0, 0, 1]) && v[2] == U16(b[4..]) && v[9] == b[7] / 0x40 && v[16] == b[8]
      && OptionalFields(v) == Ts.OptionalSize(b[7] / 0x40, b[7])
  {
    hide RawOf, PesFields, OptionalFields, Ts.OptionalSize, U24;
    PesValues(b);
    StartsPes(b);
    FlagSizes(RawOf(PesFields(b)), b[7]);
  }

  lemma {:induction false} PesValues(b: bytes)
    requires |b| >= 9
    ensures var v := RawOf(PesFields(b));
      && v[0] == U24(b) && v[2] == U16(b[4..]) && v[16] == b[8]
      && v[9] == b[7] / 0x40 && v[10] == b[7] / 0x20 % 2 && v[11] == b[7] / 0x10 % 2 && v[12] == b[7] / 8 % 2
      && v[13] == b[7] / 4 % 2 && v[14] == b[7] / 2 % 2
  {
    hide U24;
  }

  lemma {:induction false} StartsPes(b: bytes)
    requires |b| >= 3
    ensures U24(b) == 1 <==> b[..3] == [0, 0, 1]
  {
    assert b[..3] == [b[0], b[1], b[2]];
  }

  lemma {:induction false} FlagSizes(v: seq<nat>, x: byte)
    requires |v| == 17 && v[9] == x / 0x40 && v[10] == x / 0x20 % 2 && v[11] == x / 0x10 % 2 && v[12] == x / 8 % 2
    requires v[13] == x / 4 % 2 && v[14] == x / 2 % 2
    ensures OptionalFields(v) == Ts.OptionalSize(x / 0x40, x)
  {
  }

  method ReadStamp(s: BitStream, ghost c: bytes, ghost at: nat) returns (t: u64)
    requires at + 5 <= |c| && At(s, c[at..])
    modifies s
    ensures At(s, c[at + 5..]) && t == Ts.Stamp(c[at..]) && s.bits == old(s.bits)
  {
    hide Flat, Heads;
    StampHeads(c[at..]);
    assert c[at..][5..] == c[at + 5..];
    var v := ReadHeads(s, STAMP_WIDTHS, StampFields(c[at..]), c[at..], 5);
    t := (v[1] * 0x8000 + v[3]) * 0x8000 + v[5];
  }

  /** The optional fields between the time stamps and the stuffing. */
  method DropOptional(s: BitStream, ghost c: bytes, ghost at0: nat, v: seq<nat>) returns (ghost at: nat)
    requires |v| == 17 && Cursor(s, c, at0)
    modifies s
    ensures Cursor(s, c, at) && s.bits == old(s.bits)
    ensures at == at0 + OptionalFields(v) - (if v[9] >= 2 then 5 else 0) - (if v[9] == 3 then 5 else 0)
  {
    hide Flat, SumOf, Cursor;
    OptionalSums();
    at := at0;
    if v[10] == 1 {
      Drop(s, [2, 3, 1, 15, 1, 15, 1, 9, 1], c, at, 6);
      at := at + 6;
    }
    if v[11] == 1 {
      Drop(s, [1, 22, 1], c, at, 3);
      at := at + 3;
    }
    if v[12] == 1 {
      Drop(s, [3, 5], c, at, 1);
      at := at + 1;
    }
    if v[13] == 1 {
      Drop(s, [1, 7], c, at, 1);
      at := at + 1;
    }
    if v[14] == 1 {
      Drop(s, [16], c, at, 2);
      at := at + 2;
    }
  }

  lemma {:induction false} SumNone()
    ensures SumOf([]) == 0
  {
  }

  lemma {:induction false} SumCons(w: nat, more: seq<nat>)
    ensures SumOf([w] + more) == w + SumOf(more)
  {
    assert ([w] + more)[1..] == more;
  }

  lemma {:induction false} SumThree(a: nat, b: nat, c: nat, more: seq<nat>)
    ensures SumOf([a, b, c] + more) == a + b + c + SumOf(more)
  {
    hide SumOf;
    assert [a, b, c] + more == [a] + ([b] + ([c] + more));
    SumCons(a, [b] + ([c] + more));
    SumCons(b, [c] + more);
    SumCons(c, more);
  }

  lemma {:induction false} OptionalSums()
    ensures SumOf([2, 3, 1, 15, 1, 15, 1, 9, 1]) == 48 && SumOf([1, 22, 1]) == 24 && SumOf([3, 5]) == 8 && SumOf([1, 7]) == 8 && SumOf([16]) == 16
  {
    hide SumOf;
    SumNone();
    assert [16] == [16] + [] && [5] == [5] + [] && [7] == [7] + [];
    SumCons(16, []);
    SumCons(5, []);
    SumCons(7, []);
    assert [3, 5] == [3] + [5] && [1, 7] == [1] + [7] && [1, 22, 1] == [1, 22, 1] + [];
    SumCons(3, [5]);
    SumCons(1, [7]);
    SumThree(1, 22, 1, []);
    var last, middle := [1, 9, 1] + [], [15, 1, 15] + [1, 9, 1];
    SumThree(1, 9, 1, []);
    assert last == [1, 9, 1];
    SumThree(15, 1, 15, [1, 9, 1]);
    SumThree(2, 3, 1, middle);
    assert [2, 3, 1, 15, 1, 15, 1, 9, 1] == [2, 3, 1] + middle;
  }

  /** The time stamps, as far as the flags announce them; a missing decode time is the presentation time. */
  method ReadStamps(s: BitStream, ghost c: bytes, v: seq<nat>, pts0: u64, dts0: u64) returns (pts: u64, dts: u64, ghost at: nat)
    requires At(s, c) && |v| == 17 && v[9] < 4 && OptionalFields(v) <= |c|
    modifies s
    ensures at == (if v[9] >= 2 then 5 else 0) + (if v[9] == 3 then 5 else 0) <= OptionalFields(v) && At(s, c[at..]) && s.bits == old(s.bits)
    ensures pts == (if v[9] >= 2 then Ts.Stamp(c) else pts0) && dts == if v[9] == 3 then Ts.Stamp(c[5..]) else pts
  {
    hide Flat, Ts.Stamp, OptionalFields;
    StampsFit(v);
    assert c[0..] == c;
    pts, dts, at := pts0, dts0, 0;
    if v[9] >= 2 {
      pts := ReadStamp(s, c, at);
      at := at + 5;
    }
    if v[9] == 3 {
      dts := ReadStamp(s, c, at);
      at := at + 5;
    } else {
      dts := pts;
    }
  }

  method ReadPesTail(s: BitStream, ghost c: bytes, v: seq<nat>, pts0: u64, dts0: u64) returns (r: Ts.PesResult)
    requires At(s, c) && |v| == 17 && OptionalFields(v) <= v[16] <= |c|
    requires v[9] < 4 && v[2] < 0x1_0000 && (v[2] == 0 || 3 + v[16] <= v[2])
    modifies s
    ensures r == PesTail(c, v, pts0, dts0)
  {
    hide Flat, Ts.Stamp, OptionalFields, Ts.PesPayload;
    AtBytes(s, c);
    var mark := s.bytesOffset;
    ghost var at;
    var pts, dts;
    pts, dts, at := ReadStamps(s, c, v, pts0, dts0);
    at := DropOptional(s, c, at, v);
    SkipTo(s, mark, v[16], c, at);
    r := TakePayload(s, c[v[16]..], v, pts, dts);
  }

  /** What is left of a header that began at byte `mark` and takes `size` bytes. */
  method SkipTo(s: BitStream, mark: nat, size: nat, ghost c: bytes, ghost at: nat)
    requires Cursor(s, c, at) && at <= size <= |c| && |s.bits| - |c| == mark
    modifies s
    ensures At(s, c[size..])
  {
    hide Flat;
    AtBytes(s, c[at..]);
    var skip := size * 8 - (8 * (s.bytesOffset - mark) + s.bitsOffset);
    if skip > 0 {
      SkipBytes(s, skip / 8, c, at);
    }
  }

  lemma {:induction false} StampsFit(v: seq<nat>)
    requires |v| == 17
    ensures OptionalFields(v) >= (if v[9] >= 2 then 5 else 0) + (if v[9] == 3 then 5 else 0)
  {
  }

  /** The payload as far as it has arrived; none of a bounded one asks for more. */
  method TakePayload(s: BitStream, ghost rest: bytes, v: seq<nat>, pts: u64, dts: u64) returns (r: Ts.PesResult)
    requires At(s, rest) && |v| == 17 && v[2] < 0x1_0000 && (v[2] == 0 || 3 + v[16] <= v[2])
    ensures r == Ts.PesPayload(v[2], rest, v[16], pts, dts)
  {
    hide Flat;
    AtBytes(s, rest);
    var payload := s.RemainData();
    if v[2] == 0 {
      return Ts.Found(pts, dts, payload);
    }
    var size := v[2] - 3 - v[16];
    if s.RemainBytes() < size {
      if payload == [] {
        return Ts.Short(pts, dts);
      }
      return Ts.Found(pts, dts, payload);
    }
    return Ts.Found(pts, dts, payload[..size]);
  }

  // ---------------------------------------------------------------------------
  // Program tables
  // ---------------------------------------------------------------------------

  /** Fill bytes before a section. */
  method SkipFill(s: BitStream, ghost b: bytes)
    requires At(s, b)
    modifies s
    ensures At(s, Ts.SkipFill(b))
  {
    hide Flat, Get;
    ghost var left := b;
    var fill := true;
    while fill
      invariant At(s, left) && Ts.SkipFill(left) == Ts.SkipFill(b)
      invariant !fill ==> Ts.SkipFill(left) == left
      decreases fill, |left|
    {
      AtBytes(s, left);
      fill := false;
      if s.RemainBits() > 0 {
        ByteRead(left);
        var next := s.NextBits(8);
        if next == 0xFF {
          FlatCons(left);
          assert Flat(left)[8..] == Flat(left[1..]);
          s.SkipBits(8);
          left := left[1..];
          fill := true;
        }
      }
    }
  }

  /** Checks the head of a section and leaves the reader on its body, of this length with the checksum. */
  method OpenSection(b: bytes, table: byte, least: nat) returns (s: BitStream, r: Result<nat, Ts.Error>, ghost tail: bytes)
    requires least >= 4
    ensures fresh(s) && s.Valid()
    ensures var body := Ts.SectionBody(b, table, least);
      if body.Err? then r == Err(body.error)
      else r.Ok? && least <= r.value == |body.value| + 4 && |tail| >= 4 && At(s, body.value + tail)
  {
    hide Flat, Ts.SectionBody, Ts.SkipFill, SectionHead;
    s := new BitStream(b);
    SkipFill(s, b);
    tail := SectionIs(b, table, least);
    r := CheckSection(s, Ts.SkipFill(b), table, least);
  }

  lemma {:induction false} Parted(c: bytes, i: nat, j: nat)
    requires i <= j <= |c|
    ensures c[i..] == c[i..j] + c[j..]
  {
  }

  /** The length a section's head announces, once it is the table asked for and fits. */
  function SectionHead(c: bytes, table: byte, least: nat): (r: Result<nat, Ts.Error>)
    ensures r.Ok? ==> least <= r.value <= |c| - 3
  {
    if c == [] then Err(Ts.NoSection)
    else if |c| < 3 then Err(Ts.ShortSection)
    else
      var length := c[1] as int % 0x10 * 0x100 + c[2] as int;
      if c[0] != table then Err(Ts.BadTable)
      else if length < least then Err(Ts.ShortSection)
      else if length > |c| - 3 then Err(Ts.LongSection)
      else Ok(length)
  }

  lemma {:induction false} SectionIs(b: bytes, table: byte, least: nat) returns (tail: bytes)
    requires least >= 4
    ensures var c := Ts.SkipFill(b); var head, body := SectionHead(c, table, least), Ts.SectionBody(b, table, least);
      if head.Err? then body == Err(head.error)
      else body.Ok? && head.value == |body.value| + 4 && |tail| >= 4 && c[3..] == body.value + tail
  {
    hide Ts.SkipFill;
    var c := Ts.SkipFill(b);
    var head := SectionHead(c, table, least);
    tail := [];
    if head.Ok? {
      tail := c[3 + head.value - 4..];
      Parted(c, 3, 3 + head.value - 4);
    }
  }

  method CheckSection(s: BitStream, ghost c: bytes, table: byte, least: nat) returns (r: Result<nat, Ts.Error>)
    requires At(s, c)
    modifies s
    ensures s.Valid() && r == SectionHead(c, table, least) && (r.Ok? ==> |c| >= 3 && At(s, c[3..]))
  {
    hide Flat, RawOf, SectionFields;
    AtBytes(s, c);
    if s.RemainBits() == 0 {
      return Err(Ts.NoSection);
    }
    var v := ReadSectionHead(s, c);
    if s.err {
      return Err(Ts.ShortSection);
    }
    AtBytes(s, c[3..]);
    var length := v[3];
    if v[0] != table {
      return Err(Ts.BadTable);
    }
    if length < least {
      return Err(Ts.ShortSection);
    }
    if length > s.RemainBytes() {
      return Err(Ts.LongSection);
    }
    return Ok(length);
  }

  method ReadSectionHead(s: BitStream, ghost c: bytes) returns (v: seq<nat>)
    requires At(s, c)
    modifies s
    ensures |v| == 4 && s.Valid() && (s.err <==> |c| < 3)
    ensures |c| >= 3 ==> At(s, c[3..]) && v[0] == c[0] && v[3] == c[1] as int % 0x10 * 0x100 + c[2] as int
  {
    hide Flat, GetAll, Heads, PutAll;
    if |c| >= 3 {
      SectionHeads(c);
      HeadsRead(SectionFields(c), c, 3);
    } else {
      SectionSum();
      GetAllTakes(s.S(), SECTION_WIDTHS);
      GetAllLength(s.S(), SECTION_WIDTHS);
    }
    v := ReadFields(s, SECTION_WIDTHS);
  }

  lemma {:induction false} SectionSum()
    ensures SumOf(SECTION_WIDTHS) == 24
  {
    hide SumOf;
    SumNone();
    assert [12] == [12] + [] && SECTION_WIDTHS == [8, 1, 3] + [12];
    SumCons(12, []);
    SumThree(8, 1, 3, [12]);
  }

  method DecodePat(b: bytes) returns (r: Result<seq<Ts.ProgramEntry>, Ts.Error>)
    ensures r == Ts.DecodePat(b)
  {
    hide Flat, Get, Heads, Ts.SectionBody, Ts.Pid, Ts.ReadPrograms;
    var s, open, tail := OpenSection(b, 0, 9);
    if open.Err? {
      return Err(open.error);
    }
    ghost var body := Ts.SectionBody(b, 0, 9).value;
    TableHeads(body + tail);
    var v := ReadHeads(s, TABLE_WIDTHS, TableFields(body + tail), body + tail, 5);
    ghost var entries := body[5..];
    assert (body + tail)[5..] == entries + tail;
    r := ReadPrograms(s, entries, tail, open.value - 5 - 4);
  }

  method ReadPrograms(s: BitStream, ghost entries: bytes, ghost tail: bytes, size: nat) returns (r: Result<seq<Ts.ProgramEntry>, Ts.Error>)
    requires At(s, entries + tail) && size == |entries| && |tail| >= 4
    modifies s
    ensures r == Ok(Ts.ReadPrograms(entries))
  {
    hide Flat, Heads, Ts.Pid, Ts.ReadPrograms;
    var got: seq<Ts.ProgramEntry> := [];
    var i := 0;
    assert entries[0..] == entries && got + Ts.ReadPrograms(entries) == Ts.ReadPrograms(entries);
    while i + 4 <= size
      invariant i <= size && At(s, entries[i..] + tail)
      invariant got + Ts.ReadPrograms(entries[i..]) == Ts.ReadPrograms(entries)
    {
      ghost var c := entries[i..] + tail;
      ProgramsMore(got, entries, i);
      var number := ReadWord(s, c);
      var pid := ReadPid(s, c[2..]);
      PrefixReads(entries[i..], tail);
      got := got + [Ts.ProgramEntry(number, pid)];
      assert c[2..][2..] == entries[i + 4..] + tail;
      i := i + 4;
    }
    ProgramsEnd(entries[i..]);
    assert got + [] == got;
    return Ok(got);
  }

  /** Words and pids of a prefix are those of the whole. */
  lemma {:induction false} PrefixReads(a: bytes, tail: bytes)
    ensures |a| >= 2 ==> U16(a + tail) == U16(a)
    ensures |a| >= 4 ==> Ts.Pid((a + tail)[2..]) == Ts.Pid(a[2..])
    ensures |a| >= 3 ==> (a + tail)[0] == a[0] && Ts.Pid((a + tail)[1..]) == Ts.Pid(a[1..])
  {
  }

  lemma {:induction false} ProgramsEnd(b: bytes)
    requires |b| < 4
    ensures Ts.ReadPrograms(b) == []
  {
  }

  lemma {:induction false} ProgramsMore(got: seq<Ts.ProgramEntry>, entries: bytes, i: nat)
    requires i + 4 <= |entries|
    ensures var c := entries[i..];
      got + Ts.ReadPrograms(c) == (got + [Ts.ProgramEntry(U16(c), Ts.Pid(c[2..]))]) + Ts.ReadPrograms(entries[i + 4..])
  {
    assert entries[i..][4..] == entries[i + 4..];
  }

  method ReadWord(s: BitStream, ghost b: bytes) returns (v: u16)
    requires At(s, b) && |b| >= 2
    modifies s
    ensures At(s, b[2..]) && v == U16(b)
  {
    hide Flat, BitsOf, Get;
    WordRead(b);
    var n := s.GetBits(16);
    v := n;
  }

  lemma {:induction false} WordRead(b: bytes)
    requires |b| >= 2
    ensures Get(Reader(Flat(b), false), 16) == (U16(b) as nat, Reader(Flat(b[2..]), false))
  {
    hide Flat, BitsOf, Get;
    Powers();
    Split(U16(b), 8, 8, 0x100, b[0], b[1]);
    FlatCons(b);
    FlatCons(b[1..]);
    assert b[1..][1..] == b[2..];
    assert Flat(b) == BitsOf(U16(b), 16) + Flat(b[2..]);
    GetPut(U16(b), 16, Flat(b[2..]));
  }

  method ReadPid(s: BitStream, ghost b: bytes) returns (pid: Ts.pid13)
    requires At(s, b) && |b| >= 2
    modifies s
    ensures At(s, b[2..]) && pid == Ts.Pid(b)
  {
    hide Flat, Heads;
    PidHeads(b);
    var v := ReadHeads(s, PID_WIDTHS, PidFields(b), b, 2);
    pid := v[1];
  }

  /** A length behind four reserved bits. */
  method ReadInfo(s: BitStream, ghost b: bytes) returns (n: nat)
    requires At(s, b) && |b| >= 2
    modifies s
    ensures At(s, b[2..]) && n == b[0] as int % 0x10 * 0x100 + b[1] as int
  {
    hide Flat, Heads;
    InfoHeads(b);
    var v := ReadHeads(s, INFO_WIDTHS, InfoFields(b), b, 2);
    n := v[1];
  }

  method DecodePmt(b: bytes) returns (r: Result<(u16, seq<Ts.StreamEntry>), Ts.Error>)
    ensures r == Ts.DecodePmt(b)
  {
    hide Flat, Ts.SectionBody, Ts.ReadStreams;
    var s, open, tail := OpenSection(b, 2, 13);
    if open.Err? {
      return Err(open.error);
    }
    ghost var body := Ts.SectionBody(b, 2, 13).value;
    var number, info := ReadProgram(s, body, tail);
    var loopLen := open.value - 9 - 4;
    if info > loopLen {
      return Err(Ts.LongProgramInfo);
    }
    SkipData(s, body[9..] + tail, info);
    assert (body[9..] + tail)[info..] == body[9 + info..] + tail;
    var streams := ReadStreams(s, body[9 + info..], tail, loopLen - info);
    if streams.Err? {
      return Err(streams.error);
    }
    return Ok((number, streams.value));
  }

  /** Program number, clock PID and the length of the descriptors. */
  method ReadProgram(s: BitStream, ghost body: bytes, ghost tail: bytes) returns (number: u16, info: nat)
    requires |body| >= 9 && At(s, body + tail)
    modifies s
    ensures At(s, body[9..] + tail) && number == U16(body) && info == body[7] as int % 0x10 * 0x100 + body[8] as int
  {
    hide Flat, Heads, Ts.Pid;
    ghost var c := body + tail;
    TableHeads(c);
    PrefixReads(body, tail);
    var v := ReadHeads(s, TABLE_WIDTHS, TableFields(c), c, 5);
    number := v[0];
    var pcrPid := ReadPid(s, c[5..]);
    assert c[5..][2..] == c[7..] && c[7..][2..] == body[9..] + tail;
    info := ReadInfo(s, c[7..]);
  }

  method SkipData(s: BitStream, ghost b: bytes, n: nat)
    requires At(s, b) && n <= |b|
    modifies s
    ensures At(s, b[n..])
  {
    hide Flat;
    SplitFlat(b, n);
    s.SkipBits(n * 8);
  }

  ghost function AfterStreams(got: seq<Ts.StreamEntry>, r: Result<seq<Ts.StreamEntry>, Ts.Error>): Result<seq<Ts.StreamEntry>, Ts.Error> {
    if r.Err? then r else Ok(got + r.value)
  }

  method ReadStreams(s: BitStream, ghost entries: bytes, ghost tail: bytes, size: nat) returns (r: Result<seq<Ts.StreamEntry>, Ts.Error>)
    requires At(s, entries + tail) && size == |entries| && |tail| >= 4
    modifies s
    ensures r == Ts.ReadStreams(entries)
  {
    hide Flat, Get, Ts.Pid, Ts.ReadStreams;
    var got: seq<Ts.StreamEntry> := [];
    var i := 0;
    assert entries[0..] == entries;
    StreamsNone(Ts.ReadStreams(entries));
    while i + 5 <= size
      invariant i <= size && At(s, entries[i..] + tail)
      invariant AfterStreams(got, Ts.ReadStreams(entries[i..])) == Ts.ReadStreams(entries)
    {
      ghost var c := entries[i..] + tail;
      StreamsMore(got, entries[i..]);
      PrefixReads(entries[i..], tail);
      ByteRead(c);
      var kind := s.GetBits(8);
      var pid := ReadPid(s, c[1..]);
      assert c[1..][2..] == c[3..] && c[3] == entries[i..][3] && c[4] == entries[i..][4];
      var info := ReadInfo(s, c[3..]);
      if i + 5 + info > size {
        return Err(Ts.LongStreamInfo);
      }
      assert c[3..][2..] == entries[i + 5..] + tail;
      SkipData(s, entries[i + 5..] + tail, info);
      assert (entries[i + 5..] + tail)[info..] == entries[i + 5 + info..] + tail;
      assert entries[i..][5 + info..] == entries[i + 5 + info..];
      got := got + [Ts.StreamEntry(kind, pid)];
      i := i + 5 + info;
    }
    StreamsEnd(got, entries[i..]);
    return Ok(got);
  }

  lemma {:induction false} StreamsNone(r: Result<seq<Ts.StreamEntry>, Ts.Error>)
    ensures AfterStreams([], r) == r
  {
    assert r.Ok? ==> [] + r.value == r.value;
  }

  lemma {:induction false} StreamsEnd(got: seq<Ts.StreamEntry>, b: bytes)
    requires |b| < 5
    ensures AfterStreams(got, Ts.ReadStreams(b)) == Ok(got)
  {
    assert got + [] == got;
  }

  lemma {:induction false} StreamsMore(got: seq<Ts.StreamEntry>, b: bytes)
    requires |b| >= 5
    ensures var info := b[3] as int % 0x10 * 0x100 + b[4] as int;
      if 5 + info > |b| then AfterStreams(got, Ts.ReadStreams(b)) == Err(Ts.LongStreamInfo)
      else AfterStreams(got, Ts.ReadStreams(b)) == AfterStreams(got + [Ts.StreamEntry(b[0], Ts.Pid(b[1..]))], Ts.ReadStreams(b[5 + info..]))
  {
    hide Ts.Pid;
    var info := b[3] as int % 0x10 * 0x100 + b[4] as int;
    if 5 + info <= |b| && Ts.ReadStreams(b[5 + info..]).Ok? {
      var more := Ts.ReadStreams(b[5 + info..]).value;
      assert got + ([Ts.StreamEntry(b[0], Ts.Pid(b[1..]))] + more) == (got + [Ts.StreamEntry(b[0], Ts.Pid(b[1..]))]) + more;
    }
  }
}
