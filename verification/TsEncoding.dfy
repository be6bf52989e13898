/** Encoding packet headers, adaptation fields, PES headers and program tables with a bit writer. */
module TsEncoding {
  import opened Arithmetic
  import opened Bytes
  import opened Wrappers
  import opened BitCodes
  import opened BitFields
  import opened BitStreams
  import opened BitWriter
  import opened TsFields
  import Ts = TsWire

  /** A writer between bytes that has not failed. */
  ghost predicate Ready(w: BitStreamWriter)
    reads w
  {
    w.Valid() && !w.err && w.bitOffset == 0
  }

  /** What a writer between bytes has written, as bytes. */
  ghost function Done(w: BitStreamWriter): bytes
    requires Ready(w)
    reads w
  {
    w.bits[..w.byteOffset]
  }

  lemma {:induction false} DoneFlat(w: BitStreamWriter)
    requires Ready(w)
    ensures w.Contents() == Flat(Done(w)) && |Done(w)| == w.byteOffset
  {
    SplitFlat(w.bits, w.byteOffset);
  }

  lemma {:induction false} DoneIs(w: BitStreamWriter, c: bytes)
    requires w.Valid() && !w.err && w.Contents() == Flat(c)
    ensures Ready(w) && Done(w) == c
  {
    hide Flat;
    assert w.Pos() == 8 * |c|;
    DoneFlat(w);
    FlatInjective(Done(w), c);
  }

  /** Fields that fill whole bytes. */
  method PutHeads(w: BitStreamWriter, fields: seq<Field>, ghost b: bytes)
    requires Ready(w) && PutAll(fields) == Flat(b) && forall i :: 0 <= i < |fields| ==> Writable(fields[i])
    modifies w
    ensures Ready(w) && Done(w) == old(Done(w)) + b
  {
    hide Flat, PutAll, Writable;
    DoneFlat(w);
    FlatConcat(Done(w), b);
    PutFields(w, fields);
    DoneIs(w, old(Done(w)) + b);
  }

  method PutData(w: BitStreamWriter, data: bytes)
    requires Ready(w)
    modifies w
    ensures Ready(w) && Done(w) == old(Done(w)) + data
  {
    hide Flat;
    DoneFlat(w);
    FlatConcat(Done(w), data);
    w.PutBytes(data);
    DoneIs(w, old(Done(w)) + data);
  }

  method PutFill(w: BitStreamWriter, v: byte, n: nat)
    requires Ready(w)
    modifies w
    ensures Ready(w) && Done(w) == old(Done(w)) + seq(n, _ => v)
  {
    hide Flat;
    DoneFlat(w);
    FlatConcat(Done(w), seq(n, _ => v));
    w.PutRepeated(v, n);
    DoneIs(w, old(Done(w)) + seq(n, _ => v));
  }

  /** The bytes of a packet under construction. */
  method Take(w: BitStreamWriter) returns (b: bytes)
    requires Ready(w)
    ensures b == Done(w)
  {
    hide Flat;
    DoneFlat(w);
    b := w.Bits();
    assert |b| == |Done(w)|;
    assert w.Contents() + [] == w.Contents();
    FlatInjective(b, Done(w));
  }

  /** Pads the packet under construction; one already too long is left alone. */
  method Pad(w: BitStreamWriter, size: nat)
    requires Ready(w)
    modifies w
    ensures Ready(w) && Done(w) == old(Done(w)) + Ts.Stuffing(if size > |old(Done(w))| then size - |old(Done(w))| else 0)
  {
    DoneFlat(w);
    var n := size - w.byteOffset;
    if n > 0 {
      PutFill(w, 0xFF, n);
    }
  }

  method EncodeHeader(w: BitStreamWriter, start: bool, pid: Ts.pid13, control: nat, cc: nat)
    requires Ready(w) && control < 4 && cc < 16
    modifies w
    ensures Ready(w) && Done(w) == old(Done(w)) + Ts.EncodeHeader(start, pid, control, cc)
  {
    hide Flat, PutAll, Pow2, Heads;
    ghost var b := Ts.EncodeHeader(start, pid, control, cc);
    HeaderHeads(b);
    HeadsWrite(HeaderFields(b), b);
    var fields := [Field(0x47, 8), Field(0, 1), Field(Ts.Bit(start), 1), Field(0, 1), Field(pid, 13), Field(0, 2), Field(control, 2), Field(cc, 4)];
    HeaderValues(start, pid, control, cc);
    PutHeads(w, fields, b);
  }

  lemma {:induction false} HeaderValues(start: bool, pid: Ts.pid13, control: nat, cc: nat)
    requires control < 4 && cc < 16
    ensures HeaderFields(Ts.EncodeHeader(start, pid, control, cc))
            == [Field(0x47, 8), Field(0, 1), Field(Ts.Bit(start), 1), Field(0, 1), Field(pid, 13), Field(0, 2), Field(control, 2), Field(cc, 4)]
  {
    var b := Ts.EncodeHeader(start, pid, control, cc);
    var hi := pid / 0x100;
    assert pid == hi * 0x100 + pid % 0x100 && hi < 0x20;
    assert b[1] == Ts.Bit(start) * 0x40 + hi;
    assert b[1] / 0x80 == 0 && b[1] / 0x40 % 2 == Ts.Bit(start) && b[1] / 0x20 % 2 == 0 && b[1] % 0x20 == hi;
    assert b[3] / 0x40 == 0 && b[3] / 0x10 % 4 == control && b[3] % 0x10 == cc;
  }

  class AdaptationField {
    var length: byte
    const f: Ts.Field

    constructor (f: Ts.Field)
      ensures length == 0 && this.f == f
    {
      length, this.f := 0, f;
    }

    /** The length is known only at the end, and patched in where it belongs. */
    method Encode(w: BitStreamWriter)
      requires Ready(w) && length == 0 && Ts.FieldLength(f) < 0x100
      modifies w, this
      ensures Ready(w) && Done(w) == old(Done(w)) + Ts.EncodeField(f) && length == Ts.FieldLength(f)
    {
      hide Flat;
      ghost var was := Done(w);
      var loc := w.byteOffset;
      DoneFlat(w);
      PutData(w, [length]);
      if f.SingleStuffing? {
        return;
      }
      PutBody(w);
      ghost var e := Ts.EncodeField(f);
      assert Done(w) == was + ([0] + e[1..]);
      Patch(w, length, loc, was, [0] + e[1..]);
      assert ([0] + e[1..])[0 := length] == e;
    }

    /** Flags, clock and stuffing; the length counts all of them. */
    method PutBody(w: BitStreamWriter)
      requires Ready(w) && f.Flags? && Ts.FieldLength(f) < 0x100
      modifies w, this`length
      ensures Ready(w) && Done(w) == old(Done(w)) + Ts.EncodeField(f)[1..] && length == Ts.FieldLength(f)
    {
      hide Flat, Ts.PutPcr, Ts.EncodeField, Ts.FieldLength;
      ghost var was := Done(w);
      FieldBody(f);
      DoneFlat(w);
      var mark := w.byteOffset;
      PutFlags(w, f.randomAccess, f.pcr.Some?);
      if f.pcr.Some? {
        PutPcr(w, f.pcr.value);
      }
      ghost var flags: bytes := [Ts.Bit(f.randomAccess) * 0x40 + Ts.Bit(f.pcr.Some?) * 0x10];
      ghost var clock := if f.pcr.Some? then Ts.PutPcr(f.pcr.value) else [];
      assert Done(w) == was + (flags + clock);
      DoneFlat(w);
      length := (w.byteOffset - mark) % 0x100;
      PutFill(w, 0xFF, f.stuffing);
      length := (length as int + f.stuffing) % 0x100;
      assert Done(w) == was + (flags + clock + Ts.Stuffing(f.stuffing));
    }
  }

  lemma {:induction false} FieldBody(f: Ts.Field)
    requires f.Flags?
    ensures Ts.EncodeField(f)[1..] ==
      [Ts.Bit(f.randomAccess) * 0x40 + Ts.Bit(f.pcr.Some?) * 0x10] + (if f.pcr.Some? then Ts.PutPcr(f.pcr.value) else [])
      + Ts.Stuffing(f.stuffing)
    ensures Ts.FieldLength(f) == 1 + (if f.pcr.Some? then 6 else 0) + f.stuffing
  {
    hide Ts.PutPcr, Ts.FieldLength;
    FieldSize(f);
  }

  lemma {:induction false} FieldSize(f: Ts.Field)
    requires f.Flags?
    ensures Ts.FieldLength(f) == 1 + (if f.pcr.Some? then 6 else 0) + f.stuffing
  {
  }

  /** Patching byte k of what followed `was`. */
  method Patch(w: BitStreamWriter, v: byte, at: nat, ghost was: bytes, ghost y: bytes)
    requires Ready(w) && Done(w) == was + y && |was| <= at < |was| + |y|
    modifies w
    ensures Ready(w) && Done(w) == was + y[at - |was| := v]
  {
    DoneFlat(w);
    w.SetByte(v, at);
  }

  method PutFlags(w: BitStreamWriter, randomAccess: bool, pcr: bool)
    requires Ready(w)
    modifies w
    ensures Ready(w) && Done(w) == old(Done(w)) + [Ts.Bit(randomAccess) * 0x40 + Ts.Bit(pcr) * 0x10]
  {
    hide Flat, PutAll, Pow2, Heads;
    ghost var b: bytes := [Ts.Bit(randomAccess) * 0x40 + Ts.Bit(pcr) * 0x10];
    FlagHeads(b);
    HeadsWrite(FlagFields(b), b);
    var fields := [Field(0, 1), Field(Ts.Bit(randomAccess), 1), Field(0, 1), Field(Ts.Bit(pcr), 1), Field(0, 1), Field(0, 1), Field(0, 1), Field(0, 1)];
    assert FlagFields(b) == fields;
    PutHeads(w, fields, b);
  }

  /** The clock base has 33 bits; higher ones are not written. */
  method PutPcr(w: BitStreamWriter, base: u64)
    requires Ready(w)
    modifies w
    ensures Ready(w) && Done(w) == old(Done(w)) + Ts.PutPcr(base)
  {
    hide Flat, PutAll, Pow2, Heads;
    ghost var b := Ts.PutPcr(base);
    PcrHeads(b);
    HeadsWrite(PcrFields(b), b);
    var fields := [Field(base, 33), Field(0, 6), Field(0, 9)];
    PcrValues(base);
    PutHeads(w, fields, b);
  }

  lemma {:induction false} PcrValues(base: u64)
    ensures PutAll([Field(base, 33), Field(0, 6), Field(0, 9)]) == PutAll(PcrFields(Ts.PutPcr(base)))
  {
    hide Flat, PutAll, Pow2, BitsOf;
    LongPowers();
    BitsMod(base, 33);
    var b := Ts.PutPcr(base);
    Put3(Field(base, 33), Field(0, 6), Field(0, 9));
    Put3(Field(base % Ts.TWO_33, 33), Field(0, 6), Field(0, 9));
    BaseDigits(base);
    assert b[4] == base % 2 * 0x80 && b[5] == 0;
    assert PcrFields(b) == [Field(base % Ts.TWO_33, 33), Field(0, 6), Field(0, 9)];
  }

  lemma {:induction false} BaseDigits(base: u64)
    ensures var b := Ts.PutPcr(base); U32(b) as int * 2 + b[4] as int / 0x80 == base % Ts.TWO_33
  {
    var a, c, d, e := base / 2, base / 0x200, base / 0x2_0000, base / 0x200_0000;
    assert d / 0x100 == e && c / 0x100 == d && a / 0x100 == c;
    Low33(base);
    Low32(a);
    Low24(c);
    Low16(d);
  }

  lemma {:induction false} Low33(v: nat)
    ensures v % 0x2_0000_0000 == v / 2 % 0x1_0000_0000 * 2 + v % 2
  {
    TwoDigits(v, 2, 0x1_0000_0000, 0x2_0000_0000);
  }

  lemma {:induction false} Low32(v: nat)
    ensures v % 0x1_0000_0000 == v / 0x100 % 0x100_0000 * 0x100 + v % 0x100
  {
    TwoDigits(v, 0x100, 0x100_0000, 0x1_0000_0000);
  }

  lemma {:induction false} Low24(v: nat)
    ensures v % 0x100_0000 == v / 0x100 % 0x1_0000 * 0x100 + v % 0x100
  {
    TwoDigits(v, 0x100, 0x1_0000, 0x100_0000);
  }

  lemma {:induction false} Low16(v: nat)
    ensures v % 0x1_0000 == v / 0x100 % 0x100 * 0x100 + v % 0x100
  {
    TwoDigits(v, 0x100, 0x100, 0x1_0000);
  }

  /** A PES header and its payload. */
  method EncodePes(w: BitStreamWriter, sid: byte, length: u16, aligned: bool, pts: u64, dts: u64, payload: bytes)
    requires Ready(w)
    modifies w
    ensures Ready(w) && Done(w) == old(Done(w)) + (Ts.EncodePes(sid, length, aligned, pts, dts) + payload)
  {
    hide Flat, PutAll, Heads, Ts.PutStamp;
    ghost var b: bytes := [0, 0, 1, sid, length / 0x100, length % 0x100, 0x80 + Ts.Bit(aligned) * 4, 0xC0, 10];
    PesHeads(b);
    HeadsWrite(PesFields(b), b);
    PesValues(sid, length, aligned);
    PutHeads(w, PesHead(sid, length, aligned), b);
    PutStamp(w, 3, pts);
    PutStamp(w, 1, dts);
    PutData(w, payload);
    assert Done(w) == old(Done(w)) + (b + Ts.PutStamp(3, pts) + Ts.PutStamp(1, dts) + payload);
  }

  /** Start code, stream, length; the fixed bits; both time stamps announced; ten bytes of them. */
  function PesHead(sid: byte, length: u16, aligned: bool): seq<Field> {
    [Field(1, 24), Field(sid, 8), Field(length, 16)]
    + ([Field(2, 2), Field(0, 2), Field(0, 1), Field(Ts.Bit(aligned), 1), Field(0, 1), Field(0, 1)]
       + ([Field(3, 2), Field(0, 1), Field(0, 1), Field(0, 1), Field(0, 1), Field(0, 1), Field(0, 1)] + [Field(10, 8)]))
  }

  lemma {:induction false} PesValues(sid: byte, length: u16, aligned: bool)
    ensures PesFields([0, 0, 1, sid, length / 0x100, length % 0x100, 0x80 + Ts.Bit(aligned) * 4, 0xC0, 10]) == PesHead(sid, length, aligned)
  {
    var b: bytes := [0, 0, 1, sid, length / 0x100, length % 0x100, 0x80 + Ts.Bit(aligned) * 4, 0xC0, 10];
    assert U24(b) == 1;
    assert PesStart(b) == [Field(1, 24), Field(sid, 8), Field(length, 16)];
    assert PesMiddle(b[6]) == [Field(2, 2), Field(0, 2), Field(0, 1), Field(Ts.Bit(aligned), 1), Field(0, 1), Field(0, 1)];
    assert PesFlags(b[7]) == [Field(3, 2), Field(0, 1), Field(0, 1), Field(0, 1), Field(0, 1), Field(0, 1), Field(0, 1)];
  }

  method PutStamp(w: BitStreamWriter, prefix: nat, v: u64)
    requires Ready(w) && prefix < 16
    modifies w
    ensures Ready(w) && Done(w) == old(Done(w)) + Ts.PutStamp(prefix, v)
  {
    hide Flat, PutAll, Pow2, Heads, Writable;
    ghost var b := Ts.PutStamp(prefix, v);
    StampHeads(b);
    HeadsWrite(StampFields(b), b);
    var fields :=
      [Field(prefix, 4), Field(v / 0x4000_0000, 3), Field(1, 1)] + ([Field(v / 0x8000, 15), Field(1, 1)] + [Field(v, 15), Field(1, 1)]);
    StampValues(prefix, v);
    forall i | 0 <= i < |fields| ensures Writable(fields[i]) {
      WritableIs(fields[i]);
    }
    PutHeads(w, fields, b);
  }

  lemma {:induction false} StampValues(prefix: nat, v: u64)
    requires prefix < 16
    ensures PutAll([Field(prefix, 4), Field(v / 0x4000_0000, 3), Field(1, 1)] + ([Field(v / 0x8000, 15), Field(1, 1)] + [Field(v, 15), Field(1, 1)]))
            == PutAll(StampFields(Ts.PutStamp(prefix, v)))
  {
    hide Flat, PutAll, Pow2, BitsOf;
    Powers();
    var b := Ts.PutStamp(prefix, v);
    BitsMod(v / 0x4000_0000, 3);
    BitsMod(v / 0x8000, 15);
    BitsMod(v, 15);
    StampDigits(prefix, v);
    var k, l, m := v / 0x4000_0000, v / 0x8000, v;
    SameBits([Field(prefix, 4)], Field(k, 3), Field(k % 8, 3), [Field(1, 1)]);
    SameBits([], Field(l, 15), Field(l % 0x8000, 15), [Field(1, 1)]);
    SameBits([], Field(m, 15), Field(m % 0x8000, 15), [Field(1, 1)]);
    var a, c, d := [Field(prefix, 4), Field(k, 3), Field(1, 1)], [Field(l, 15), Field(1, 1)], [Field(m, 15), Field(1, 1)];
    var a', c', d' := [Field(prefix, 4), Field(k % 8, 3), Field(1, 1)], [Field(l % 0x8000, 15), Field(1, 1)], [Field(m % 0x8000, 15), Field(1, 1)];
    PutAllConcat(c, d);
    PutAllConcat(a, c + d);
    PutAllConcat(c', d');
    PutAllConcat(a', c' + d');
    assert StampFields(b) == a' + (c' + d');
  }

  /** A field may be replaced by one with the same bits. */
  lemma {:induction false} SameBits(before: seq<Field>, f: Field, g: Field, after: seq<Field>)
    requires BitsOf(f.value, f.width) == BitsOf(g.value, g.width)
    ensures PutAll(before + [f] + after) == PutAll(before + [g] + after)
    ensures before == [] ==> PutAll([f] + after) == PutAll([g] + after)
    ensures |before| == 1 && |after| == 1 ==> before + [f] + after == [before[0], f, after[0]] && before + [g] + after == [before[0], g, after[0]]
    ensures |after| == 1 ==> [f] + after == [f, after[0]] && [g] + after == [g, after[0]]
  {
    hide PutAll, BitsOf;
    Put1(f);
    Put1(g);
    PutAllConcat([f], after);
    PutAllConcat([g], after);
    PutAllConcat(before, [f] + after);
    PutAllConcat(before, [g] + after);
    assert before + [f] + after == before + ([f] + after) && before + [g] + after == before + ([g] + after);
  }

  lemma {:induction false} StampDigits(prefix: nat, v: u64)
    requires prefix < 16
    ensures var b := Ts.PutStamp(prefix, v);
      && b[0] / 0x10 == prefix && b[0] / 2 % 8 == v / 0x4000_0000 % 8 && b[0] % 2 == 1
      && b[1] as int * 0x80 + b[2] as int / 2 == v / 0x8000 % 0x8000 && b[2] % 2 == 1
      && b[3] as int * 0x80 + b[4] as int / 2 == v % 0x8000 && b[4] % 2 == 1
  {
    assert v / 0x40_0000 == v / 0x8000 / 0x80;
    Low15(v / 0x8000);
    Low15(v);
  }

  lemma {:induction false} Low15(v: nat)
    ensures v % 0x8000 == v / 0x80 % 0x100 * 0x80 + v % 0x80
  {
  }

  // ---------------------------------------------------------------------------
  // Program tables
  // ---------------------------------------------------------------------------

  method PutTable(w: BitStreamWriter, number: u16)
    requires Ready(w)
    modifies w
    ensures Ready(w) && Done(w) == old(Done(w)) + (PutU16(number) + [0xC1, 0, 0])
  {
    hide Flat, PutAll, Heads;
    ghost var b := PutU16(number) + [0xC1, 0, 0];
    TableHeads(b);
    HeadsWrite(TableFields(b), b);
    var fields := [Field(number, 16), Field(3, 2), Field(0, 5)] + [Field(1, 1), Field(0, 8), Field(0, 8)];
    assert TableFields(b) == fields;
    PutHeads(w, fields, b);
  }

  method PutPid(w: BitStreamWriter, top: nat, pid: Ts.pid13)
    requires Ready(w) && top < 8
    modifies w
    ensures Ready(w) && Done(w) == old(Done(w)) + Ts.PutPid(top, pid)
  {
    hide Flat, PutAll, Heads;
    ghost var b := Ts.PutPid(top, pid);
    PidHeads(b);
    HeadsWrite(PidFields(b), b);
    var fields := [Field(top, 3), Field(pid, 13)];
    assert b[0] / 0x20 == top && b[0] % 0x20 == pid / 0x100;
    assert PidFields(b) == fields;
    PutHeads(w, fields, b);
  }

  method PutInfo(w: BitStreamWriter, top: nat)
    requires Ready(w) && top < 16
    modifies w
    ensures Ready(w) && Done(w) == old(Done(w)) + [top * 0x10, 0]
  {
    hide Flat, PutAll, Heads;
    ghost var b: bytes := [top * 0x10, 0];
    InfoHeads(b);
    HeadsWrite(InfoFields(b), b);
    var fields := [Field(top, 4), Field(0, 12)];
    assert InfoFields(b) == fields;
    PutHeads(w, fields, b);
  }

  /** A section begins with its table id and a length still open. */
  method OpenSection(w: BitStreamWriter, table: byte) returns (loc: nat)
    requires Ready(w)
    modifies w
    ensures Ready(w) && Done(w) == old(Done(w)) + [table, 0xB0, 0] && loc == |old(Done(w))| + 1
  {
    hide Flat, PutAll, Heads;
    DoneFlat(w);
    PutData(w, [table]);
    loc := w.byteOffset;
    DoneFlat(w);
    ghost var b: bytes := [0xB0, 0];
    InfoHeads(b);
    HeadsWrite(InfoFields(b), b);
    FirstTwo();
    PutHeads(w, [Field(1, 1), Field(0, 1), Field(3, 2), Field(0, 12)], b);
    assert [table] + b == [table, 0xB0, 0];
  }

  lemma {:induction false} FirstTwo()
    ensures PutAll([Field(1, 1), Field(0, 1), Field(3, 2), Field(0, 12)]) == PutAll(InfoFields([0xB0, 0]))
  {
    hide PutAll, BitsOf, Pow2;
    Powers();
    Split(0xB, 2, 2, 4, 2, 3);
    Split(2, 1, 1, 2, 1, 0);
    Put4(Field(1, 1), Field(0, 1), Field(3, 2), Field(0, 12));
    Put2(Field(0xB, 4), Field(0, 12));
    assert InfoFields([0xB0, 0]) == [Field(0xB, 4), Field(0, 12)];
  }

  /** The length is patched in; it counts the body and the checksum that follows. */
  method CloseSection(w: BitStreamWriter, loc: nat, length: nat, crc: u32, ghost was: bytes, ghost table: byte, ghost body: bytes)
    requires Ready(w) && Done(w) == was + ([table, 0xB0, 0] + body) && loc == |was| + 1
    requires length == |body| + 4 < 0x1000
    modifies w
    ensures Ready(w) && Done(w) == was + Ts.Section(table, body, crc)
  {
    hide Flat, Ts.Section;
    PatchLength(w, loc, length, was, table, body);
    PutData(w, PutU32LE(crc));
    SectionIs(table, body, length, crc, was);
  }

  method PatchLength(w: BitStreamWriter, loc: nat, length: nat, ghost was: bytes, ghost table: byte, ghost body: bytes)
    requires Ready(w) && Done(w) == was + ([table, 0xB0, 0] + body) && loc == |was| + 1 && length < 0x1000
    modifies w
    ensures 0xB0 + length / 0x100 < 0x100
    ensures Ready(w) && Done(w) == was + ([table, 0xB0 + length / 0x100, length % 0x100] + body)
  {
    hide Flat;
    DoneFlat(w);
    LengthBytes(length);
    Patched(was, table, body, 0xB0 + length / 0x100, length % 0x100);
    w.SetUint16(length % 0x1000 + 0x8000 + 0x3000, loc);
  }

  lemma {:induction false} SectionIs(table: byte, body: bytes, length: nat, crc: u32, was: bytes)
    requires length == |body| + 4 < 0x1000
    ensures 0xB0 + length / 0x100 < 0x100
    ensures was + ([table, 0xB0 + length / 0x100, length % 0x100] + body) + PutU32LE(crc) == was + Ts.Section(table, body, crc)
  {
    hide PutU32LE;
  }

  lemma {:induction false} LengthBytes(length: nat)
    requires length < 0x1000
    ensures var v := length % 0x1000 + 0x8000 + 0x3000; v / 0x100 == 0xB0 + length / 0x100 && v % 0x100 == length % 0x100
  {
    hide Times;
    TimesStep(0, 0x1000);
    ModUnique(length, 0x1000, 0, length);
    DivMod(length, 0x100);
    TimesDistributes(0xB0 + length / 0x100, length / 0x100, 0x100);
    assert Times(0xB0, 0x100) == 0xB000 by { SectionBits(); }
    ModUnique(length + 0xB000, 0x100, 0xB0 + length / 0x100, length % 0x100);
  }

  lemma {:induction false} SectionBits()
    ensures Times(0xB0, 0x100) == 0xB000
  {
  }

  lemma {:induction false} Patched(was: bytes, table: byte, body: bytes, hi: byte, lo: byte)
    ensures var b, i := was + ([table, 0xB0, 0] + body), |was| + 1;
      i + 1 < |b| && b[i := hi][i + 1 := lo] == was + ([table, hi, lo] + body)
  {
  }

  method EncodePat(w: BitStreamWriter, programs: seq<Ts.ProgramEntry>, crc: u32)
    requires Ready(w) && 5 + 4 * |programs| + 4 < 0x1000
    modifies w
    ensures Ready(w) && Done(w) == old(Done(w)) + Ts.EncodePat(programs, crc)
  {
    hide Flat, PutU16, Ts.PutPid, Ts.PutPrograms, Ts.Section;
    ghost var was, all := Done(w), Ts.PutPrograms(programs);
    var loc := OpenSection(w, 0);
    DoneFlat(w);
    var mark := w.byteOffset;
    PutTable(w, 0);
    assert PutU16(0) == [0, 0] by { Zero(); }
    ghost var start := Done(w);
    assert programs[0..] == programs;
    for i := 0 to |programs|
      invariant Ready(w) && Done(w) + Ts.PutPrograms(programs[i..]) == start + all
    {
      ProgramsStep(programs[i..], Done(w));
      assert programs[i..][1..] == programs[i + 1..];
      PutWord(w, programs[i].number);
      PutPid(w, 7, programs[i].pid);
    }
    ProgramsNone();
    assert Done(w) == start + all;
    DoneFlat(w);
    var length := (w.byteOffset - mark) + 4;
    ghost var body := [0, 0, 0xC1, 0, 0] + all;
    assert Done(w) == was + ([0, 0xB0, 0] + body);
    CloseSection(w, loc, length, crc, was, 0, body);
  }

  lemma {:induction false} Zero()
    ensures PutU16(0) == [0, 0]
  {
  }

  method PutWord(w: BitStreamWriter, v: u16)
    requires Ready(w)
    modifies w
    ensures Ready(w) && Done(w) == old(Done(w)) + PutU16(v)
  {
    hide Flat, PutAll;
    WordIs(v);
    PutHeads(w, [Field(v, 16)], PutU16(v));
  }

  lemma {:induction false} WordIs(v: u16)
    ensures PutAll([Field(v, 16)]) == Flat(PutU16(v))
  {
    hide Flat, BitsOf, PutAll, Pow2;
    Powers();
    var b := PutU16(v);
    Put1(Field(v, 16));
    Split(v, 8, 8, 0x100, v / 0x100, v % 0x100);
    FlatCons(b);
    FlatCons(b[1..]);
    assert b[1..][1..] == [];
    FlatNone();
    assert BitsOf(b[1], 8) + [] == BitsOf(b[1], 8);
  }

  lemma {:induction false} ProgramsNone()
    ensures Ts.PutPrograms([]) == []
  {
  }

  lemma {:induction false} ProgramsStep(programs: seq<Ts.ProgramEntry>, before: bytes)
    requires programs != []
    ensures before + Ts.PutPrograms(programs)
            == before + PutU16(programs[0].number) + Ts.PutPid(7, programs[0].pid) + Ts.PutPrograms(programs[1..])
  {
    hide PutU16, Ts.PutPid;
  }

  lemma {:induction false} StreamsNone()
    ensures Ts.PutStreams([]) == []
  {
  }

  lemma {:induction false} StreamsStep(streams: seq<Ts.StreamEntry>, before: bytes)
    requires streams != []
    ensures before + Ts.PutStreams(streams)
            == before + [streams[0].kind] + Ts.PutPid(0, streams[0].pid) + [0, 0] + Ts.PutStreams(streams[1..])
  {
    hide Ts.PutPid;
  }

  method EncodePmt(w: BitStreamWriter, number: u16, pcrPid: Ts.pid13, streams: seq<Ts.StreamEntry>, crc: u32)
    requires Ready(w) && 9 + 5 * |streams| + 4 < 0x1000
    modifies w
    ensures Ready(w) && Done(w) == old(Done(w)) + Ts.EncodePmt(number, pcrPid, streams, crc)
  {
    hide Flat, PutU16, Ts.PutPid, Ts.PutStreams, Ts.Section;
    ghost var was, all := Done(w), Ts.PutStreams(streams);
    var loc := OpenSection(w, 2);
    DoneFlat(w);
    var mark := w.byteOffset;
    PutTable(w, number);
    PutPid(w, 7, pcrPid);
    PutInfo(w, 15);
    ghost var start := Done(w);
    assert streams[0..] == streams;
    for i := 0 to |streams|
      invariant Ready(w) && Done(w) + Ts.PutStreams(streams[i..]) == start + all
    {
      StreamsStep(streams[i..], Done(w));
      assert streams[i..][1..] == streams[i + 1..];
      PutData(w, [streams[i].kind]);
      PutPid(w, 0, streams[i].pid);
      PutInfo(w, 0);
    }
    StreamsNone();
    assert Done(w) == start + all;
    DoneFlat(w);
    var length := (w.byteOffset - mark) + 4;
    ghost var body := PutU16(number) + [0xC1, 0, 0] + Ts.PutPid(7, pcrPid) + [0xF0, 0] + all;
    assert Done(w) == was + ([2, 0xB0, 0] + body);
    CloseSection(w, loc, length, crc, was, 2, body);
  }
}
