/** The headers of a transport stream as fields of bits, and the bytes those fields fill. */
module TsFields {
  import opened Arithmetic
  import opened Bytes
  import opened BitCodes
  import opened BitFields

  // ---------------------------------------------------------------------------
  // Bits that fill bytes
  // ---------------------------------------------------------------------------

  /** The high n bits and the low m bits; p is 2^m. */
  lemma {:induction false} Split(v: nat, n: nat, m: nat, p: nat, hi: nat, lo: nat)
    requires p == Pow2(m) && lo < p && v == Times(hi, p) + lo
    ensures BitsOf(v, n + m) == BitsOf(hi, n) + BitsOf(lo, m)
  {
    hide BitsOf, Times;
    BitsMod(v, m);
    BitsSuffix(v, n + m, n);
    BitsPrefix(v, n + m, n);
    DownIs(hi, lo, m);
    ModUnique(v, p, hi, lo);
  }

  lemma {:induction false} DownIs(hi: nat, lo: nat, m: nat)
    requires lo < Pow2(m)
    ensures Times(hi, Pow2(m)) + lo >= 0 && Down(Times(hi, Pow2(m)) + lo, m) == hi
  {
    hide Times;
    TimesNonNegative(hi, Pow2(m));
    if m == 0 {
      TimesStep(0, hi);
      TimesStep(hi, 1);
    } else {
      TimesNonNegative(hi, Pow2(m - 1));
      DownIs(hi, lo / 2, m - 1);
      TimesTwice(hi, Pow2(m - 1));
      HalfSum(Times(hi, Pow2(m - 1)), lo);
    }
  }

  lemma {:induction false} TimesTwice(a: int, b: int)
    ensures Times(a, 2 * b) == 2 * Times(a, b)
  {
  }

  lemma {:induction false} HalfSum(a: nat, b: nat)
    ensures (2 * a + b) / 2 == a + b / 2
  {
  }

  lemma {:induction false} Powers()
    ensures Pow2(1) == 2 && Pow2(2) == 4 && Pow2(3) == 8 && Pow2(4) == 0x10 && Pow2(5) == 0x20 && Pow2(6) == 0x40 && Pow2(7) == 0x80
    ensures Pow2(8) == 0x100 && Pow2(9) == 0x200 && Pow2(12) == 0x1000 && Pow2(13) == 0x2000 && Pow2(15) == 0x8000 && Pow2(16) == 0x1_0000
  {
    assert Pow2(4) == 0x10;
    assert Pow2(8) == 0x100;
    assert Pow2(12) == 0x1000;
    assert Pow2(16) == 0x1_0000;
  }

  lemma {:induction false} FlatCons(b: bytes)
    requires b != []
    ensures Flat(b) == BitsOf(b[0], 8) + Flat(b[1..])
  {
    FlatAt(b, 0);
    assert Flat(b) == Flat(b)[0..8] + Flat(b)[8..];
  }

  lemma {:induction false} PutAllConcat(a: seq<Field>, b: seq<Field>)
    ensures PutAll(a + b) == PutAll(a) + PutAll(b)
  {
    if a == [] {
      assert a + b == b;
    } else {
      assert (a + b)[1..] == a[1..] + b;
      PutAllConcat(a[1..], b);
    }
  }

  lemma {:induction false} Put1(f: Field)
    ensures PutAll([f]) == BitsOf(f.value, f.width)
  {
    assert [f][1..] == [];
  }

  lemma {:induction false} Put2(f: Field, g: Field)
    ensures PutAll([f, g]) == BitsOf(f.value, f.width) + BitsOf(g.value, g.width)
  {
    assert [f, g][1..] == [g];
    Put1(g);
  }

  lemma {:induction false} Put3(f: Field, g: Field, h: Field)
    ensures PutAll([f, g, h]) == BitsOf(f.value, f.width) + (BitsOf(g.value, g.width) + BitsOf(h.value, h.width))
  {
    assert [f, g, h][1..] == [g, h];
    Put2(g, h);
  }

  lemma {:induction false} Put4(f: Field, g: Field, h: Field, k: Field)
    ensures PutAll([f, g, h, k]) == (BitsOf(f.value, f.width) + BitsOf(g.value, g.width)) + (BitsOf(h.value, h.width) + BitsOf(k.value, k.width))
  {
    Put2(f, g);
    Put2(h, k);
    assert [f, g, h, k] == [f, g] + [h, k];
    PutAllConcat([f, g], [h, k]);
  }

  // ---------------------------------------------------------------------------
  // Fields at the head of a buffer
  // ---------------------------------------------------------------------------

  predicate Fits(f: Field) {
    1 <= f.width <= 64 && f.value < Pow2(f.width)
  }

  /** The fields take the first k bytes of the buffer. */
  ghost predicate Heads(fields: seq<Field>, b: bytes, k: nat) {
    && k <= |b| && Flat(b) == PutAll(fields) + Flat(b[k..])
    && forall i :: 0 <= i < |fields| ==> Fits(fields[i])
  }

  function RawOf(fields: seq<Field>): (v: seq<nat>)
    ensures |v| == |fields|
  {
    seq(|fields|, i requires 0 <= i < |fields| => fields[i].value)
  }

  /** Reading the fields at the head of a buffer gives them back and leaves the rest. */
  lemma {:induction false} HeadsRead(fields: seq<Field>, b: bytes, k: nat)
    requires Heads(fields, b, k)
    ensures GetAll(Reader(Flat(b), false), WidthsOf(fields)) == (RawOf(fields), Reader(Flat(b[k..]), false))
  {
    hide Flat, PutAll, GetAll;
    forall i | 0 <= i < |fields|
      ensures fields[i].value % Pow2(fields[i].width) == fields[i].value && Writable(fields[i])
    {
      assert Fits(fields[i]);
      ModUnique(fields[i].value, Pow2(fields[i].width), 0, fields[i].value);
    }
    FieldsRoundTrip(fields, Flat(b[k..]));
    assert ValuesOf(fields) == RawOf(fields);
  }

  /** Writing them gives those bytes. */
  lemma {:induction false} HeadsWrite(fields: seq<Field>, b: bytes)
    requires Heads(fields, b, |b|)
    ensures PutAll(fields) == Flat(b)
    ensures forall i :: 0 <= i < |fields| ==> Writable(fields[i])
  {
    assert b[|b|..] == [];
    assert PutAll(fields) + [] == PutAll(fields);
    forall i | 0 <= i < |fields|
      ensures Writable(fields[i])
    {
      assert Fits(fields[i]);
    }
  }

  // ---------------------------------------------------------------------------
  // The packet header
  // ---------------------------------------------------------------------------

  const HEADER_WIDTHS := [8, 1, 1, 1, 13, 2, 2, 4]

  function HeaderFields(b: bytes): (f: seq<Field>)
    requires |b| >= 4
    ensures |f| == 8
  {
    [Field(b[0], 8), Field(b[1] / 0x80, 1), Field(b[1] / 0x40 % 2, 1), Field(b[1] / 0x20 % 2, 1),
     Field(b[1] as int % 0x20 * 0x100 + b[2] as int, 13), Field(b[3] / 0x40, 2), Field(b[3] / 0x10 % 4, 2), Field(b[3] % 0x10, 4)]
  }

  lemma {:induction false} HeaderHeads(b: bytes)
    requires |b| >= 4
    ensures Heads(HeaderFields(b), b, 4) && WidthsOf(HeaderFields(b)) == HEADER_WIDTHS
  {
    hide Flat, BitsOf, PutAll, Pow2;
    Powers();
    var f := HeaderFields(b);
    TopThree(b[1]);
    LowHigh(b[1], b[2]);
    Quarters(b[3]);
    Put1(f[0]);
    Put4(f[1], f[2], f[3], f[4]);
    Put3(f[5], f[6], f[7]);
    assert f == [f[0]] + ([f[1], f[2], f[3], f[4]] + [f[5], f[6], f[7]]);
    PutAllConcat([f[1], f[2], f[3], f[4]], [f[5], f[6], f[7]]);
    PutAllConcat([f[0]], [f[1], f[2], f[3], f[4]] + [f[5], f[6], f[7]]);
    FourBytes(b);
  }

  lemma {:induction false} FourBytes(b: bytes)
    requires |b| >= 4
    ensures Flat(b) == (BitsOf(b[0], 8) + ((BitsOf(b[1], 8) + BitsOf(b[2], 8)) + BitsOf(b[3], 8))) + Flat(b[4..])
  {
    hide Flat, BitsOf;
    FlatCons(b);
    FlatCons(b[1..]);
    FlatCons(b[2..]);
    FlatCons(b[3..]);
    assert b[1..][1..] == b[2..] && b[2..][1..] == b[3..] && b[3..][1..] == b[4..];
  }

  lemma {:induction false} TopThree(x: byte)
    ensures BitsOf(x, 8) == (BitsOf(x / 0x80, 1) + BitsOf(x / 0x40 % 2, 1)) + (BitsOf(x / 0x20 % 2, 1) + BitsOf(x % 0x20, 5))
  {
    hide BitsOf, Pow2;
    Powers();
    Split(x, 3, 5, 0x20, x / 0x20, x % 0x20);
    Split(x / 0x20, 2, 1, 2, x / 0x40, x / 0x20 % 2);
    Split(x / 0x40, 1, 1, 2, x / 0x80, x / 0x40 % 2);
  }

  /** Thirteen bits over two bytes. */
  lemma {:induction false} LowHigh(x: byte, y: byte)
    ensures BitsOf(x as int % 0x20 * 0x100 + y as int, 13) == BitsOf(x % 0x20, 5) + BitsOf(y, 8)
  {
    hide BitsOf, Pow2;
    Powers();
    Split(x as int % 0x20 * 0x100 + y as int, 5, 8, 0x100, x % 0x20, y);
  }

  lemma {:induction false} Quarters(x: byte)
    ensures BitsOf(x, 8) == BitsOf(x / 0x40, 2) + (BitsOf(x / 0x10 % 4, 2) + BitsOf(x % 0x10, 4))
  {
    hide BitsOf, Pow2;
    Powers();
    Split(x, 4, 4, 0x10, x / 0x10, x % 0x10);
    Split(x / 0x10, 2, 2, 4, x / 0x40, x / 0x10 % 4);
  }

  // ---------------------------------------------------------------------------
  // Adaptation fields
  // ---------------------------------------------------------------------------

  const FLAG_WIDTHS := [1, 1, 1, 1, 1, 1, 1, 1]

  function FlagFields(b: bytes): (f: seq<Field>)
    requires |b| >= 1
    ensures |f| == 8
  {
    [Field(b[0] / 0x80, 1), Field(b[0] / 0x40 % 2, 1), Field(b[0] / 0x20 % 2, 1), Field(b[0] / 0x10 % 2, 1),
     Field(b[0] / 8 % 2, 1), Field(b[0] / 4 % 2, 1), Field(b[0] / 2 % 2, 1), Field(b[0] % 2, 1)]
  }

  lemma {:induction false} FlagHeads(b: bytes)
    requires |b| >= 1
    ensures Heads(FlagFields(b), b, 1) && WidthsOf(FlagFields(b)) == FLAG_WIDTHS
  {
    hide Flat, BitsOf, PutAll, Pow2;
    Powers();
    var f := FlagFields(b);
    Split(b[0], 4, 4, 0x10, b[0] / 0x10, b[0] % 0x10);
    LowBits(b[0]);
    HighBits(b[0]);
    Put4(f[0], f[1], f[2], f[3]);
    Put4(f[4], f[5], f[6], f[7]);
    assert f == [f[0], f[1], f[2], f[3]] + [f[4], f[5], f[6], f[7]];
    PutAllConcat([f[0], f[1], f[2], f[3]], [f[4], f[5], f[6], f[7]]);
    FlatCons(b);
  }

  lemma {:induction false} FourBits(x: nat, a: nat, b: nat, c: nat, d: nat)
    requires a < 2 && b < 2 && c < 2 && d < 2 && x == 8 * a + 4 * b + 2 * c + d
    ensures BitsOf(x, 4) == (BitsOf(a, 1) + BitsOf(b, 1)) + (BitsOf(c, 1) + BitsOf(d, 1))
  {
    hide BitsOf, Pow2;
    Powers();
    Split(x, 2, 2, 4, 2 * a + b, 2 * c + d);
    Split(2 * a + b, 1, 1, 2, a, b);
    Split(2 * c + d, 1, 1, 2, c, d);
  }

  lemma {:induction false} LowDigits(x: byte)
    ensures x % 0x10 == 8 * (x / 8 % 2) + 4 * (x / 4 % 2) + 2 * (x / 2 % 2) + x % 2
  {
    assert x / 8 == x / 0x10 * 2 + x / 8 % 2;
    assert x / 4 == x / 8 * 2 + x / 4 % 2;
    assert x / 2 == x / 4 * 2 + x / 2 % 2;
  }

  lemma {:induction false} HighDigits(x: byte)
    ensures x / 0x10 == 8 * (x / 0x80) + 4 * (x / 0x40 % 2) + 2 * (x / 0x20 % 2) + x / 0x10 % 2
  {
    assert x / 0x40 == x / 0x80 * 2 + x / 0x40 % 2;
    assert x / 0x20 == x / 0x40 * 2 + x / 0x20 % 2;
    assert x / 0x10 == x / 0x20 * 2 + x / 0x10 % 2;
  }

  lemma {:induction false} LowBits(x: byte)
    ensures BitsOf(x % 0x10, 4) == (BitsOf(x / 8 % 2, 1) + BitsOf(x / 4 % 2, 1)) + (BitsOf(x / 2 % 2, 1) + BitsOf(x % 2, 1))
  {
    hide BitsOf;
    LowDigits(x);
    FourBits(x % 0x10, x / 8 % 2, x / 4 % 2, x / 2 % 2, x % 2);
  }

  lemma {:induction false} HighBits(x: byte)
    ensures BitsOf(x / 0x10, 4) == (BitsOf(x / 0x80, 1) + BitsOf(x / 0x40 % 2, 1)) + (BitsOf(x / 0x20 % 2, 1) + BitsOf(x / 0x10 % 2, 1))
  {
    hide BitsOf;
    HighDigits(x);
    FourBits(x / 0x10, x / 0x80, x / 0x40 % 2, x / 0x20 % 2, x / 0x10 % 2);
  }

  const EXTENSION_WIDTHS := [1, 1, 1, 5]

  function ExtensionFields(b: bytes): (f: seq<Field>)
    requires |b| >= 1
    ensures |f| == 4
  {
    [Field(b[0] / 0x80, 1), Field(b[0] / 0x40 % 2, 1), Field(b[0] / 0x20 % 2, 1), Field(b[0] % 0x20, 5)]
  }

  lemma {:induction false} ExtensionHeads(b: bytes)
    requires |b| >= 1
    ensures Heads(ExtensionFields(b), b, 1) && WidthsOf(ExtensionFields(b)) == EXTENSION_WIDTHS
  {
    hide Flat, BitsOf, PutAll, Pow2;
    Powers();
    var f := ExtensionFields(b);
    TopThree(b[0]);
    Put4(f[0], f[1], f[2], f[3]);
    assert f == [f[0], f[1], f[2], f[3]];
    FlatCons(b);
  }

  const PCR_WIDTHS := [33, 6, 9]

  function PcrFields(b: bytes): (f: seq<Field>)
    requires |b| >= 6
    ensures |f| == 3
  {
    [Field(U32(b) as int * 2 + b[4] as int / 0x80, 33), Field(b[4] / 2 % 0x40, 6), Field(b[4] as int % 2 * 0x100 + b[5] as int, 9)]
  }

  lemma {:induction false} PcrHeads(b: bytes)
    requires |b| >= 6
    ensures Heads(PcrFields(b), b, 6) && WidthsOf(PcrFields(b)) == PCR_WIDTHS
  {
    hide Flat, BitsOf, PutAll, Pow2, U32;
    Powers();
    LongPowers();
    var f := PcrFields(b);
    WordBits(b);
    Split(f[0].value, 32, 1, 2, U32(b), b[4] / 0x80);
    Split(b[4], 1, 7, 0x80, b[4] / 0x80, b[4] % 0x80);
    Split(b[4] % 0x80, 6, 1, 2, b[4] / 2 % 0x40, b[4] % 2);
    Split(f[2].value, 1, 8, 0x100, b[4] % 2, b[5]);
    Put3(f[0], f[1], f[2]);
    assert f == [f[0], f[1], f[2]];
    FourBytes(b);
    FlatCons(b[4..]);
    FlatCons(b[5..]);
    assert b[4..][1..] == b[5..] && b[5..][1..] == b[6..];
  }

  lemma {:induction false} LongPowers()
    ensures Pow2(24) == 0x100_0000 && Pow2(32) == TWO_32 && Pow2(33) == 2 * TWO_32
  {
    assert Pow2(8) == 0x100;
    Pow2Sum(8, 8);
    Pow2Sum(16, 8);
    Pow2Sum(16, 16);
  }

  lemma {:induction false} WordBits(b: bytes)
    requires |b| >= 4
    ensures BitsOf(U32(b), 32) == BitsOf(b[0], 8) + ((BitsOf(b[1], 8) + BitsOf(b[2], 8)) + BitsOf(b[3], 8))
  {
    hide BitsOf, Pow2;
    Powers();
    var high := b[0] as int * 0x1_0000 + b[1] as int * 0x100 + b[2] as int;
    Split(U32(b), 24, 8, 0x100, high, b[3]);
    Split(high, 16, 8, 0x100, b[0] as int * 0x100 + b[1] as int, b[2]);
    Split(b[0] as int * 0x100 + b[1] as int, 8, 8, 0x100, b[0], b[1]);
  }

  // ---------------------------------------------------------------------------
  // PES headers
  // ---------------------------------------------------------------------------

  const PES_WIDTHS := [24, 8, 16, 2, 2, 1, 1, 1, 1, 2, 1, 1, 1, 1, 1, 1, 8]

  function PesFields(b: bytes): (f: seq<Field>)
    requires |b| >= 9
    ensures |f| == 17
  {
    PesStart(b) + (PesMiddle(b[6]) + (PesFlags(b[7]) + [Field(b[8], 8)]))
  }

  function PesStart(b: bytes): (f: seq<Field>)
    requires |b| >= 6
    ensures |f| == 3
  {
    [Field(U24(b), 24), Field(b[3], 8), Field(b[4] as int * 0x100 + b[5] as int, 16)]
  }

  function PesMiddle(x: byte): (f: seq<Field>)
    ensures |f| == 6
  {
    [Field(x / 0x40, 2), Field(x / 0x10 % 4, 2)] + [Field(x / 8 % 2, 1), Field(x / 4 % 2, 1), Field(x / 2 % 2, 1), Field(x % 2, 1)]
  }

  function PesFlags(x: byte): (f: seq<Field>)
    ensures |f| == 7
  {
    [Field(x / 0x40, 2), Field(x / 0x20 % 2, 1), Field(x / 0x10 % 2, 1)]
    + [Field(x / 8 % 2, 1), Field(x / 4 % 2, 1), Field(x / 2 % 2, 1), Field(x % 2, 1)]
  }

  lemma {:induction false} PesHeads(b: bytes)
    requires |b| >= 9
    ensures Heads(PesFields(b), b, 9) && WidthsOf(PesFields(b)) == PES_WIDTHS
  {
    PesBits(b);
    PesFits(b);
    PesWidths(b);
    hide Flat, PutAll, Fits, PesFields, WidthsOf;
  }

  lemma {:induction false} PesWidths(b: bytes)
    requires |b| >= 9
    ensures WidthsOf(PesFields(b)) == PES_WIDTHS
  {
    hide U24;
  }

  lemma {:induction false} PesFits(b: bytes)
    requires |b| >= 9
    ensures forall i :: 0 <= i < 17 ==> Fits(PesFields(b)[i])
  {
    hide Pow2, U24;
    Powers();
    LongPowers();
    assert forall i :: 0 <= i < 3 ==> Fits(PesStart(b)[i]);
    assert forall i :: 0 <= i < 6 ==> Fits(PesMiddle(b[6])[i]);
    assert forall i :: 0 <= i < 7 ==> Fits(PesFlags(b[7])[i]);
    assert Fits(Field(b[8], 8));
    hide PesStart, PesMiddle, PesFlags, Fits;
    var f := PesFields(b);
    forall i | 0 <= i < 17
      ensures Fits(f[i])
    {
      assert f[i] == if i < 3 then PesStart(b)[i] else if i < 9 then PesMiddle(b[6])[i - 3] else if i < 16 then PesFlags(b[7])[i - 9] else Field(b[8], 8);
    }
  }

  lemma {:induction false} PesBits(b: bytes)
    requires |b| >= 9
    ensures Flat(b) == PutAll(PesFields(b)) + Flat(b[9..])
  {
    hide Flat, BitsOf, PutAll, PesStart, PesMiddle, PesFlags;
    PesStartBits(b);
    PesMiddleBits(b[6]);
    PesFlagsBits(b[7]);
    Put1(Field(b[8], 8));
    PutAllConcat(PesFlags(b[7]), [Field(b[8], 8)]);
    PutAllConcat(PesMiddle(b[6]), PesFlags(b[7]) + [Field(b[8], 8)]);
    PutAllConcat(PesStart(b), PesMiddle(b[6]) + (PesFlags(b[7]) + [Field(b[8], 8)]));
    NineBytes(b);
  }

  lemma {:induction false} PesStartBits(b: bytes)
    requires |b| >= 6
    ensures PutAll(PesStart(b))
            == ((BitsOf(b[0], 8) + BitsOf(b[1], 8)) + BitsOf(b[2], 8)) + (BitsOf(b[3], 8) + (BitsOf(b[4], 8) + BitsOf(b[5], 8)))
  {
    hide BitsOf, Pow2;
    Powers();
    Split(U24(b), 16, 8, 0x100, b[0] as int * 0x100 + b[1] as int, b[2]);
    Split(b[0] as int * 0x100 + b[1] as int, 8, 8, 0x100, b[0], b[1]);
    Split(b[4] as int * 0x100 + b[5] as int, 8, 8, 0x100, b[4], b[5]);
    Put3(Field(U24(b), 24), Field(b[3], 8), Field(b[4] as int * 0x100 + b[5] as int, 16));
  }

  lemma {:induction false} PesMiddleBits(x: byte)
    ensures PutAll(PesMiddle(x)) == BitsOf(x, 8)
  {
    hide BitsOf, PutAll;
    var a, b, c, d, e, f := Field(x / 0x40, 2), Field(x / 0x10 % 4, 2), Field(x / 8 % 2, 1), Field(x / 4 % 2, 1), Field(x / 2 % 2, 1), Field(x % 2, 1);
    Quarters(x);
    LowBits(x);
    Put2(a, b);
    Put4(c, d, e, f);
    PutAllConcat([a, b], [c, d, e, f]);
  }

  lemma {:induction false} PesFlagsBits(x: byte)
    ensures PutAll(PesFlags(x)) == BitsOf(x, 8)
  {
    hide BitsOf, PutAll, Pow2;
    Powers();
    var a, b, b', c, d, e, f :=
      Field(x / 0x40, 2), Field(x / 0x20 % 2, 1), Field(x / 0x10 % 2, 1), Field(x / 8 % 2, 1), Field(x / 4 % 2, 1), Field(x / 2 % 2, 1), Field(x % 2, 1);
    Quarters(x);
    Split(x / 0x10 % 4, 1, 1, 2, x / 0x20 % 2, x / 0x10 % 2);
    LowBits(x);
    Put3(a, b, b');
    Put4(c, d, e, f);
    PutAllConcat([a, b, b'], [c, d, e, f]);
  }

  lemma {:induction false} NineBytes(b: bytes)
    requires |b| >= 9
    ensures Flat(b) ==
      (((BitsOf(b[0], 8) + BitsOf(b[1], 8)) + BitsOf(b[2], 8)) + (BitsOf(b[3], 8) + (BitsOf(b[4], 8) + BitsOf(b[5], 8)))
       + (BitsOf(b[6], 8) + (BitsOf(b[7], 8) + BitsOf(b[8], 8)))) + Flat(b[9..])
  {
    hide Flat, BitsOf;
    FourBytes(b);
    FourBytes(b[4..]);
    FlatCons(b[8..]);
    assert b[4..][4..] == b[8..] && b[8..][1..] == b[9..];
  }

  const STAMP_WIDTHS := [4, 3, 1] + ([15, 1] + [15, 1])

  function StampFields(b: bytes): (f: seq<Field>)
    requires |b| >= 5
    ensures |f| == 7
  {
    [Field(b[0] / 0x10, 4), Field(b[0] / 2 % 8, 3), Field(b[0] % 2, 1)]
    + ([Field(b[1] as int * 0x80 + b[2] as int / 2, 15), Field(b[2] % 2, 1)] + [Field(b[3] as int * 0x80 + b[4] as int / 2, 15), Field(b[4] % 2, 1)])
  }

  lemma {:induction false} StampHeads(b: bytes)
    requires |b| >= 5
    ensures Heads(StampFields(b), b, 5) && WidthsOf(StampFields(b)) == STAMP_WIDTHS
  {
    hide Flat, BitsOf, PutAll, Pow2;
    Powers();
    var f := StampFields(b);
    var a, m, z := f[..3], f[3..5], f[5..];
    Split(b[0], 4, 4, 0x10, b[0] / 0x10, b[0] % 0x10);
    Split(b[0] % 0x10, 3, 1, 2, b[0] / 2 % 8, b[0] % 2);
    Put3(f[0], f[1], f[2]);
    TwoBytes(b[1], b[2]);
    TwoBytes(b[3], b[4]);
    PutAllConcat(m, z);
    PutAllConcat(a, m + z);
    assert f == a + (m + z) && a == [f[0], f[1], f[2]] && m == [f[3], f[4]] && z == [f[5], f[6]];
    FourBytes(b);
    FlatCons(b[4..]);
    assert b[4..][1..] == b[5..];
  }

  lemma {:induction false} TwoBytes(x: byte, y: byte)
    ensures PutAll([Field(x as int * 0x80 + y as int / 2, 15), Field(y % 2, 1)]) == BitsOf(x, 8) + BitsOf(y, 8)
  {
    hide BitsOf, PutAll, Pow2;
    Powers();
    Split(x as int * 0x80 + y as int / 2, 8, 7, 0x80, x, y / 2);
    Split(y, 7, 1, 2, y / 2, y % 2);
    Put2(Field(x as int * 0x80 + y as int / 2, 15), Field(y % 2, 1));
  }

  // ---------------------------------------------------------------------------
  // Program tables
  // ---------------------------------------------------------------------------

  const SECTION_WIDTHS := [8, 1, 3, 12]

  function SectionFields(b: bytes): (f: seq<Field>)
    requires |b| >= 3
    ensures |f| == 4
  {
    [Field(b[0], 8), Field(b[1] / 0x80, 1), Field(b[1] / 0x10 % 8, 3), Field(b[1] as int % 0x10 * 0x100 + b[2] as int, 12)]
  }

  lemma {:induction false} SectionHeads(b: bytes)
    requires |b| >= 3
    ensures Heads(SectionFields(b), b, 3) && WidthsOf(SectionFields(b)) == SECTION_WIDTHS
  {
    hide Flat, BitsOf, PutAll, Pow2;
    Powers();
    var f := SectionFields(b);
    Split(b[1], 1, 7, 0x80, b[1] / 0x80, b[1] % 0x80);
    Split(b[1] % 0x80, 3, 4, 0x10, b[1] / 0x10 % 8, b[1] % 0x10);
    Split(f[3].value, 4, 8, 0x100, b[1] % 0x10, b[2]);
    Put4(f[0], f[1], f[2], f[3]);
    assert f == [f[0], f[1], f[2], f[3]];
    FlatCons(b);
    FlatCons(b[1..]);
    FlatCons(b[2..]);
    assert b[1..][1..] == b[2..] && b[2..][1..] == b[3..];
  }

  /** Number, version and section numbers: the five bytes both tables start with. */
  const TABLE_WIDTHS := [16, 2, 5] + [1, 8, 8]

  function TableFields(b: bytes): (f: seq<Field>)
    requires |b| >= 5
    ensures |f| == 6
  {
    [Field(U16(b), 16), Field(b[2] / 0x40, 2), Field(b[2] / 2 % 0x20, 5)] + [Field(b[2] % 2, 1), Field(b[3], 8), Field(b[4], 8)]
  }

  lemma {:induction false} TableHeads(b: bytes)
    requires |b| >= 5
    ensures Heads(TableFields(b), b, 5) && WidthsOf(TableFields(b)) == TABLE_WIDTHS
  {
    hide Flat, BitsOf, PutAll, Pow2;
    Powers();
    var f := TableFields(b);
    var a, z := f[..3], f[3..];
    Split(U16(b), 8, 8, 0x100, b[0], b[1]);
    Split(b[2], 2, 6, 0x40, b[2] / 0x40, b[2] % 0x40);
    Split(b[2] % 0x40, 5, 1, 2, b[2] / 2 % 0x20, b[2] % 2);
    Put3(f[0], f[1], f[2]);
    Put3(f[3], f[4], f[5]);
    PutAllConcat(a, z);
    assert f == a + z && a == [f[0], f[1], f[2]] && z == [f[3], f[4], f[5]];
    FourBytes(b);
    FlatCons(b[4..]);
    assert b[4..][1..] == b[5..];
  }

  /** Three reserved bits and a PID; four and a length. */
  const PID_WIDTHS := [3, 13]
  const INFO_WIDTHS := [4, 12]

  function PidFields(b: bytes): (f: seq<Field>)
    requires |b| >= 2
    ensures |f| == 2
  {
    [Field(b[0] / 0x20, 3), Field(b[0] as int % 0x20 * 0x100 + b[1] as int, 13)]
  }

  function InfoFields(b: bytes): (f: seq<Field>)
    requires |b| >= 2
    ensures |f| == 2
  {
    [Field(b[0] / 0x10, 4), Field(b[0] as int % 0x10 * 0x100 + b[1] as int, 12)]
  }

  lemma {:induction false} PidHeads(b: bytes)
    requires |b| >= 2
    ensures Heads(PidFields(b), b, 2) && WidthsOf(PidFields(b)) == PID_WIDTHS
  {
    hide Flat, BitsOf, PutAll, Pow2;
    Powers();
    var f := PidFields(b);
    Split(b[0], 3, 5, 0x20, b[0] / 0x20, b[0] % 0x20);
    LowHigh(b[0], b[1]);
    Put2(f[0], f[1]);
    assert f == [f[0], f[1]];
    FlatCons(b);
    FlatCons(b[1..]);
    assert b[1..][1..] == b[2..];
  }

  lemma {:induction false} InfoHeads(b: bytes)
    requires |b| >= 2
    ensures Heads(InfoFields(b), b, 2) && WidthsOf(InfoFields(b)) == INFO_WIDTHS
  {
    hide Flat, BitsOf, PutAll, Pow2;
    Powers();
    var f := InfoFields(b);
    Split(b[0], 4, 4, 0x10, b[0] / 0x10, b[0] % 0x10);
    Split(f[1].value, 4, 8, 0x100, b[0] % 0x10, b[1]);
    Put2(f[0], f[1]);
    assert f == [f[0], f[1]];
    FlatCons(b);
    FlatCons(b[1..]);
    assert b[1..][1..] == b[2..];
  }
}
