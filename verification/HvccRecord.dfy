/** The HEVC decoder configuration record (section 8.3.3.1 of ISO/IEC 14496-15) on bit streams. */
module HvccRecord {
  import opened Arithmetic
  import opened Bytes
  import opened Wrappers
  import opened BitCodes
  import opened BitFields
  import opened BitStreams
  import opened BitWriter

  datatype Nalu = Nalu(length: u16, data: bytes)

  datatype NaluArray = NaluArray(completeness: byte, kind: byte, count: u16, units: seq<Nalu>)

  datatype Record = Record(
    version: byte, profileSpace: byte, tier: byte, profile: byte, compatibility: u32, constraints: u64, level: byte,
    minSpatial: u16, parallelism: byte, chroma: byte, lumaDepth: byte, chromaDepth: byte,
    frameRate: u16, constantRate: byte, layers: byte, nested: byte, lengthSize: byte,
    numOfArrays: byte, arrays: seq<NaluArray>)

  datatype Error = LackOfParameterSets | Truncated | NaluCount

  // ---------------------------------------------------------------------------
  // Encoding
  // ---------------------------------------------------------------------------

  /** Without a spatial segmentation restriction the parallelism type says nothing and is cleared. */
  function Settled(r: Record): Record {
    if r.minSpatial == 0 then r.(parallelism := 0) else r
  }

  /** The fixed part in three stretches, reserved bits included. */
  function ProfileFields(r: Record): (f: seq<Field>)
    ensures |f| == 7
  {
    [Field(r.version, 8), Field(r.profileSpace, 2), Field(r.tier, 1), Field(r.profile, 5),
     Field(r.compatibility, 32), Field(r.constraints, 48), Field(r.level, 8)]
  }

  function FormatFields(r: Record): (f: seq<Field>)
    ensures |f| == 10
  {
    [Field(0x0F, 4), Field(r.minSpatial, 12), Field(0x3F, 6), Field(r.parallelism, 2), Field(0x3F, 6), Field(r.chroma, 2),
     Field(0x1F, 5), Field(r.lumaDepth, 3), Field(0x1F, 5), Field(r.chromaDepth, 3)]
  }

  function RateFields(r: Record): (f: seq<Field>)
    ensures |f| == 6
  {
    [Field(r.frameRate, 16), Field(r.constantRate, 2), Field(r.layers, 3), Field(r.nested, 1), Field(r.lengthSize, 2),
     Field(|r.arrays| % 0x100, 8)]
  }

  const PROFILE_WIDTHS: seq<nat> := [8, 2, 1, 5, 32, 48, 8]
  const FORMAT_WIDTHS: seq<nat> := [4, 12, 6, 2, 6, 2, 5, 3, 5, 3]
  const RATE_WIDTHS: seq<nat> := [16, 2, 3, 1, 2, 8]

  function ArrayFields(a: NaluArray): seq<Field> {
    [Field(a.completeness, 1), Field(0, 1), Field(a.kind, 6), Field(|a.units| % 0x1_0000, 16)]
  }

  const ARRAY_WIDTHS: seq<nat> := [1, 1, 6, 16]

  function UnitsBits(units: seq<Nalu>): BitCodes.bits {
    if units == [] then [] else BitsOf(units[0].length, 16) + Flat(units[0].data) + UnitsBits(units[1..])
  }

  function ArraysBits(arrays: seq<NaluArray>): BitCodes.bits {
    if arrays == [] then [] else PutAll(ArrayFields(arrays[0])) + UnitsBits(arrays[0].units) + ArraysBits(arrays[1..])
  }

  function RecordBits(r: Record): BitCodes.bits {
    PutAll(ProfileFields(r)) + (PutAll(FormatFields(r)) + (PutAll(RateFields(r)) + ArraysBits(r.arrays)))
  }

  // ---------------------------------------------------------------------------
  // Decoding
  // ---------------------------------------------------------------------------

  function RecordFrom(p: seq<nat>, f: seq<nat>, v: seq<nat>, arrays: seq<NaluArray>): Record
    requires |p| == 7 && |f| == 10 && |v| == 6
  {
    Record(p[0] % 0x100, p[1] % 0x100, p[2] % 0x100, p[3] % 0x100, p[4] % TWO_32, p[5] % TWO_64, p[6] % 0x100,
           f[1] % 0x1_0000, f[3] % 0x100, f[5] % 0x100, f[7] % 0x100, f[9] % 0x100,
           v[0] % 0x1_0000, v[1] % 0x100, v[2] % 0x100, v[3] % 0x100, v[4] % 0x100, v[5] % 0x100, arrays)
  }

  function ReadUnits(r: Reader, n: nat): Result<(seq<Nalu>, Reader), Error>
    decreases n
  {
    if n == 0 then Ok(([], r))
    else
      var length := Get(r, 16);
      var data := GetBytes(length.1, length.0);
      if data.1.failed then Err(Truncated)
      else
        var more := ReadUnits(data.1, n - 1);
        if more.Err? then more else Ok(([Nalu(length.0 % 0x1_0000, data.0)] + more.value.0, more.value.1))
  }

  /** The head of an array, once its count can fit what is left. */
  function ReadArrayHead(r: Reader): (x: Result<(seq<nat>, Reader), Error>)
    ensures x.Ok? ==> |x.value.0| == 4
  {
    var head := GetAll(r, ARRAY_WIDTHS);
    GetAllLength(r, ARRAY_WIDTHS);
    if head.1.failed then Err(Truncated)
    else if head.0[3] % 0x1_0000 * 2 > |head.1.rest| / 8 then Err(NaluCount)
    else Ok(head)
  }

  function ReadArray(r: Reader): Result<(NaluArray, Reader), Error> {
    var head := ReadArrayHead(r);
    if head.Err? then Err(head.error)
    else
      var count := head.value.0[3] % 0x1_0000;
      var units := ReadUnits(head.value.1, count);
      if units.Err? then Err(units.error)
      else Ok((NaluArray(head.value.0[0] % 0x100, head.value.0[2] % 0x100, count, units.value.0), units.value.1))
  }

  function ReadArrays(r: Reader, n: nat): Result<(seq<NaluArray>, Reader), Error>
    decreases n
  {
    if n == 0 then Ok(([], r))
    else
      var one := ReadArray(r);
      if one.Err? then Err(one.error)
      else
        var more := ReadArrays(one.value.1, n - 1);
        if more.Err? then more else Ok(([one.value.0] + more.value.0, more.value.1))
  }

  function Decode(b: bytes): Result<Record, Error> {
    var p := GetAll(Reader(Flat(b), false), PROFILE_WIDTHS);
    var f := GetAll(p.1, FORMAT_WIDTHS);
    var v := GetAll(f.1, RATE_WIDTHS);
    GetAllLength(Reader(Flat(b), false), PROFILE_WIDTHS);
    GetAllLength(p.1, FORMAT_WIDTHS);
    GetAllLength(f.1, RATE_WIDTHS);
    if v.1.failed then Err(Truncated)
    else
      var arrays := ReadArrays(v.1, v.0[5] % 0x100);
      if arrays.Err? then Err(arrays.error) else Ok(RecordFrom(p.0, f.0, v.0, arrays.value.0))
  }

  // ---------------------------------------------------------------------------
  // Round trip
  // ---------------------------------------------------------------------------

  predicate UnitFits(u: Nalu) {
    u.length == |u.data|
  }

  predicate ArrayFits(a: NaluArray) {
    a.completeness < 2 && a.kind < 0x40 && a.count == |a.units| && forall i :: 0 <= i < |a.units| ==> UnitFits(a.units[i])
  }

  /** Every field within its width and every count and length what it counts. */
  predicate Fits(r: Record) {
    && r.profileSpace < 4 && r.tier < 2 && r.profile < 0x20 && r.constraints < 0x1_0000_0000_0000
    && r.minSpatial < 0x1000 && r.parallelism < 4 && r.chroma < 4 && r.lumaDepth < 8 && r.chromaDepth < 8
    && r.constantRate < 4 && r.layers < 8 && r.nested < 2 && r.lengthSize < 4
    && r.numOfArrays == |r.arrays| && forall i :: 0 <= i < |r.arrays| ==> ArrayFits(r.arrays[i])
  }

  lemma {:induction false} BytesRoundTrip(data: bytes, rest: BitCodes.bits)
    requires |rest| % 8 == 0
    ensures GetBytes(Reader(Flat(data) + rest, false), |data|) == (data, Reader(rest, false))
  {
    var s := Flat(data) + rest;
    assert s[..8 * |data|] == Flat(data) && s[8 * |data|..] == rest;
    FlatInjective(ToBytes(s[..8 * |data|]), data);
  }

  predicate Whole(s: BitCodes.bits) {
    |s| % 8 == 0
  }

  lemma {:induction false} WholeConcat(a: BitCodes.bits, b: BitCodes.bits)
    requires Whole(a) && Whole(b)
    ensures Whole(a + b)
  {
  }

  lemma {:induction false} UnitsWhole(units: seq<Nalu>)
    ensures Whole(UnitsBits(units))
  {
    hide Flat, BitsOf;
    if units != [] {
      UnitsWhole(units[1..]);
      WholeConcat(BitsOf(units[0].length, 16), Flat(units[0].data));
      WholeConcat(BitsOf(units[0].length, 16) + Flat(units[0].data), UnitsBits(units[1..]));
    }
  }

  lemma {:induction false} PutAllLength(fields: seq<Field>, widths: seq<nat>)
    requires WidthsOf(fields) == widths
    ensures |PutAll(fields)| == SumOf(widths)
  {
    if fields != [] {
      assert WidthsOf(fields)[1..] == WidthsOf(fields[1..]);
      PutAllLength(fields[1..], widths[1..]);
    }
  }

  function SumOf(w: seq<nat>): nat {
    if w == [] then 0 else w[0] + SumOf(w[1..])
  }

  lemma {:induction false} SumPair(a: nat, b: nat, w: seq<nat>)
    ensures SumOf([a, b] + w) == a + b + SumOf(w)
  {
    var s := [a, b] + w;
    assert s[1..] == [b] + w && s[1..][1..] == w;
  }

  lemma {:induction false} SumFour(a: nat, b: nat, c: nat, d: nat, w: seq<nat>)
    ensures SumOf([a, b, c, d] + w) == a + b + c + d + SumOf(w)
  {
    SumPair(a, b, [c, d] + w);
    SumPair(c, d, w);
    assert [a, b, c, d] + w == [a, b] + ([c, d] + w);
  }

  lemma {:induction false} ArrayHead(a: NaluArray)
    ensures WidthsOf(ArrayFields(a)) == ARRAY_WIDTHS && |PutAll(ArrayFields(a))| == 24
  {
    PutAllLength(ArrayFields(a), ARRAY_WIDTHS);
    SumFour(1, 1, 6, 16, []);
    assert ARRAY_WIDTHS == [1, 1, 6, 16] + [];
  }

  lemma {:induction false} ProfileShape(r: Record)
    ensures WidthsOf(ProfileFields(r)) == PROFILE_WIDTHS && Whole(PutAll(ProfileFields(r)))
    ensures forall i :: 0 <= i < 7 ==> Writable(ProfileFields(r)[i])
  {
    hide PutAll;
    PutAllLength(ProfileFields(r), PROFILE_WIDTHS);
    assert PROFILE_WIDTHS == [8, 2, 1, 5] + ([32, 48] + [8]);
    SumFour(8, 2, 1, 5, [32, 48] + [8]);
    SumPair(32, 48, [8]);
    assert SumOf([8]) == 8 by { assert [8][1..] == []; }
  }

  lemma {:induction false} FormatShape(r: Record)
    ensures WidthsOf(FormatFields(r)) == FORMAT_WIDTHS && Whole(PutAll(FormatFields(r)))
    ensures forall i :: 0 <= i < 10 ==> Writable(FormatFields(r)[i])
  {
    hide PutAll, SumOf;
    PutAllLength(FormatFields(r), FORMAT_WIDTHS);
    FormatSum();
  }

  lemma {:induction false} FormatSum()
    ensures SumOf(FORMAT_WIDTHS) == 48
  {
    hide SumOf;
    assert FORMAT_WIDTHS == [4, 12, 6, 2] + ([6, 2, 5, 3] + ([5, 3] + []));
    SumFour(4, 12, 6, 2, [6, 2, 5, 3] + ([5, 3] + []));
    SumFour(6, 2, 5, 3, [5, 3] + []);
    SumPair(5, 3, []);
    SumNone();
  }

  lemma {:induction false} SumNone()
    ensures SumOf([]) == 0
  {
  }

  lemma {:induction false} RateShape(r: Record)
    ensures WidthsOf(RateFields(r)) == RATE_WIDTHS && Whole(PutAll(RateFields(r)))
    ensures forall i :: 0 <= i < 6 ==> Writable(RateFields(r)[i])
  {
    hide PutAll;
    PutAllLength(RateFields(r), RATE_WIDTHS);
    assert RATE_WIDTHS == [16, 2, 3, 1] + ([2, 8] + []);
    SumFour(16, 2, 3, 1, [2, 8] + []);
    SumPair(2, 8, []);
  }

  lemma {:induction false} ArraysWhole(arrays: seq<NaluArray>)
    ensures Whole(ArraysBits(arrays))
  {
    hide PutAll, UnitsBits;
    if arrays != [] {
      var a := arrays[0];
      ArrayHead(a);
      UnitsWhole(a.units);
      ArraysWhole(arrays[1..]);
      assert Whole(PutAll(ArrayFields(a)));
      WholeConcat(PutAll(ArrayFields(a)), UnitsBits(a.units));
      WholeConcat(PutAll(ArrayFields(a)) + UnitsBits(a.units), ArraysBits(arrays[1..]));
    }
  }

  lemma {:induction false} UnitsRoundTrip(units: seq<Nalu>, rest: BitCodes.bits)
    requires (forall i :: 0 <= i < |units| ==> UnitFits(units[i])) && Whole(rest)
    ensures ReadUnits(Reader(UnitsBits(units) + rest, false), |units|) == Ok((units, Reader(rest, false)))
    decreases |units|
  {
    hide Get, GetBytes, Flat, BitsOf, Whole;
    if units == [] {
      assert UnitsBits(units) + rest == rest;
    } else {
      var u, more := units[0], UnitsBits(units[1..]) + rest;
      assert UnitFits(u);
      assert UnitsBits(units) + rest == BitsOf(u.length, 16) + (Flat(u.data) + more);
      UnitsWhole(units[1..]);
      WholeConcat(UnitsBits(units[1..]), rest);
      UnitHead(u, more);
      UnitsRoundTrip(units[1..], rest);
      assert units == [u] + units[1..];
    }
  }

  lemma {:induction false} UnitHead(u: Nalu, more: BitCodes.bits)
    requires UnitFits(u) && Whole(more)
    ensures var length := Get(Reader(BitsOf(u.length, 16) + (Flat(u.data) + more), false), 16);
      length.0 == u.length && GetBytes(length.1, length.0) == (u.data, Reader(more, false))
  {
    hide Get, GetBytes, Flat, BitsOf;
    GetPut(u.length, 16, Flat(u.data) + more);
    SmallPowers();
    BytesRoundTrip(u.data, more);
  }

  lemma {:induction false} SmallPowers()
    ensures Pow2(1) == 2 && Pow2(2) == 4 && Pow2(3) == 8 && Pow2(4) == 16 && Pow2(5) == 32 && Pow2(6) == 64 && Pow2(8) == 256
    ensures Pow2(12) == 0x1000 && Pow2(16) == 0x1_0000 && Pow2(32) == TWO_32 && Pow2(48) == 0x1_0000_0000_0000
  {
    assert Pow2(8) == 256;
    Pow2Sum(8, 4);
    Pow2Sum(8, 8);
    Pow2Sum(16, 16);
    Pow2Sum(32, 16);
  }

  lemma {:induction false} UnitsLength(units: seq<Nalu>)
    ensures |UnitsBits(units)| >= 16 * |units|
  {
    if units != [] {
      UnitsLength(units[1..]);
    }
  }

  lemma {:induction false} ArrayHeadRoundTrip(a: NaluArray, rest: BitCodes.bits)
    requires ArrayFits(a)
    ensures GetAll(Reader(PutAll(ArrayFields(a)) + rest, false), ARRAY_WIDTHS)
            == ([a.completeness, 0, a.kind, |a.units|], Reader(rest, false))
  {
    hide GetAll, PutAll, Pow2;
    var fields := ArrayFields(a);
    ArrayHead(a);
    FieldsRoundTrip(fields, rest);
    SmallPowers();
    Small(a.completeness, 1);
    Small(0, 1);
    Small(a.kind, 6);
    Small(|a.units|, 16);
    assert ValuesOf(fields) == [a.completeness, 0, a.kind, |a.units|];
  }

  lemma {:induction false} ArrayRoundTrip(a: NaluArray, more: BitCodes.bits)
    requires ArrayFits(a) && Whole(more)
    ensures ReadArray(Reader(PutAll(ArrayFields(a)) + (UnitsBits(a.units) + more), false)) == Ok((a, Reader(more, false)))
  {
    hide GetAll, PutAll, ReadUnits, UnitsBits, ArrayFields;
    ArrayHeadRoundTrip(a, UnitsBits(a.units) + more);
    UnitsLength(a.units);
    UnitsRoundTrip(a.units, more);
  }

  lemma {:induction false} ArraysRoundTrip(arrays: seq<NaluArray>, rest: BitCodes.bits)
    requires (forall i :: 0 <= i < |arrays| ==> ArrayFits(arrays[i])) && Whole(rest)
    ensures ReadArrays(Reader(ArraysBits(arrays) + rest, false), |arrays|) == Ok((arrays, Reader(rest, false)))
    decreases |arrays|
  {
    hide ReadArray, PutAll, UnitsBits, Whole, ArrayFits;
    if arrays == [] {
      assert ArraysBits(arrays) + rest == rest;
    } else {
      var a, more := arrays[0], ArraysBits(arrays[1..]) + rest;
      assert ArrayFits(a);
      ArraysWhole(arrays[1..]);
      WholeConcat(ArraysBits(arrays[1..]), rest);
      assert ArraysBits(arrays) + rest == PutAll(ArrayFields(a)) + (UnitsBits(a.units) + more);
      ArrayRoundTrip(a, more);
      ArraysRoundTrip(arrays[1..], rest);
      assert arrays == [a] + arrays[1..];
    }
  }

  lemma {:induction false} Small(v: nat, n: nat)
    requires v < Pow2(n)
    ensures v % Pow2(n) == v
  {
    hide Pow2;
    ModUnique(v, Pow2(n), 0, v);
  }

  lemma {:induction false} ProfileValues(r: Record)
    requires Fits(r)
    ensures ValuesOf(ProfileFields(r)) == [r.version, r.profileSpace, r.tier, r.profile, r.compatibility, r.constraints, r.level]
  {
    hide Pow2;
    SmallPowers();
    Small(r.version, 8);
    Small(r.profileSpace, 2);
    Small(r.tier, 1);
    Small(r.profile, 5);
    Small(r.compatibility, 32);
    Small(r.constraints, 48);
    Small(r.level, 8);
  }

  lemma {:induction false} FormatValues(r: Record)
    requires Fits(r)
    ensures var v := ValuesOf(FormatFields(r));
      v[1] == r.minSpatial && v[3] == r.parallelism && v[5] == r.chroma && v[7] == r.lumaDepth && v[9] == r.chromaDepth
  {
    hide Pow2;
    SmallPowers();
    Small(r.minSpatial, 12);
    Small(r.parallelism, 2);
    Small(r.chroma, 2);
    Small(r.lumaDepth, 3);
    Small(r.chromaDepth, 3);
  }

  lemma {:induction false} RateValues(r: Record)
    requires Fits(r)
    ensures ValuesOf(RateFields(r)) == [r.frameRate, r.constantRate, r.layers, r.nested, r.lengthSize, r.numOfArrays]
  {
    hide Pow2;
    SmallPowers();
    Small(r.frameRate, 16);
    Small(r.constantRate, 2);
    Small(r.layers, 3);
    Small(r.nested, 1);
    Small(r.lengthSize, 2);
    Small(r.numOfArrays, 8);
  }

  lemma {:induction false} FromValues(r: Record)
    requires Fits(r)
    ensures RecordFrom(ValuesOf(ProfileFields(r)), ValuesOf(FormatFields(r)), ValuesOf(RateFields(r)), r.arrays) == r
  {
    hide ValuesOf;
    ProfileValues(r);
    FormatValues(r);
    RateValues(r);
  }

  /** The fields before the arrays, as they are read. */
  function FixedOf(r: Reader): (seq<nat>, seq<nat>, seq<nat>, Reader) {
    var p := GetAll(r, PROFILE_WIDTHS);
    var f := GetAll(p.1, FORMAT_WIDTHS);
    var v := GetAll(f.1, RATE_WIDTHS);
    (p.0, f.0, v.0, v.1)
  }

  lemma {:induction false} DecodeIs(b: bytes)
    ensures var x := FixedOf(Reader(Flat(b), false));
      && |x.0| == 7 && |x.1| == 10 && |x.2| == 6
      && Decode(b) ==
        if x.3.failed then Err(Truncated)
        else
          var arrays := ReadArrays(x.3, x.2[5] % 0x100);
          if arrays.Err? then Err(arrays.error) else Ok(RecordFrom(x.0, x.1, x.2, arrays.value.0))
  {
    hide Flat, GetAll, RecordFrom, ReadArrays;
    var r := Reader(Flat(b), false);
    var p := GetAll(r, PROFILE_WIDTHS);
    var f := GetAll(p.1, FORMAT_WIDTHS);
    GetAllLength(r, PROFILE_WIDTHS);
    GetAllLength(p.1, FORMAT_WIDTHS);
    GetAllLength(f.1, RATE_WIDTHS);
  }

  lemma {:induction false} FixedRoundTrip(r: Record, arrays: BitCodes.bits)
    ensures FixedOf(Reader(PutAll(ProfileFields(r)) + (PutAll(FormatFields(r)) + (PutAll(RateFields(r)) + arrays)), false))
      == (ValuesOf(ProfileFields(r)), ValuesOf(FormatFields(r)), ValuesOf(RateFields(r)), Reader(arrays, false))
  {
    hide GetAll, PutAll, ProfileFields, FormatFields, RateFields, ValuesOf;
    ProfileShape(r);
    FormatShape(r);
    RateShape(r);
    FieldsRoundTrip(ProfileFields(r), PutAll(FormatFields(r)) + (PutAll(RateFields(r)) + arrays));
    FieldsRoundTrip(FormatFields(r), PutAll(RateFields(r)) + arrays);
    FieldsRoundTrip(RateFields(r), arrays);
  }

  lemma {:induction false} BitsRoundTrip(r: Record, b: bytes)
    requires Fits(r) && Flat(b) == RecordBits(r)
    ensures Decode(b) == Ok(r)
  {
    hide PutAll, ReadArrays, ProfileFields, FormatFields, RateFields, RecordFrom, ValuesOf, Decode, FixedOf, Fits, ArraysBits, Flat, RecordBits;
    FixedRoundTrip(r, ArraysBits(r.arrays));
    RecordBitsIs(r);
    DecodeIs(b);
    FromValues(r);
    RateValues(r);
    ArraysRead(r);
  }

  lemma {:induction false} RecordBitsIs(r: Record)
    ensures RecordBits(r) == PutAll(ProfileFields(r)) + (PutAll(FormatFields(r)) + (PutAll(RateFields(r)) + ArraysBits(r.arrays)))
  {
  }

  lemma {:induction false} ArraysRead(r: Record)
    requires Fits(r)
    ensures r.numOfArrays % 0x100 == |r.arrays|
    ensures ReadArrays(Reader(ArraysBits(r.arrays), false), |r.arrays|) == Ok((r.arrays, Reader([], false)))
  {
    hide ReadArrays, ArraysBits;
    ArraysRoundTrip(r.arrays, []);
    assert ArraysBits(r.arrays) + [] == ArraysBits(r.arrays);
  }

  function Encode(r: Record): Result<bytes, Error> {
    if |r.arrays| < 3 then Err(LackOfParameterSets)
    else
      RecordWhole(Settled(r));
      Ok(ToBytes(RecordBits(Settled(r))))
  }

  lemma {:induction false} RecordWhole(r: Record)
    ensures |RecordBits(r)| % 8 == 0
  {
    hide PutAll, ArraysBits;
    ProfileShape(r);
    FormatShape(r);
    RateShape(r);
    ArraysWhole(r.arrays);
    WholeConcat(PutAll(RateFields(r)), ArraysBits(r.arrays));
    WholeConcat(PutAll(FormatFields(r)), PutAll(RateFields(r)) + ArraysBits(r.arrays));
    WholeConcat(PutAll(ProfileFields(r)), PutAll(FormatFields(r)) + (PutAll(RateFields(r)) + ArraysBits(r.arrays)));
  }

  /** Encoding and decoding gives the record back, except that a parallelism type that means nothing is cleared. */
  lemma {:induction false} RecordRoundTrip(r: Record)
    requires Fits(r) && |r.arrays| >= 3
    ensures Encode(r).Ok? && Decode(Encode(r).value) == Ok(Settled(r))
  {
    hide ToBytes, Decode;
    RecordWhole(Settled(r));
    BitsRoundTrip(Settled(r), Encode(r).value);
  }

  lemma {:induction false} UnitsReadFit(r: Reader, n: nat)
    ensures var u := ReadUnits(r, n);
      u.Ok? ==> |u.value.0| == n && forall i :: 0 <= i < n ==> UnitFits(u.value.0[i])
    decreases n
  {
    hide Get, ToBytes, UnitFits;
    if n > 0 && ReadUnits(r, n).Ok? {
      var length := Get(r, 16);
      var data := GetBytes(length.1, length.0);
      UnitReadFits(r);
      UnitsReadFit(data.1, n - 1);
    }
  }

  lemma {:induction false} UnitReadFits(r: Reader)
    ensures var length := Get(r, 16); var data := GetBytes(length.1, length.0);
      !data.1.failed ==> UnitFits(Nalu(length.0 % 0x1_0000, data.0))
  {
    hide Get, Pow2;
    GetBound(r, 16);
    SmallPowers();
  }

  lemma {:induction false} ArrayReadFits(r: Reader)
    ensures var a := ReadArray(r); a.Ok? ==> ArrayFits(a.value.0)
  {
    hide GetAll, ReadUnits, Pow2, UnitFits;
    GetAllBound(r, ARRAY_WIDTHS);
    SmallPowers();
    var head := ReadArrayHead(r);
    if head.Ok? {
      UnitsReadFit(head.value.1, head.value.0[3] % 0x1_0000);
    }
  }

  lemma {:induction false} ArraysReadFit(r: Reader, n: nat)
    ensures var a := ReadArrays(r, n);
      a.Ok? ==> |a.value.0| == n && forall i :: 0 <= i < n ==> ArrayFits(a.value.0[i])
    decreases n
  {
    hide ReadArray, ArrayFits;
    if n > 0 && ReadArrays(r, n).Ok? {
      ArrayReadFits(r);
      ArraysReadFit(ReadArray(r).value.1, n - 1);
    }
  }

  lemma {:induction false} FixedBound(r: Reader)
    ensures var x := FixedOf(r);
      && |x.0| == 7 && |x.1| == 10 && |x.2| == 6
      && x.0[1] < 4 && x.0[2] < 2 && x.0[3] < 0x20 && x.0[5] < 0x1_0000_0000_0000
      && x.1[1] < 0x1000 && x.1[3] < 4 && x.1[5] < 4 && x.1[7] < 8 && x.1[9] < 8
      && x.2[1] < 4 && x.2[2] < 8 && x.2[3] < 2 && x.2[4] < 4
  {
    hide GetAll, Pow2;
    SmallPowers();
    var p := GetAll(r, PROFILE_WIDTHS);
    var f := GetAll(p.1, FORMAT_WIDTHS);
    GetAllBound(r, PROFILE_WIDTHS);
    GetAllBound(p.1, FORMAT_WIDTHS);
    GetAllBound(f.1, RATE_WIDTHS);
  }

  /** Whatever bytes a record is read from, its fields are within their widths and its counts count. */
  lemma {:induction false} DecodedFits(b: bytes)
    ensures var d := Decode(b); d.Ok? ==> Fits(d.value)
  {
    hide Decode, FixedOf, ReadArrays, ArrayFits, Flat;
    var x := FixedOf(Reader(Flat(b), false));
    DecodeIs(b);
    FixedBound(Reader(Flat(b), false));
    if Decode(b).Ok? {
      ArraysReadFit(x.3, x.2[5] % 0x100);
    }
  }

  /** Any record at all: it comes back exactly when it fits and its parallelism type means something or is clear. */
  lemma {:induction false} RoundTripIff(r: Record)
    ensures Encode(r).Ok? <==> |r.arrays| >= 3
    ensures Encode(r).Ok? && Decode(Encode(r).value) == Ok(r)
      <==> |r.arrays| >= 3 && Fits(r) && (r.minSpatial != 0 || r.parallelism == 0)
  {
    hide Decode, Fits, RecordBits;
    if |r.arrays| >= 3 {
      DecodedFits(Encode(r).value);
      if Fits(r) {
        RecordRoundTrip(r);
      }
    }
  }

  /** What a new configuration holds: two of its fields are wider than the record gives them. */
  const NEW_RECORD := Record(1, 0, 0, 0, 0xFFFF_FFFF, 0xFFFF_FFFF_FFFF_FFFF, 0, 4097, 0, 0, 0, 0, 0, 0, 0, 0, 3, 0, [])

  /** Left as they are, it does not come back, whatever parameter sets are added to it. */
  lemma {:induction false} NewRecordLost(r: Record)
    requires r.constraints == NEW_RECORD.constraints || r.minSpatial == NEW_RECORD.minSpatial
    requires Encode(r).Ok?
    ensures Decode(Encode(r).value) != Ok(r)
  {
    hide Decode, Encode;
    RoundTripIff(r);
  }
}
