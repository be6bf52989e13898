/** Writing the HEVC configuration record with a bit writer and reading it with a bit reader. */
module HvccObjects {
  import opened Bytes
  import opened Wrappers
  import opened BitCodes
  import opened BitFields
  import opened BitStreams
  import opened BitWriter
  import opened HvccRecord

  class HevcRecord {
    var r: Record

    constructor (r: Record)
      ensures this.r == r
    {
      this.r := r;
    }

    /** Unit data is copied bytewise: the writer is on a byte boundary every time. */
    method PutUnits(w: BitStreamWriter, units: seq<Nalu>)
      requires w.Valid() && !w.err && w.bitOffset == 0
      modifies w
      ensures w.Valid() && !w.err && w.bitOffset == 0 && w.Contents() == old(w.Contents()) + UnitsBits(units)
    {
      hide Flat, BitsOf, UnitsBits;
      ghost var was, all := w.Contents(), UnitsBits(units);
      UnitsNone();
      assert units[0..] == units;
      for i := 0 to |units|
        invariant w.Valid() && !w.err && w.bitOffset == 0
        invariant w.Contents() + UnitsBits(units[i..]) == was + all
      {
        UnitsStep(units[i..], w.Contents());
        assert units[i..][1..] == units[i + 1..];
        w.PutUint64(units[i].length, 16);
        OnBoundary(w);
        w.PutBytes(units[i].data);
        OnBoundary(w);
      }
      assert w.Contents() + [] == w.Contents();
    }

    method PutArrays(w: BitStreamWriter, arrays: seq<NaluArray>)
      requires w.Valid() && !w.err && w.bitOffset == 0
      modifies w
      ensures w.Valid() && !w.err && w.bitOffset == 0 && w.Contents() == old(w.Contents()) + ArraysBits(arrays)
    {
      hide Flat, BitsOf, UnitsBits, ArraysBits, PutAll;
      ghost var was, all := w.Contents(), ArraysBits(arrays);
      ArraysNone();
      assert arrays[0..] == arrays;
      for i := 0 to |arrays|
        invariant w.Valid() && !w.err && w.bitOffset == 0
        invariant w.Contents() + ArraysBits(arrays[i..]) == was + all
      {
        ArraysStep(arrays[i..], w.Contents());
        assert arrays[i..][1..] == arrays[i + 1..];
        ArrayHead(arrays[i]);
        PutFields(w, ArrayFields(arrays[i]));
        OnBoundary(w);
        PutUnits(w, arrays[i].units);
      }
      assert w.Contents() + [] == w.Contents();
    }

    /** Encodes the record; a parallelism type that means nothing is cleared in it as well. */
    method Encode() returns (b: Result<bytes, Error>)
      modifies this
      ensures b == HvccRecord.Encode(old(r))
      ensures r == if b.Ok? then Settled(old(r)) else old(r)
    {
      hide Flat, ArraysBits, PutAll, ProfileFields, FormatFields, RateFields, ToBytes;
      if |r.arrays| < 3 {
        return Err(LackOfParameterSets);
      }
      if r.minSpatial == 0 {
        r := r.(parallelism := 0);
      }
      var w := new BitStreamWriter(512);
      PutHeader(w);
      PutArrays(w, r.arrays);
      HeaderFirst(r);
      RecordWhole(r);
      var out := w.Bits();
      assert RecordBits(r) + [] == RecordBits(r);
      FlatInjective(ToBytes(RecordBits(r)), out);
      return Ok(out);
    }

    method PutHeader(w: BitStreamWriter)
      requires w.Valid() && !w.err && w.Contents() == []
      modifies w
      ensures w.Valid() && !w.err && w.bitOffset == 0
      ensures w.Contents() == PutAll(ProfileFields(r)) + PutAll(FormatFields(r)) + PutAll(RateFields(r))
    {
      hide Flat, PutAll, ProfileFields, FormatFields, RateFields;
      ProfileShape(r);
      FormatShape(r);
      RateShape(r);
      PutFields(w, ProfileFields(r));
      PutFields(w, FormatFields(r));
      PutFields(w, RateFields(r));
      assert [] + PutAll(ProfileFields(r)) == PutAll(ProfileFields(r));
      WholeConcat(PutAll(ProfileFields(r)), PutAll(FormatFields(r)));
      WholeConcat(PutAll(ProfileFields(r)) + PutAll(FormatFields(r)), PutAll(RateFields(r)));
      OnBoundary(w);
    }

    method ReadUnits(s: BitStream, n: nat) returns (units: Result<seq<Nalu>, Error>)
      requires s.Valid()
      modifies s
      ensures s.Valid()
      ensures var u := HvccRecord.ReadUnits(old(s.S()), n);
        if u.Err? then units == Err(u.error) else units == Ok(u.value.0) && s.S() == u.value.1
    {
      hide Flat, Get, GetBytes, HvccRecord.ReadUnits;
      var got: seq<Nalu> := [];
      ghost var all := HvccRecord.ReadUnits(s.S(), n);
      AfterUnitsNone(all);
      for j := 0 to n
        invariant s.Valid() && all == AfterUnits(got, HvccRecord.ReadUnits(s.S(), n - j))
      {
        ReadUnitsStep(s.S(), n - j, got);
        var length := s.GetBits(16);
        var data := s.TakeBytes(length);
        if s.err {
          return Err(Truncated);
        }
        got := got + [Nalu(length % 0x1_0000, data)];
      }
      ReadUnitsStep(s.S(), 0, got);
      return Ok(got);
    }

    method ReadArray(s: BitStream) returns (a: Result<NaluArray, Error>)
      requires s.Valid()
      modifies s
      ensures s.Valid()
      ensures var u := HvccRecord.ReadArray(old(s.S()));
        if u.Err? then a == Err(u.error) else a == Ok(u.value.0) && s.S() == u.value.1
    {
      hide Flat, GetAll, HvccRecord.ReadUnits;
      GetAllLength(s.S(), ARRAY_WIDTHS);
      var head := ReadFields(s, ARRAY_WIDTHS);
      if s.err {
        return Err(Truncated);
      }
      var count := head[3] % 0x1_0000;
      RestBytes(s);
      if count * 2 > s.RemainBytes() {
        return Err(NaluCount);
      }
      var units := ReadUnits(s, count);
      if units.Err? {
        return Err(units.error);
      }
      return Ok(NaluArray(head[0] % 0x100, head[2] % 0x100, count, units.value));
    }

    /** Decodes a record: on an error the fixed fields may have changed, the arrays have not. */
    method Decode(b: bytes) returns (err: Option<Error>)
      modifies this
      ensures var d := HvccRecord.Decode(b);
        if d.Ok? then err == None && r == d.value else err == Some(d.error) && r.arrays == old(r.arrays)
    {
      hide Flat, GetAll, HvccRecord.Decode, RecordFrom, HvccRecord.ReadArrays, FixedOf;
      var s := new BitStream(b);
      DecodeIs(b);
      var p, f, v := ReadFixed(s);
      FromArrays(p, f, v, r.arrays);
      r := RecordFrom(p, f, v, r.arrays);
      if s.err {
        return Some(Truncated);
      }
      var arrays := ReadAllArrays(s, v[5] % 0x100);
      if arrays.Err? {
        return Some(arrays.error);
      }
      r := RecordFrom(p, f, v, arrays.value);
      return None;
    }

    /** The fields before the arrays. */
    method ReadFixed(s: BitStream) returns (p: seq<nat>, f: seq<nat>, v: seq<nat>)
      requires s.Valid()
      modifies s
      ensures s.Valid() && (p, f, v, s.S()) == FixedOf(old(s.S()))
      ensures |p| == 7 && |f| == 10 && |v| == 6
    {
      hide Flat, GetAll;
      GetAllLength(s.S(), PROFILE_WIDTHS);
      p := ReadFields(s, PROFILE_WIDTHS);
      GetAllLength(s.S(), FORMAT_WIDTHS);
      f := ReadFields(s, FORMAT_WIDTHS);
      GetAllLength(s.S(), RATE_WIDTHS);
      v := ReadFields(s, RATE_WIDTHS);
    }

    method ReadAllArrays(s: BitStream, n: nat) returns (arrays: Result<seq<NaluArray>, Error>)
      requires s.Valid()
      modifies s
      ensures var all := HvccRecord.ReadArrays(old(s.S()), n);
        if all.Err? then arrays == Err(all.error) else arrays == Ok(all.value.0)
    {
      hide Flat, HvccRecord.ReadArray, HvccRecord.ReadArrays;
      var got: seq<NaluArray> := [];
      ghost var all := HvccRecord.ReadArrays(s.S(), n);
      AfterArraysNone(all);
      for i := 0 to n
        invariant s.Valid() && all == AfterArrays(got, HvccRecord.ReadArrays(s.S(), n - i))
      {
        ReadArraysStep(s.S(), n - i, got);
        var a := ReadArray(s);
        if a.Err? {
          return Err(a.error);
        }
        got := got + [a.value];
      }
      ReadArraysStep(s.S(), 0, got);
      return Ok(got);
    }
  }

  lemma {:induction false} HeaderFirst(r: Record)
    ensures RecordBits(r) == PutAll(ProfileFields(r)) + PutAll(FormatFields(r)) + PutAll(RateFields(r)) + ArraysBits(r.arrays)
  {
    hide PutAll, ArraysBits, ProfileFields, FormatFields, RateFields;
  }

  lemma {:induction false} FromArrays(p: seq<nat>, f: seq<nat>, v: seq<nat>, arrays: seq<NaluArray>)
    requires |p| == 7 && |f| == 10 && |v| == 6
    ensures RecordFrom(p, f, v, arrays).arrays == arrays
  {
  }

  lemma {:induction false} RestBytes(s: BitStream)
    requires s.Valid()
    ensures s.RemainBytes() == |s.S().rest| / 8
  {
  }

  function AfterUnits(got: seq<Nalu>, u: Result<(seq<Nalu>, Reader), Error>): Result<(seq<Nalu>, Reader), Error> {
    if u.Err? then u else Ok((got + u.value.0, u.value.1))
  }

  lemma {:induction false} AfterUnitsNone(u: Result<(seq<Nalu>, Reader), Error>)
    ensures AfterUnits([], u) == u
  {
    if u.Ok? {
      assert [] + u.value.0 == u.value.0;
    }
  }

  lemma {:induction false} ReadUnitsStep(r: Reader, n: nat, got: seq<Nalu>)
    ensures n == 0 ==> AfterUnits(got, HvccRecord.ReadUnits(r, n)) == Ok((got, r))
    ensures n > 0 ==>
      var length := Get(r, 16);
      var data := GetBytes(length.1, length.0);
      AfterUnits(got, HvccRecord.ReadUnits(r, n)) ==
        if data.1.failed then Err(Truncated)
        else AfterUnits(got + [Nalu(length.0 % 0x1_0000, data.0)], HvccRecord.ReadUnits(data.1, n - 1))
  {
    hide Get, GetBytes;
    if n == 0 {
      assert got + [] == got;
    } else {
      var length := Get(r, 16);
      var data := GetBytes(length.1, length.0);
      if !data.1.failed && HvccRecord.ReadUnits(data.1, n - 1).Ok? {
        var u, more := Nalu(length.0 % 0x1_0000, data.0), HvccRecord.ReadUnits(data.1, n - 1).value.0;
        assert got + ([u] + more) == (got + [u]) + more;
      }
    }
  }

  function AfterArrays(got: seq<NaluArray>, u: Result<(seq<NaluArray>, Reader), Error>): Result<(seq<NaluArray>, Reader), Error> {
    if u.Err? then u else Ok((got + u.value.0, u.value.1))
  }

  lemma {:induction false} AfterArraysNone(u: Result<(seq<NaluArray>, Reader), Error>)
    ensures AfterArrays([], u) == u
  {
    if u.Ok? {
      assert [] + u.value.0 == u.value.0;
    }
  }

  lemma {:induction false} ReadArraysStep(r: Reader, n: nat, got: seq<NaluArray>)
    ensures n == 0 ==> AfterArrays(got, HvccRecord.ReadArrays(r, n)) == Ok((got, r))
    ensures n > 0 ==>
      var one := HvccRecord.ReadArray(r);
      AfterArrays(got, HvccRecord.ReadArrays(r, n)) ==
        if one.Err? then Err(one.error)
        else AfterArrays(got + [one.value.0], HvccRecord.ReadArrays(one.value.1, n - 1))
  {
    hide HvccRecord.ReadArray;
    if n == 0 {
      assert got + [] == got;
    } else {
      var one := HvccRecord.ReadArray(r);
      if one.Ok? && HvccRecord.ReadArrays(one.value.1, n - 1).Ok? {
        var more := HvccRecord.ReadArrays(one.value.1, n - 1).value.0;
        assert got + ([one.value.0] + more) == (got + [one.value.0]) + more;
      }
    }
  }

  lemma {:induction false} OnBoundary(w: BitStreamWriter)
    requires w.Valid() && Whole(w.Contents())
    ensures w.bitOffset == 0
  {
  }

  lemma {:induction false} UnitsNone()
    ensures UnitsBits([]) == []
  {
  }

  lemma {:induction false} UnitsStep(units: seq<Nalu>, before: BitCodes.bits)
    requires units != []
    ensures before + UnitsBits(units) == before + BitsOf(units[0].length, 16) + Flat(units[0].data) + UnitsBits(units[1..])
  {
    hide Flat, BitsOf;
    var a, b, c := BitsOf(units[0].length, 16), Flat(units[0].data), UnitsBits(units[1..]);
    assert before + (a + b + c) == before + a + b + c;
  }

  lemma {:induction false} ArraysNone()
    ensures ArraysBits([]) == []
  {
  }

  lemma {:induction false} ArraysStep(arrays: seq<NaluArray>, before: BitCodes.bits)
    requires arrays != []
    ensures before + ArraysBits(arrays) ==
      before + PutAll(ArrayFields(arrays[0])) + UnitsBits(arrays[0].units) + ArraysBits(arrays[1..])
  {
    hide PutAll, UnitsBits;
    var a, b, c := PutAll(ArrayFields(arrays[0])), UnitsBits(arrays[0].units), ArraysBits(arrays[1..]);
    assert before + (a + b + c) == before + a + b + c;
  }
}
