/** Reading and writing fields of 1 to 64 bits, and Exp-Golomb codes, on strings of bits. */
module BitFields {
  import opened Arithmetic
  import opened Bytes
  import opened BitCodes

  /** The bits not read yet, and whether a read ever went wrong; once it has, nothing is read any more. */
  datatype Reader = Reader(rest: bits, failed: bool)

  function Get(r: Reader, n: int): (nat, Reader) {
    if r.failed then (0, r)
    else if n < 0 || n > 64 then (0, r.(failed := true))
    else if n == 0 then (0, r)
    else if n > |r.rest| then (0, r.(failed := true))
    else (Num(r.rest[..n]), r.(rest := r.rest[n..]))
  }

  function Skip(r: Reader, n: int): Reader {
    if r.failed then r else if n < 0 || n > |r.rest| then r.(failed := true) else r.(rest := r.rest[n..])
  }

  lemma {:induction false} LastByte(s: bits, low: bytes)
    requires |s| >= 8 && Flat(low) == s[..|s| - 8]
    ensures var last := Num(s[|s| - 8..]); last < 0x100 && Flat(low + [last]) == s
  {
    hide BitsOf, Num;
    var last := s[|s| - 8..];
    NumBound(last);
    BitsNum(last);
    assert Pow2(8) == 256;
    assert (low + [Num(last)])[..|low|] == low;
    assert s == s[..|s| - 8] + last;
  }

  /** The bytes that whole groups of eight bits stand for. */
  function ToBytes(s: bits): (b: bytes)
    requires |s| % 8 == 0
    ensures Flat(b) == s
    decreases |s|
  {
    if s == [] then []
    else
      var low := ToBytes(s[..|s| - 8]);
      LastByte(s, low);
      low + [Num(s[|s| - 8..])]
  }

  /** Whole bytes, on a byte boundary only. */
  function GetBytes(r: Reader, n: int): (bytes, Reader) {
    if r.failed then ([], r)
    else if n < 0 || |r.rest| % 8 != 0 || 8 * n > |r.rest| then ([], r.(failed := true))
    else (ToBytes(r.rest[..8 * n]), r.(rest := r.rest[8 * n..]))
  }

  datatype Field = Field(value: u64, width: nat)

  predicate Writable(f: Field) {
    1 <= f.width <= 64
  }

  function PutAll(fields: seq<Field>): bits {
    if fields == [] then [] else BitsOf(fields[0].value, fields[0].width) + PutAll(fields[1..])
  }

  function GetAll(r: Reader, widths: seq<nat>): (seq<nat>, Reader)
    decreases |widths|
  {
    if widths == [] then ([], r)
    else
      var one := Get(r, widths[0]);
      var more := GetAll(one.1, widths[1..]);
      ([one.0] + more.0, more.1)
  }

  lemma {:induction false} GetAllLength(r: Reader, widths: seq<nat>)
    ensures |GetAll(r, widths).0| == |widths|
    decreases |widths|
  {
    hide Get;
    if widths != [] {
      GetAllLength(Get(r, widths[0]).1, widths[1..]);
    }
  }

  /** No field read is too wide for its width, even where the data has run out. */
  lemma {:induction false} GetAllBound(r: Reader, widths: seq<nat>)
    ensures |GetAll(r, widths).0| == |widths|
    ensures forall i :: 0 <= i < |widths| ==> GetAll(r, widths).0[i] < Pow2(widths[i])
    decreases |widths|
  {
    hide Get, Pow2;
    if widths != [] {
      GetBound(r, widths[0]);
      var more := widths[1..];
      GetAllBound(Get(r, widths[0]).1, more);
      forall i | 0 <= i < |widths|
        ensures GetAll(r, widths).0[i] < Pow2(widths[i])
      {
        if i > 0 {
          assert widths[i] == more[i - 1];
        }
      }
    }
  }

  lemma {:induction false} GetBound(r: Reader, n: nat)
    ensures Get(r, n).0 < Pow2(n)
  {
    if !r.failed && 0 < n <= 64 && n <= |r.rest| {
      NumBound(r.rest[..n]);
    }
  }

  function WidthsOf(fields: seq<Field>): (w: seq<nat>)
    ensures |w| == |fields|
  {
    seq(|fields|, i requires 0 <= i < |fields| => fields[i].width)
  }

  function ValuesOf(fields: seq<Field>): (v: seq<nat>)
    ensures |v| == |fields|
  {
    seq(|fields|, i requires 0 <= i < |fields| => fields[i].value % Pow2(fields[i].width))
  }

  lemma {:induction false} GetPut(v: u64, n: nat, rest: bits)
    requires 1 <= n <= 64
    ensures Get(Reader(BitsOf(v, n) + rest, false), n) == (v % Pow2(n), Reader(rest, false))
  {
    NumBits(v, n);
    var s := BitsOf(v, n) + rest;
    assert s[..n] == BitsOf(v, n) && s[n..] == rest;
  }

  /** Any list of fields reads back, each modulo its width, and leaves what follows unread. */
  lemma {:induction false} FieldsRoundTrip(fields: seq<Field>, rest: bits)
    requires forall i :: 0 <= i < |fields| ==> Writable(fields[i])
    ensures GetAll(Reader(PutAll(fields) + rest, false), WidthsOf(fields)) == (ValuesOf(fields), Reader(rest, false))
    decreases |fields|
  {
    hide Get;
    if fields == [] {
      assert PutAll(fields) + rest == rest;
      assert ValuesOf(fields) == [];
    } else {
      var f, more := fields[0], PutAll(fields[1..]);
      assert PutAll(fields) + rest == BitsOf(f.value, f.width) + (more + rest);
      assert Writable(f);
      GetPut(f.value, f.width, more + rest);
      FieldsRoundTrip(fields[1..], rest);
      assert WidthsOf(fields)[1..] == WidthsOf(fields[1..]);
      assert ValuesOf(fields) == [f.value % Pow2(f.width)] + ValuesOf(fields[1..]);
    }
  }

  /** One read is two reads joined, while both together fit the data and 64 bits. */
  lemma {:induction false} GetJoins(r: Reader, a: nat, b: nat)
    requires !r.failed && a + b <= 64 && a + b <= |r.rest|
    ensures var first := Get(r, a); var second := Get(first.1, b);
      Get(r, a + b) == (Shifted(first.0, b) + second.0, second.1)
  {
    hide Num, Shifted;
    var s := r.rest;
    assert s[..a + b] == s[..a] + s[a..][..b] && s[a + b..] == s[a..][b..];
    NumConcat(s[..a], s[a..][..b]);
    NumNothing(Num(s[..a]));
    if a == 0 {
      assert s[..0] == [];
    }
    if b == 0 {
      assert s[a..][..0] == [] && s[a..][0..] == s[a..];
    }
  }

  lemma {:induction false} NumNothing(a: nat)
    ensures Num([]) == 0 && Shifted(a, 0) == a && forall n: nat :: Shifted(0, n) == 0
  {
  }

  // ---------------------------------------------------------------------------
  // Exp-Golomb codes
  // ---------------------------------------------------------------------------

  /** Reads after `zeros` zero bits; more than 63 of them are an error. */
  function ReadUeFrom(r: Reader, zeros: nat): (nat, Reader)
    requires zeros <= 63
    decreases 63 - zeros
  {
    var one := Get(r, 1);
    if one.1.failed then (0, one.1)
    else if one.0 != 0 then
      if zeros == 0 then (0, one.1)
      else
        var info := Get(one.1, zeros);
        (Pow2(zeros) - 1 + info.0, info.1)
    else if zeros == 63 then (0, one.1.(failed := true))
    else ReadUeFrom(one.1, zeros + 1)
  }

  function ReadUe(r: Reader): (nat, Reader) {
    ReadUeFrom(r, 0)
  }

  /** The position of the highest bit of x. */
  function Log2(x: nat): (k: nat)
    requires x > 0
    ensures Pow2(k) <= x < Pow2(k + 1)
  {
    if x == 1 then 0 else 1 + Log2(x / 2)
  }

  /** The unsigned Exp-Golomb code (section 9.1 of ITU-T H.264). */
  function Ue(v: nat): bits {
    var k := Log2(v + 1);
    Zeros(k) + BitsOf(v + 1, k + 1)
  }

  lemma {:induction false} Pow2Rises(a: nat, b: nat)
    requires a <= b
    ensures Pow2(a) <= Pow2(b)
  {
    if a < b {
      Pow2Rises(a, b - 1);
    }
  }

  lemma {:induction false} GetOne(b: bool, rest: bits)
    ensures Get(Reader([b] + rest, false), 1) == (Bit(b), Reader(rest, false))
  {
    assert ([b] + rest)[..1] == [b] && ([b] + rest)[1..] == rest;
    assert Num([b]) == Bit(b) by {
      assert [] + [b] == [b];
      NumMore([], b);
      NumNothing(0);
    }
  }

  lemma {:induction false} ReadZero(rest: bits, zeros: nat)
    requires zeros < 63
    ensures ReadUeFrom(Reader([false] + rest, false), zeros) == ReadUeFrom(Reader(rest, false), zeros + 1)
  {
    GetOne(false, rest);
    hide Get;
  }

  lemma {:induction false} SkipZeros(n: nat, s: bits, zeros: nat)
    requires zeros + n <= 63 && s != [] && s[0]
    ensures ReadUeFrom(Reader(Zeros(n) + s, false), zeros) == ReadUeFrom(Reader(s, false), zeros + n)
    decreases n
  {
    hide Get, ReadUeFrom;
    if n == 0 {
      assert Zeros(0) + s == s;
    } else {
      assert Zeros(n) + s == [false] + (Zeros(n - 1) + s);
      ReadZero(Zeros(n - 1) + s, zeros);
      SkipZeros(n - 1, s, zeros + 1);
    }
  }

  lemma {:induction false} TooManyZeros(s: bits, zeros: nat)
    requires zeros <= 63 && |s| >= 64 - zeros && s[..64 - zeros] == Zeros(64 - zeros)
    ensures ReadUeFrom(Reader(s, false), zeros).1.failed
    decreases 63 - zeros
  {
    assert s[..1] == [s[..64 - zeros][0]];
    assert Num([false]) == 0 by { assert [false][..0] == []; }
    if zeros < 63 {
      assert s[1..][..63 - zeros] == s[..64 - zeros][1..];
      TooManyZeros(s[1..], zeros + 1);
    }
  }

  lemma {:induction false} NumBitsSmall(x: nat, k: nat)
    requires x < Pow2(k)
    ensures Num(BitsOf(x, k)) == x
  {
    hide BitsOf, Num, Times;
    NumBits(x, k);
    TimesStep(0, Pow2(k));
    ModUnique(x, Pow2(k), 0, x);
  }

  /** The highest bit, then the rest of the number. */
  lemma {:induction false} HighBit(x: nat, k: nat)
    requires Pow2(k) <= x < Pow2(k + 1)
    ensures BitsOf(x, k + 1) == [true] + BitsOf(x - Pow2(k), k)
  {
    var y := x - Pow2(k);
    assert Num([true]) == 1 by { assert [true][..0] == []; }
    assert Shifted(1, k) == Pow2(k);
    hide BitsOf, Num, Shifted;
    NumBitsSmall(x, k + 1);
    NumBitsSmall(y, k);
    NumConcat([true], BitsOf(y, k));
    NumInjective(BitsOf(x, k + 1), [true] + BitsOf(y, k));
  }

  /** A code reads back to its value, exactly while that fits 64 bits beside the escape. */
  lemma {:induction false} GolombRoundTrip(v: nat, rest: bits)
    ensures var r := ReadUe(Reader(Ue(v) + rest, false));
      if v < TWO_64 - 1 then r == (v, Reader(rest, false)) else r.1.failed
  {
    var k := Log2(v + 1);
    var code := BitsOf(v + 1, k + 1);
    HighBit(v + 1, k);
    assert Ue(v) + rest == Zeros(k) + (code + rest);
    Pow2Is64();
    if k <= 63 {
      Pow2Rises(k + 1, 64);
      ReadCode(v, k, rest);
      SkipZeros(k, code + rest, 0);
    } else {
      Pow2Rises(64, k);
      var all := Ue(v) + rest;
      assert all[..64] == Zeros(64);
      TooManyZeros(all, 0);
    }
  }

  lemma {:induction false} Pow2Is64()
    ensures Pow2(64) == TWO_64
  {
    assert Pow2(8) == 0x100;
    Pow2Sum(8, 8);
    Pow2Sum(16, 16);
    Pow2Sum(32, 32);
  }

  lemma {:induction false} Pow2Sum(a: nat, b: nat)
    ensures Pow2(a + b) == Times(Pow2(a), Pow2(b))
  {
    if b > 0 {
      Pow2Sum(a, b - 1);
    }
  }

  lemma {:induction false} ReadCode(v: nat, k: nat, rest: bits)
    requires k == Log2(v + 1) && k <= 63
    ensures ReadUeFrom(Reader(BitsOf(v + 1, k + 1) + rest, false), k) == (v, Reader(rest, false))
  {
    var y := v + 1 - Pow2(k);
    HighBit(v + 1, k);
    hide BitsOf, Num, Log2;
    assert BitsOf(v + 1, k + 1) + rest == [true] + (BitsOf(y, k) + rest);
    GetOne(true, BitsOf(y, k) + rest);
    if k > 0 {
      GetSmall(y, k, rest);
    } else {
      assert BitsOf(y, 0) + rest == rest;
    }
    hide Get;
  }

  lemma {:induction false} GetSmall(y: nat, k: nat, rest: bits)
    requires 1 <= k <= 64 && y < Pow2(k)
    ensures Get(Reader(BitsOf(y, k) + rest, false), k) == (y, Reader(rest, false))
  {
    hide BitsOf, Num;
    NumBitsSmall(y, k);
    var s := BitsOf(y, k) + rest;
    assert s[..k] == BitsOf(y, k) && s[k..] == rest;
  }

  /** The signed value of a code, with the conversion to 64 signed bits it goes through. */
  function Signed(v: u64): int {
    if v % 2 == 0 then -(v / 2) else AsInt64(v as int + 1) / 2
  }

  /** Odd codes from 2^63 - 1 on come out wrong; every other code gives its signed value. */
  lemma {:induction false} SignedIff(v: u64)
    ensures Signed(v) == (if v % 2 == 0 then -(v / 2) else (v as int + 1) / 2)
      <==> v % 2 == 0 || v as int < TWO_64 / 2 - 1
  {
  }
}
