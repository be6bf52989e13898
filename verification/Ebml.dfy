/** EBML elements: ids, variable size integers, numbers and nesting (section 4 of RFC 8794). */
module Ebml {
  import opened Arithmetic
  import opened Bytes
  import opened Wrappers

  datatype Error = BadVint | BadId | Overrun | TooLarge

  // ---------------------------------------------------------------------------
  // Big-endian numbers of any length
  // ---------------------------------------------------------------------------

  function Pow256(n: nat): (p: nat)
    ensures p >= 1
  {
    if n == 0 then 1 else 256 * Pow256(n - 1)
  }

  /** The low n bytes of v. */
  function Big(v: nat, n: nat): (b: bytes)
    ensures |b| == n
  {
    if n == 0 then [] else Big(v / 256, n - 1) + [v % 256]
  }

  function Val(b: bytes): nat {
    if b == [] then 0 else 256 * Val(b[..|b| - 1]) + b[|b| - 1] as int
  }

  lemma {:induction false} PowerStep(a: nat, n: nat)
    ensures Times(a, Pow256(0)) == a && Times(a, Pow256(n + 1)) == 256 * Times(a, Pow256(n))
  {
  }

  lemma {:induction false} ValConcat(a: bytes, b: bytes)
    ensures Val(a + b) == Times(Val(a), Pow256(|b|)) + Val(b)
  {
    hide Times, Pow256;
    PowerStep(Val(a), 0);
    if b == [] {
      assert a + b == a;
    } else {
      var n := |b| - 1;
      assert (a + b)[..|a + b| - 1] == a + b[..n];
      ValConcat(a, b[..n]);
      PowerStep(Val(a), n);
    }
  }

  lemma {:induction false} ValBound(b: bytes)
    ensures Val(b) < Pow256(|b|)
  {
    if b != [] {
      ValBound(b[..|b| - 1]);
    }
  }

  lemma {:induction false} BigVal(b: bytes)
    ensures Big(Val(b), |b|) == b
  {
    if b != [] {
      var n := |b| - 1;
      BigVal(b[..n]);
      assert b == b[..n] + [b[n]];
    }
  }

  lemma {:induction false} ValBig(v: nat, n: nat)
    requires v < Pow256(n)
    ensures Val(Big(v, n)) == v
  {
    if n > 0 {
      ValBig(v / 256, n - 1);
      assert Big(v, n)[..n - 1] == Big(v / 256, n - 1);
    }
  }

  /** Only the low n bytes count. */
  lemma {:induction false} BigWraps(v: nat, k: nat, n: nat)
    ensures Big(v + Times(k, Pow256(n)), n) == Big(v, n)
  {
    hide Times;
    if n > 0 {
      PowerStep(k, n - 1);
      BigWraps(v / 256, k, n - 1);
    }
  }

  // ---------------------------------------------------------------------------
  // Variable size integers
  // ---------------------------------------------------------------------------

  /** The length marker bit of an n byte integer, in its first byte. */
  function Marker(n: nat): nat
    requires 1 <= n <= 8
  {
    [128, 64, 32, 16, 8, 4, 2, 1][n - 1]
  }

  /** 2^(7n): where the marker of an n byte integer stands. */
  function Limit(n: nat): nat
    requires 1 <= n <= 8
  {
    Marker(n) * Pow256(n - 1)
  }

  lemma {:induction false} Limits()
    ensures Limit(1) == 0x80 && Limit(2) == 0x4000 && Limit(3) == 0x20_0000 && Limit(4) == 0x1000_0000
    ensures Limit(5) == 0x8_0000_0000 && Limit(6) == 0x400_0000_0000 && Limit(7) == 0x2_0000_0000_0000 && Limit(8) == 0x100_0000_0000_0000
  {
    Powers();
  }

  lemma {:induction false} Powers()
    ensures Pow256(0) == 1 && Pow256(1) == 0x100 && Pow256(2) == 0x1_0000 && Pow256(3) == 0x100_0000 && Pow256(4) == 0x1_0000_0000
    ensures Pow256(5) == 0x100_0000_0000 && Pow256(6) == 0x1_0000_0000_0000 && Pow256(7) == 0x100_0000_0000_0000 && Pow256(8) == TWO_64
  {
    assert Pow256(2) == 256 * Pow256(1) && Pow256(3) == 256 * Pow256(2) && Pow256(4) == 256 * Pow256(3);
    assert Pow256(5) == 256 * Pow256(4) && Pow256(6) == 256 * Pow256(5) && Pow256(7) == 256 * Pow256(6) && Pow256(8) == 256 * Pow256(7);
  }

  /** Bit i of a byte, counted from the highest. */
  predicate HasBit(first: byte, i: nat)
    requires i < 8
  {
    first as int / Marker(i + 1) % 2 == 1
  }

  function VintLenFrom(first: byte, i: nat): (n: nat)
    requires i <= 8
    ensures n <= 8
    decreases 8 - i
  {
    if i == 8 then 0 else if HasBit(first, i) then i + 1 else VintLenFrom(first, i + 1)
  }

  /** From the position of the first set bit; 0 when there is none. */
  function VintLen(first: byte): (n: nat)
    ensures n <= 8
  {
    VintLenFrom(first, 0)
  }

  lemma {:induction false} HighestBit(first: byte, i: nat)
    requires i < 8 && first < 2 * Marker(i + 1)
    ensures HasBit(first, i) <==> first >= Marker(i + 1)
  {
    var f: int := first;
    if i == 0 {
      assert f / 128 == if f >= 128 then 1 else 0;
    } else if i == 1 {
      assert f / 64 == if f >= 64 then 1 else 0;
    } else if i == 2 {
      assert f / 32 == if f >= 32 then 1 else 0;
    } else if i == 3 {
      assert f / 16 == if f >= 16 then 1 else 0;
    }
  }

  lemma {:induction false} Markers(i: nat, n: nat)
    requires 1 <= i < n <= 8
    ensures 2 * Marker(n) <= Marker(i)
  {
  }

  lemma {:induction false} VintReaches(first: byte, i: nat, n: nat)
    requires i < n <= 8 && Marker(n) <= first < 2 * Marker(n)
    ensures VintLenFrom(first, i) == n
    decreases n - i
  {
    hide Marker, HasBit;
    if i + 1 < n {
      Markers(i + 1, n);
      HighestBit(first, i);
      VintReaches(first, i + 1, n);
    } else {
      HighestBit(first, i);
    }
  }

  /** A byte above zero has its first set bit somewhere. */
  lemma {:induction false} SomeMarker(first: byte) returns (n: nat)
    requires first > 0
    ensures 1 <= n <= 8 && Marker(n) <= first < 2 * Marker(n)
  {
    var f: int := first;
    n := if f >= 128 then 1 else if f >= 64 then 2 else if f >= 32 then 3 else if f >= 16 then 4
         else if f >= 8 then 5 else if f >= 4 then 6 else if f >= 2 then 7 else 8;
  }

  lemma {:induction false} VintLenZero(i: nat)
    requires i <= 8
    ensures VintLenFrom(0, i) == 0
    decreases 8 - i
  {
    if i < 8 {
      VintLenZero(i + 1);
    }
  }

  lemma {:induction false} VintLenIs(first: byte, n: nat)
    requires 1 <= n <= 8
    ensures VintLen(first) == n <==> Marker(n) <= first < 2 * Marker(n)
  {
    hide VintLenFrom;
    if first == 0 {
      VintLenZero(0);
    } else {
      var k := SomeMarker(first);
      VintReaches(first, 0, k);
      if k < n {
        Markers(k, n);
      } else if n < k {
        Markers(n, k);
      }
    }
  }

  /** v with the marker bit of an n byte integer set, as n bytes. */
  function AppendSize(v: u64, n: nat): (b: bytes)
    requires 1 <= n <= 8
    ensures |b| == n
  {
    Big(if v as int / Limit(n) % 2 == 1 then v else v as int + Limit(n), n)
  }

  function SizeLenFrom(v: u64, n: nat): (r: nat)
    requires 1 <= n <= 8
    ensures n <= r <= 8
    decreases 8 - n
  {
    if n < 8 && v >= Limit(n) - 1 then SizeLenFrom(v, n + 1) else n
  }

  function SizeLen(v: u64): (n: nat)
    ensures 1 <= n <= 8
  {
    SizeLenFrom(v, 1)
  }

  datatype Vint = Vint(value: u64, size: nat, unknown: bool)

  /** The value of n bytes less the marker in the first. */
  function Unmarked(b: bytes, n: nat): nat
    requires 1 <= n <= 8 && n <= |b|
  {
    Times(b[0] as int % Marker(n), Pow256(n - 1)) + Val(b[1..n])
  }

  function ReadVint(b: bytes): Result<Vint, Error> {
    if b == [] then Err(BadVint)
    else
      var n := VintLen(b[0]);
      if n == 0 || |b| < n then Err(BadVint)
      else
        UnmarkedBound(b, n);
        Ok(Vint(Unmarked(b, n), n, Unmarked(b, n) == Limit(n) - 1))
  }

  lemma {:induction false} UnmarkedBound(b: bytes, n: nat)
    requires 1 <= n <= 8 && n <= |b|
    ensures Unmarked(b, n) < Limit(n) <= TWO_64
  {
    ValBound(b[1..n]);
    Limits();
    var m, p := Marker(n), Pow256(n - 1);
    TimesRoom(b[0] as int % m, m, p);
    assert Limit(n) == Times(m, p);
  }

  lemma {:induction false} TimesRoom(a: nat, m: nat, p: nat)
    requires a < m
    ensures Times(a, p) + p <= Times(m, p)
  {
    TimesMore(a, m - a, p);
    TimesMore(1, m - a - 1, p);
  }

  lemma {:induction false} TimesMore(a: nat, b: nat, p: nat)
    ensures Times(a + b, p) == Times(a, p) + Times(b, p) && Times(b, p) >= 0 && Times(1, p) == p
  {
  }

  lemma {:induction false} Quotient(v: nat, p: nat)
    requires p > 0
    ensures v == Times(v / p, p) + v % p && 0 <= v % p < p && v / p >= 0
  {
    hide Times;
    DivMod(v, p);
  }

  /** A quotient is small when the number is. */
  lemma {:induction false} QuotientBelow(v: nat, m: nat, p: nat)
    requires p > 0 && v < Times(m, p)
    ensures v / p < m
  {
    hide Times;
    Quotient(v, p);
    if v / p >= m {
      TimesMore(m, v / p - m, p);
    }
  }

  /** The first byte holds the marker and the high bits, the others the rest. */
  lemma {:induction false} SizeBytes(v: nat, n: nat)
    requires 1 <= n <= 8 && v < Limit(n)
    ensures var p := Pow256(n - 1); var q, r := v / p, v % p;
      && 0 <= q < Marker(n) && 0 <= r < p && v == Times(q, p) + r
      && Big(v + Limit(n), n) == [Marker(n) + q] + Big(r, n - 1)
  {
    var p, m := Pow256(n - 1), Marker(n);
    LimitIs(n);
    MarkerSmall(n);
    hide Times, Pow256, Big, Marker, Limit;
    Quotient(v, p);
    QuotientBelow(v, m, p);
    var q, r := v / p, v % p;
    TimesMore(m, q, p);
    MarkedBytes(m + q, r, n);
  }

  lemma {:induction false} MarkerSmall(n: nat)
    requires 1 <= n <= 8
    ensures 0 < Marker(n) <= 128
  {
  }

  /** A number's highest byte and the others. */
  lemma {:induction false} MarkedBytes(high: byte, low: nat, n: nat)
    requires n >= 1 && low < Pow256(n - 1)
    ensures Times(high, Pow256(n - 1)) + low >= 0 && Big(Times(high, Pow256(n - 1)) + low, n) == [high] + Big(low, n - 1)
  {
    assert Val([high]) == high by { assert [high][..0] == []; }
    hide Times, Pow256, Big, Val;
    TimesNonNegative(high, Pow256(n - 1));
    ValConcat([high], Big(low, n - 1));
    ValBig(low, n - 1);
    BigVal([high] + Big(low, n - 1));
  }

  lemma {:induction false} LimitIs(n: nat)
    requires 1 <= n <= 8
    ensures Limit(n) == Times(Marker(n), Pow256(n - 1))
  {
  }

  /** A size written in n bytes reads back, flagged when it is the reserved one. */
  lemma {:induction false} VintRoundTrip(v: u64, n: nat, rest: bytes)
    requires 1 <= n <= 8 && v < Limit(n)
    ensures ReadVint(AppendSize(v, n) + rest) == Ok(Vint(v, n, v == Limit(n) - 1))
  {
    hide Times, Pow256, Val, Big, Limit;
    SizeBytes(v, n);
    var p := Pow256(n - 1);
    var q, r, m := v as int / p, v as int % p, Marker(n);
    Below(v, Limit(n));
    var b := AppendSize(v, n) + rest;
    assert b == [m + q] + Big(r, n - 1) + rest;
    VintLenIs(m + q, n);
    assert b[1..n] == Big(r, n - 1);
    ValBig(r, n - 1);
    assert (m + q) % m == q by { ModPlus(m, q); }
  }

  lemma {:induction false} Below(v: nat, limit: nat)
    requires v < limit
    ensures v / limit % 2 == 0
  {
  }

  lemma {:induction false} ModPlus(m: nat, q: nat)
    requires q < m
    ensures (m + q) % m == q
  {
  }

  /** The shortest length whose values, the reserved one aside, include v. */
  lemma {:induction false} SizeLenShortest(v: u64, k: nat)
    requires v < Limit(8) - 1
    ensures v < Limit(SizeLen(v)) - 1
    ensures 1 <= k < SizeLen(v) ==> v >= Limit(k) - 1
  {
    SizeLenFromShortest(v, 1, k);
  }

  lemma {:induction false} SizeLenFromShortest(v: u64, n: nat, k: nat)
    requires 1 <= n <= 8 && v < Limit(8) - 1
    ensures v < Limit(SizeLenFrom(v, n)) - 1
    ensures n <= k < SizeLenFrom(v, n) ==> v >= Limit(k) - 1
    decreases 8 - n
  {
    hide Limit;
    if n < 8 && v >= Limit(n) - 1 {
      SizeLenFromShortest(v, n + 1, k);
    }
  }

  /** Sizes survive at their shortest length exactly below the reserved value of eight bytes. */
  lemma {:induction false} SizeRoundTripIff(v: u64, rest: bytes)
    ensures ReadVint(AppendSize(v, SizeLen(v)) + rest) == Ok(Vint(v, SizeLen(v), false)) <==> v < Limit(8) - 1
  {
    hide Pow256, Val, Big, Limit, Unmarked, AppendSize;
    if v < Limit(8) - 1 {
      SizeLenShortest(v, 1);
      VintRoundTrip(v, SizeLen(v), rest);
    } else {
      var b := AppendSize(v, SizeLen(v)) + rest;
      if ReadVint(b).Ok? {
        var n := VintLen(b[0]);
        UnmarkedBound(b, n);
        LimitsRise(n);
      }
    }
  }

  lemma {:induction false} LimitsRise(n: nat)
    requires 1 <= n <= 8
    ensures Limit(n) <= Limit(8)
  {
    Limits();
  }

  // ---------------------------------------------------------------------------
  // Elements
  // ---------------------------------------------------------------------------

  function IdLen(id: u32): (n: nat)
    ensures 1 <= n <= 4
  {
    if id >= 0x100_0000 then 4 else if id >= 0x1_0000 then 3 else if id >= 0x100 then 2 else 1
  }

  function AppendId(id: u32): (b: bytes)
    ensures |b| == IdLen(id)
  {
    Big(id, IdLen(id))
  }

  /** An id whose first byte announces its own length. */
  predicate ValidId(id: u32) {
    VintLen(AppendId(id)[0]) == IdLen(id)
  }

  datatype Child = Child(id: u32, payload: bytes)

  function Element(c: Child): bytes
    requires |c.payload| < TWO_64
  {
    AppendId(c.id) + AppendSize(|c.payload|, SizeLen(|c.payload|)) + c.payload
  }

  predicate Encodable(children: seq<Child>) {
    forall i :: 0 <= i < |children| ==> |children[i].payload| < TWO_64
  }

  function Elements(children: seq<Child>): bytes
    requires Encodable(children)
  {
    if children == [] then [] else Element(children[0]) + Elements(children[1..])
  }

  function Master(id: u32, children: seq<Child>): bytes
    requires Encodable(children) && |Elements(children)| < TWO_64
  {
    Element(Child(id, Elements(children)))
  }

  /** One element from the head of a buffer, and what follows it. */
  function NextChild(b: bytes): Result<(Child, bytes), Error>
    requires b != []
  {
    var n := VintLen(b[0]);
    if n == 0 || n > 4 || |b| < n then Err(BadId)
    else
      var size := ReadVint(b[n..]);
      if size.Err? then Err(size.error)
      else
        var rest := b[n + size.value.size..];
        var length := if size.value.unknown then |rest| else size.value.value;
        if length > |rest| then Err(Overrun)
        else
          IdFits(b, n);
          Ok((Child(Val(b[..n]), rest[..length]), rest[length..]))
  }

  lemma {:induction false} IdFits(b: bytes, n: nat)
    requires n <= 4 && n <= |b|
    ensures Val(b[..n]) < TWO_32
  {
    ValBound(b[..n]);
    Powers();
  }

  /** The children seen before the end or the first error. */
  function EachChild(b: bytes): (seq<Child>, Option<Error>)
    decreases |b|
  {
    if b == [] then ([], None)
    else
      var one := NextChild(b);
      if one.Err? then ([], Some(one.error))
      else
        var more := EachChild(one.value.1);
        ([one.value.0] + more.0, more.1)
  }

  /** Payloads short of the reserved size. */
  predicate Sized(c: Child) {
    |c.payload| < Limit(8) - 1
  }

  /** An id, a size and a payload of that size are read as what they are. */
  /** Where the parts of a child lie. */
  lemma {:induction false} ChildLayout(id: bytes, size: bytes, payload: bytes, rest: bytes)
    ensures var b, tail := id + size + payload + rest, payload + rest;
      && b[..|id|] == id && b[|id|..] == size + tail && (size + tail)[|size|..] == tail
      && tail[..|payload|] == payload && tail[|payload|..] == rest
  {
    assert id + size + payload + rest == id + (size + (payload + rest));
  }

  lemma {:induction false} Parses(id: bytes, size: bytes, payload: bytes, rest: bytes)
    requires 1 <= |id| <= 4 && VintLen(id[0]) == |id| && |payload| < TWO_64
    requires ReadVint(size + (payload + rest)) == Ok(Vint(|payload|, |size|, false))
    ensures var b := id + size + payload + rest;
      Val(id) < TWO_32 && b != [] && NextChild(b) == Ok((Child(Val(id), payload), rest))
  {
    hide Val, ReadVint, VintLen;
    var b := id + size + payload + rest;
    ChildLayout(id, size, payload, rest);
    assert b[0] == id[0];
    IdFits(b, |id|);
  }

  lemma {:induction false} ChildRoundTrip(c: Child, rest: bytes)
    requires Sized(c) && ValidId(c.id)
    ensures |c.payload| < TWO_64 && Element(c) + rest != [] && NextChild(Element(c) + rest) == Ok((c, rest))
  {
    hide Big, Val, Limit, AppendSize, SizeLen, VintLen, NextChild, ReadVint;
    Limits();
    SizeRoundTripIff(|c.payload|, c.payload + rest);
    IdBound(c.id);
    ValBig(c.id, IdLen(c.id));
    Parses(AppendId(c.id), AppendSize(|c.payload|, SizeLen(|c.payload|)), c.payload, rest);
  }

  lemma {:induction false} IdBound(id: u32)
    ensures id < Pow256(IdLen(id))
  {
    Powers();
  }

  /** Walking the payload of a master element gives back its children, in order. */
  lemma {:induction false} ChildrenRoundTrip(children: seq<Child>)
    requires Encodable(children) && forall i :: 0 <= i < |children| ==> Sized(children[i]) && ValidId(children[i].id)
    ensures EachChild(Elements(children)) == (children, None)
  {
    hide NextChild, Element, Sized, ValidId;
    if children != [] {
      assert Sized(children[0]) && ValidId(children[0].id);
      ChildRoundTrip(children[0], Elements(children[1..]));
      ChildrenRoundTrip(children[1..]);
      assert [children[0]] + children[1..] == children;
    }
  }

  /** A whole master element, read as the child of what encloses it and then walked. */
  lemma {:induction false} MasterRoundTrip(id: u32, children: seq<Child>, rest: bytes)
    requires Encodable(children) && forall i :: 0 <= i < |children| ==> Sized(children[i]) && ValidId(children[i].id)
    requires ValidId(id) && |Elements(children)| < Limit(8) - 1
    ensures |Elements(children)| < TWO_64 && Master(id, children) + rest != []
    ensures var m := NextChild(Master(id, children) + rest);
      m.Ok? && m.value.0.id == id && m.value.1 == rest && EachChild(m.value.0.payload) == (children, None)
  {
    hide NextChild, Element, EachChild, ValidId;
    Limits();
    ChildRoundTrip(Child(id, Elements(children)), rest);
    ChildrenRoundTrip(children);
  }

  /** Whatever is read as an id is a valid one, so an invalid id never comes back. */
  lemma {:induction false} ReadIdsValid(b: bytes)
    requires b != [] && NextChild(b).Ok?
    ensures ValidId(NextChild(b).value.0.id)
  {
    hide ReadVint, Val, Big, VintLen, Times, Pow256;
    var n := VintLen(b[0]);
    IdFits(b, n);
    var id := b[..n];
    BigVal(id);
    FirstOf(id);
    VintLenIs(b[0], n);
    IdLenOf(Val(id), n, b[0]);
  }

  /** The leading byte of a number. */
  lemma {:induction false} FirstOf(b: bytes)
    requires b != []
    ensures Times(b[0], Pow256(|b| - 1)) <= Val(b) < Times(b[0] as int + 1, Pow256(|b| - 1))
  {
    hide Times, Pow256;
    assert b == [b[0]] + b[1..];
    ValConcat([b[0]], b[1..]);
    ValBound(b[1..]);
    assert Val([b[0]]) == b[0] by { assert [b[0]][..0] == []; }
    TimesMore(b[0], 1, Pow256(|b| - 1));
  }

  lemma {:induction false} IdLenOf(v: nat, n: nat, first: byte)
    requires 1 <= n <= 4 && first >= Marker(n) && v < TWO_32
    requires Times(first, Pow256(n - 1)) <= v < Times(first as int + 1, Pow256(n - 1))
    ensures IdLen(v) == n
  {
    Powers();
    if n == 1 {
      assert Times(first as int + 1, 1) == first as int + 1;
    } else if n == 2 {
      assert Times(first, 0x100) == first as int * 0x100 && Times(first as int + 1, 0x100) == (first as int + 1) * 0x100;
    } else if n == 3 {
      assert Times(first, 0x1_0000) == first as int * 0x1_0000 && Times(first as int + 1, 0x1_0000) == (first as int + 1) * 0x1_0000;
    } else {
      assert Times(first, 0x100_0000) == first as int * 0x100_0000;
    }
  }

  lemma {:induction false} FirstChild(b: bytes)
    ensures EachChild(b).0 != [] ==> b != [] && NextChild(b).Ok? && EachChild(b).0[0] == NextChild(b).value.0
  {
    hide NextChild;
  }

  /** A single element survives exactly when its id announces its own length. */
  lemma {:induction false} IdRoundTripIff(c: Child)
    requires Sized(c) && |c.payload| < TWO_64
    ensures EachChild(Element(c)) == ([c], None) <==> ValidId(c.id)
  {
    hide ValidId, Val, Big, NextChild, Element;
    if ValidId(c.id) {
      ChildrenRoundTrip([c]);
      assert [c][1..] == [] && Element(c) + [] == Element(c);
    } else if Element(c) != [] && NextChild(Element(c)).Ok? {
      ReadIdsValid(Element(c));
      FirstChild(Element(c));
    } else {
      FirstChild(Element(c));
    }
  }

  // ---------------------------------------------------------------------------
  // Numbers
  // ---------------------------------------------------------------------------

  function UintLenFrom(v: u64, n: nat): (r: nat)
    requires 1 <= n <= 8
    ensures n <= r <= 8
    decreases 8 - n
  {
    if n < 8 && v as int / Pow256(n) != 0 then UintLenFrom(v, n + 1) else n
  }

  function UintPayload(v: u64): bytes {
    Big(v, UintLenFrom(v, 1))
  }

  function ReadUint(b: bytes): Result<u64, Error> {
    if |b| > 8 then Err(TooLarge)
    else
      UintBound(b);
      Ok(Val(b))
  }

  lemma {:induction false} UintBound(b: bytes)
    requires |b| <= 8
    ensures Val(b) < TWO_64
  {
    ValBound(b);
    PowersRise(|b|);
  }

  lemma {:induction false} PowersRise(n: nat)
    requires n <= 8
    ensures Pow256(n) <= TWO_64
  {
    Powers();
  }

  lemma {:induction false} UintLenFits(v: u64, n: nat)
    requires 1 <= n <= 8
    ensures v < Pow256(UintLenFrom(v, n))
    decreases 8 - n
  {
    hide Pow256, Times;
    if n < 8 && v as int / Pow256(n) != 0 {
      UintLenFits(v, n + 1);
    } else if n < 8 {
      Quotient(v, Pow256(n));
      TimesZero(Pow256(n));
    } else {
      Powers();
    }
  }

  lemma {:induction false} TimesZero(p: nat)
    ensures Times(0, p) == 0
  {
  }

  lemma {:induction false} UintRoundTrip(v: u64)
    ensures ReadUint(UintPayload(v)) == Ok(v)
  {
    UintLenFits(v, 1);
    ValBig(v, UintLenFrom(v, 1));
  }

  type i64 = x: int | -0x8000_0000_0000_0000 <= x < 0x8000_0000_0000_0000

  /** v fits n bytes with its sign. */
  predicate FitsSigned(v: int, n: nat)
    requires n >= 1
  {
    -128 * Pow256(n - 1) <= v < 128 * Pow256(n - 1)
  }

  function IntLenFrom(v: i64, n: nat): (r: nat)
    requires 1 <= n <= 8
    ensures n <= r <= 8
    decreases 8 - n
  {
    if n < 8 && !FitsSigned(v, n) then IntLenFrom(v, n + 1) else n
  }

  function IntPayload(v: i64): bytes {
    Big(if v < 0 then v + TWO_64 else v, IntLenFrom(v, 1))
  }

  /** The first byte carries the sign. */
  function SignedVal(b: bytes): int {
    if b != [] && b[0] >= 0x80 then Val(b) - Pow256(|b|) else Val(b)
  }

  function ReadInt(b: bytes): Result<int, Error> {
    if |b| > 8 then Err(TooLarge) else Ok(SignedVal(b))
  }

  lemma {:induction false} IntLenFits(v: i64, n: nat)
    requires 1 <= n <= 8
    ensures FitsSigned(v, IntLenFrom(v, n))
    decreases 8 - n
  {
    hide Pow256;
    if n < 8 && !FitsSigned(v, n) {
      IntLenFits(v, n + 1);
    } else if n == 8 {
      Powers();
    }
  }

  /** The top bit of the first byte says which half of the range a number is in. */
  lemma {:induction false} TopBit(b: bytes)
    requires b != []
    ensures b[0] >= 0x80 <==> Val(b) >= 128 * Pow256(|b| - 1)
  {
    hide Pow256, Times, Val;
    FirstOf(b);
    var p, f := Pow256(|b| - 1), b[0] as int;
    assert Times(128, p) == 128 * p by { TimesIs(p); }
    if f >= 128 {
      TimesMore(128, f - 128, p);
    } else {
      TimesMore(f + 1, 127 - f, p);
    }
  }

  lemma {:induction false} TimesIs(p: nat)
    ensures Times(128, p) == 128 * p && Times(256, p) == 256 * p
  {
  }

  lemma {:induction false} IntRoundTrip(v: i64)
    ensures ReadInt(IntPayload(v)) == Ok(v)
  {
    hide Pow256, Val, Big;
    var n := IntLenFrom(v, 1);
    IntLenFits(v, 1);
    var b := IntPayload(v);
    var p := Pow256(n - 1);
    assert Pow256(n) == 256 * p by { PowStep(n); }
    var w := if v < 0 then v + Pow256(n) else v;
    assert b == Big(w, n) by {
      if v < 0 {
        SignWraps(v, n);
      }
    }
    ValBig(w, n);
    TopBit(b);
  }

  lemma {:induction false} PowStep(n: nat)
    requires n >= 1
    ensures Pow256(n) == 256 * Pow256(n - 1)
  {
  }

  /** Sign extension to eight bytes does not show in the low n. */
  lemma {:induction false} SignWraps(v: i64, n: nat)
    requires 1 <= n <= 8 && -(Pow256(n) as int) <= v < 0
    ensures Big(v + TWO_64, n) == Big(v + Pow256(n), n)
  {
    hide Pow256, Big, Times;
    Powers();
    SplitPower(n);
    var k := Pow256(8 - n) - 1;
    TimesMore(1, k, Pow256(n));
    BigWraps(v + Pow256(n), k, n);
  }

  lemma {:induction false} SplitPower(n: nat)
    requires n <= 8
    ensures Pow256(8) == Times(Pow256(8 - n), Pow256(n))
  {
    Powers();
    PowerSum(8 - n, n);
  }

  lemma {:induction false} PowerSum(a: nat, b: nat)
    ensures Pow256(a + b) == Times(Pow256(a), Pow256(b))
  {
    hide Times;
    PowerStep(Pow256(a), 0);
    if b > 0 {
      PowerSum(a, b - 1);
      PowerStep(Pow256(a), b - 1);
    }
  }

  // ---------------------------------------------------------------------------
  // Void
  // ---------------------------------------------------------------------------

  const ID_VOID: u32 := 0xEC

  function Zeros(n: nat): (b: bytes)
    ensures |b| == n
  {
    seq(n, _ => 0)
  }

  function VoidElement(total: nat): (b: bytes)
    requires 2 <= total < TWO_64
  {
    if total - 2 < 127 then [0xEC] + AppendSize(total - 2, 1) + Zeros(total - 2)
    else [0xEC] + AppendSize(total - 9, 8) + Zeros(total - 9)
  }

  /** A void takes exactly the space asked for, and readers skip exactly it. */
  lemma {:induction false} VoidFills(total: nat, rest: bytes)
    requires 2 <= total < Limit(8)
    ensures total < TWO_64 && |VoidElement(total)| == total
    ensures NextChild(VoidElement(total) + rest) == Ok((Child(ID_VOID, Zeros(total - if total - 2 < 127 then 2 else 9)), rest))
  {
    hide AppendSize, Limit, Val, VintLen, ReadVint, NextChild;
    Limits();
    var n, size := if total - 2 < 127 then 1 else 8, if total - 2 < 127 then total - 2 else total - 9;
    VintLenIs(0xEC, 1);
    VintRoundTrip(size, n, Zeros(size) + rest);
    OneByte(0xEC);
    Parses([0xEC], AppendSize(size, n), Zeros(size), rest);
  }

  lemma {:induction false} OneByte(x: byte)
    ensures Val([x]) == x
  {
    assert [x][..0] == [];
  }
}
