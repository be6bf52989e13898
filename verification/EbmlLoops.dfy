/** The loops behind EBML encoding and decoding. */
module EbmlLoops {
  import opened Arithmetic
  import opened Bytes
  import opened Wrappers
  import opened Ebml

  method VintLength(first: byte) returns (n: nat)
    ensures n == VintLen(first)
  {
    hide HasBit;
    for i := 0 to 8
      invariant VintLen(first) == VintLenFrom(first, i)
    {
      if first as int / Marker(i + 1) % 2 == 1 {
        HasBitIs(first, i);
        return i + 1;
      }
      HasBitIs(first, i);
    }
    return 0;
  }

  lemma {:induction false} HasBitIs(first: byte, i: nat)
    requires i < 8
    ensures HasBit(first, i) <==> first as int / Marker(i + 1) % 2 == 1
  {
  }

  method SizeLength(v: u64) returns (n: nat)
    ensures n == SizeLen(v)
  {
    hide Limit;
    n := 1;
    while n < 8 && v >= Limit(n) - 1
      invariant 1 <= n <= 8 && SizeLen(v) == SizeLenFrom(v, n)
    {
      n := n + 1;
    }
  }

  /** v shifted right by i bytes. */
  function Down(v: nat, i: nat): nat {
    if i == 0 then v else Down(v / 256, i - 1)
  }

  lemma {:induction false} BigHigh(v: nat, n: nat, k: nat)
    requires k <= n
    ensures Big(v, n)[..k] == Big(Down(v, n - k), k)
    decreases n
  {
    if k < n {
      BigHigh(v / 256, n - 1, k);
      assert Big(v, n)[..k] == Big(v / 256, n - 1)[..k];
    } else {
      assert Big(v, n)[..k] == Big(v, n);
    }
  }

  lemma {:induction false} BigByte(v: nat, n: nat, k: nat)
    requires k < n
    ensures Big(v, n)[..k + 1] == Big(v, n)[..k] + [Down(v, n - 1 - k) % 256]
  {
    BigHigh(v, n, k + 1);
    var s := Big(v, n);
    assert Big(Down(v, n - 1 - k), k + 1)[k] == Down(v, n - 1 - k) % 256;
    assert s[..k + 1] == s[..k] + [s[..k + 1][k]];
  }

  /** Bytes from the highest to the lowest. */
  method PutBig(v: nat, n: nat) returns (b: bytes)
    ensures b == Big(v, n)
  {
    hide Big, Down;
    b := [];
    assert Big(v, n)[..0] == [];
    for k := 0 to n
      invariant b == Big(v, n)[..k]
    {
      BigByte(v, n, k);
      b := b + [Down(v, n - 1 - k) % 256];
    }
    assert Big(v, n)[..n] == Big(v, n);
  }

  method PutSize(v: u64, n: nat) returns (b: bytes)
    requires 1 <= n <= 8
    ensures b == AppendSize(v, n)
  {
    hide Big;
    var marked := if v as int / Limit(n) % 2 == 1 then v as int else v as int + Limit(n);
    b := PutBig(marked, n);
  }

  method GetBig(start: nat, b: bytes) returns (v: nat)
    ensures v == Times(start, Pow256(|b|)) + Val(b)
  {
    hide Val, Times, Pow256;
    v := start;
    PowerStep(start, 0);
    ValNone();
    assert b[..0] == [];
    for i := 0 to |b|
      invariant v == Times(start, Pow256(i)) + Val(b[..i])
    {
      PowerStep(start, i);
      ValMore(b, i);
      v := v * 256 + b[i] as int;
    }
    assert b[..|b|] == b;
  }

  lemma {:induction false} ValNone()
    ensures Val([]) == 0
  {
  }

  lemma {:induction false} ValMore(b: bytes, i: nat)
    requires i < |b|
    ensures Val(b[..i + 1]) == 256 * Val(b[..i]) + b[i] as int
  {
    assert b[..i + 1][..i] == b[..i];
  }

  method GetVint(b: bytes) returns (r: Result<Vint, Error>)
    ensures r == ReadVint(b)
  {
    hide VintLen, Val, Times, Pow256, Limit;
    if |b| == 0 {
      return Err(BadVint);
    }
    var n := VintLength(b[0]);
    if n == 0 || |b| < n {
      return Err(BadVint);
    }
    UnmarkedBound(b, n);
    var v := GetBig(b[0] as int % Marker(n), b[1..n]);
    return Ok(Vint(v, n, v == Limit(n) - 1));
  }

  method GetUint(b: bytes) returns (r: Result<u64, Error>)
    ensures r == ReadUint(b)
  {
    hide Val, Times, Pow256;
    if |b| > 8 {
      return Err(TooLarge);
    }
    var v := GetBig(0, b);
    TimesZero(Pow256(|b|));
    UintBound(b);
    return Ok(v);
  }

  method PutUint(v: u64) returns (b: bytes)
    ensures b == UintPayload(v)
  {
    hide Pow256, Big;
    var n := 1;
    while n < 8 && v as int / Pow256(n) != 0
      invariant 1 <= n <= 8 && UintLenFrom(v, 1) == UintLenFrom(v, n)
    {
      n := n + 1;
    }
    b := PutBig(v, n);
  }

  method PutInt(v: i64) returns (b: bytes)
    ensures b == IntPayload(v)
  {
    hide FitsSigned, Big;
    var n := 1;
    while n < 8 && !FitsSigned(v, n)
      invariant 1 <= n <= 8 && IntLenFrom(v, 1) == IntLenFrom(v, n)
    {
      n := n + 1;
    }
    b := PutBig(if v < 0 then v + TWO_64 else v, n);
  }

  /** The first byte sign extended, the others shifted in. */
  method GetInt(b: bytes) returns (r: Result<int, Error>)
    ensures r == ReadInt(b)
  {
    hide Val, Times, Pow256;
    if |b| > 8 {
      return Err(TooLarge);
    }
    var v: int := 0;
    for i := 0 to |b|
      invariant i == 0 ==> v == 0
      invariant i > 0 ==> v == SignedVal(b[..i])
    {
      ValMore(b, i);
      SignedMore(b, i);
      if i == 0 {
        v := if b[0] >= 0x80 then b[0] as int - 0x100 else b[0];
      } else {
        v := v * 256 + b[i] as int;
      }
    }
    SignedEnds(b);
    return Ok(v);
  }

  lemma {:induction false} SignedMore(b: bytes, i: nat)
    requires i < |b|
    ensures SignedVal(b[..i + 1]) ==
      if i == 0 then if b[0] >= 0x80 then b[0] as int - 0x100 else b[0] as int
      else SignedVal(b[..i]) * 256 + b[i] as int
  {
    hide Val;
    ValMore(b, i);
    ValNone();
    assert b[..0] == [];
    assert Pow256(1) == 256 * Pow256(0);
  }

  lemma {:induction false} SignedEnds(b: bytes)
    ensures SignedVal(b[..|b|]) == SignedVal(b) && (b == [] ==> SignedVal(b) == 0)
  {
    assert b[..|b|] == b;
  }

  /** Walks the elements of a master payload, calling back with each. */
  method WalkChildren(payload: bytes) returns (seen: seq<Child>, err: Option<Error>)
    ensures (seen, err) == EachChild(payload)
  {
    hide NextChild;
    seen := [];
    var b := payload;
    assert [] + EachChild(payload).0 == EachChild(payload).0;
    while |b| > 0
      invariant EachChild(payload) == (seen + EachChild(b).0, EachChild(b).1)
      decreases |b|
    {
      NextShrinks(b);
      var one := NextChild(b);
      if one.Err? {
        assert seen + [] == seen;
        return seen, Some(one.error);
      }
      assert seen + ([one.value.0] + EachChild(one.value.1).0) == (seen + [one.value.0]) + EachChild(one.value.1).0;
      seen := seen + [one.value.0];
      b := one.value.1;
    }
    assert seen + [] == seen;
    return seen, None;
  }

  lemma {:induction false} NextShrinks(b: bytes)
    requires b != []
    ensures NextChild(b).Ok? ==> |NextChild(b).value.1| < |b|
  {
  }
}
