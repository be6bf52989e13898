/** Numbers as bits, most significant first, and bytes as runs of eight bits. */
module BitCodes {
  import opened Arithmetic
  import opened Bytes

  type bits = seq<bool>

  function Pow2(n: nat): (p: nat)
    ensures p >= 1
  {
    if n == 0 then 1 else 2 * Pow2(n - 1)
  }

  function Bit(b: bool): nat {
    if b then 1 else 0
  }

  /** The low n bits of v. */
  function BitsOf(v: nat, n: nat): (b: bits)
    ensures |b| == n
  {
    if n == 0 then [] else BitsOf(v / 2, n - 1) + [v % 2 == 1]
  }

  function Num(b: bits): nat {
    if b == [] then 0 else 2 * Num(b[..|b| - 1]) + Bit(b[|b| - 1])
  }

  /** a shifted left past n bits. */
  function Shifted(a: nat, n: nat): nat {
    a * Pow2(n)
  }

  lemma {:induction false} ShiftedStep(a: nat, n: nat)
    ensures Shifted(a, 0) == a && Shifted(a, n + 1) == 2 * Shifted(a, n)
  {
  }

  lemma {:induction false} NumConcat(a: bits, b: bits)
    ensures Num(a + b) == Shifted(Num(a), |b|) + Num(b)
  {
    hide Shifted;
    ShiftedStep(Num(a), 0);
    if b == [] {
      assert a + b == a;
    } else {
      var n := |b| - 1;
      assert (a + b)[..|a + b| - 1] == a + b[..n];
      NumConcat(a, b[..n]);
      ShiftedStep(Num(a), n);
    }
  }

  lemma {:induction false} NumBound(b: bits)
    ensures Num(b) < Pow2(|b|)
  {
    if b != [] {
      NumBound(b[..|b| - 1]);
    }
  }

  /** The bits of a number say what it is, up to the width. */
  lemma {:induction false} NumBits(v: nat, n: nat)
    ensures Num(BitsOf(v, n)) == v % Pow2(n)
  {
    if n > 0 {
      var high := BitsOf(v / 2, n - 1);
      NumBits(v / 2, n - 1);
      HalfMod(v, Pow2(n - 1));
      NumMore(high, v % 2 == 1);
      assert BitsOf(v, n) == high + [v % 2 == 1];
    }
  }

  lemma {:induction false} NumMore(b: bits, last: bool)
    ensures Num(b + [last]) == 2 * Num(b) + Bit(last)
  {
    assert (b + [last])[..|b|] == b;
  }

  lemma {:induction false} HalfMod(v: nat, p: nat)
    requires p > 0
    ensures v % (2 * p) == 2 * (v / 2 % p) + v % 2
  {
    TwoDigits(v, 2, p, 2 * p);
  }

  lemma {:induction false} BitsNum(b: bits)
    ensures BitsOf(Num(b), |b|) == b
  {
    if b != [] {
      var n := |b| - 1;
      BitsNum(b[..n]);
      assert b == b[..n] + [b[n]];
    }
  }

  /** Two strings of the same length and number are the same. */
  lemma {:induction false} NumInjective(a: bits, b: bits)
    requires |a| == |b| && Num(a) == Num(b)
    ensures a == b
  {
    BitsNum(a);
    BitsNum(b);
  }

  /** v shifted right past n bits. */
  function Down(v: nat, n: nat): nat {
    if n == 0 then v else Down(v / 2, n - 1)
  }

  /** Shifting right drops low bits. */
  lemma {:induction false} BitsPrefix(v: nat, n: nat, k: nat)
    requires k <= n
    ensures BitsOf(v, n)[..k] == BitsOf(Down(v, n - k), k)
    decreases n
  {
    if k < n {
      BitsPrefix(v / 2, n - 1, k);
      assert BitsOf(v, n)[..k] == BitsOf(v / 2, n - 1)[..k];
    } else {
      assert BitsOf(v, n)[..k] == BitsOf(v, n);
    }
  }

  /** The low bits are the bits of the remainder. */
  lemma {:induction false} BitsSuffix(v: nat, n: nat, k: nat)
    requires k <= n
    ensures BitsOf(v, n)[k..] == BitsOf(v, n - k)
    decreases n
  {
    if k < n {
      BitsSuffix(v / 2, n - 1, k);
      assert BitsOf(v, n)[k..] == BitsOf(v / 2, n - 1)[k..] + [v % 2 == 1];
    }
  }

  lemma {:induction false} BitsMod(v: nat, n: nat)
    ensures BitsOf(v % Pow2(n), n) == BitsOf(v, n)
  {
    NumBits(v, n);
    BitsNum(BitsOf(v, n));
  }

  // ---------------------------------------------------------------------------
  // Bytes
  // ---------------------------------------------------------------------------

  function Flat(b: bytes): (s: bits)
    ensures |s| == 8 * |b|
  {
    if b == [] then [] else Flat(b[..|b| - 1]) + BitsOf(b[|b| - 1], 8)
  }

  lemma {:induction false} FlatConcat(a: bytes, b: bytes)
    ensures Flat(a + b) == Flat(a) + Flat(b)
  {
    if b == [] {
      assert a + b == a;
    } else {
      var n := |b| - 1;
      assert (a + b)[..|a + b| - 1] == a + b[..n];
      FlatConcat(a, b[..n]);
    }
  }

  lemma {:induction false} FlatAt(b: bytes, i: nat)
    requires i < |b|
    ensures Flat(b)[8 * i..8 * i + 8] == BitsOf(b[i], 8)
    ensures Flat(b)[..8 * i] == Flat(b[..i]) && Flat(b)[8 * i..] == Flat(b[i..]) && Flat(b)[8 * i + 8..] == Flat(b[i + 1..])
  {
    hide Flat, BitsOf;
    FlatOne(b[i]);
    FlatThree(b[..i], [b[i]], b[i + 1..]);
    assert b == b[..i] + ([b[i]] + b[i + 1..]) && b[i..] == [b[i]] + b[i + 1..];
  }

  lemma {:induction false} FlatThree(low: bytes, one: bytes, high: bytes)
    ensures var s := Flat(low + (one + high)); var n, k := 8 * |low|, 8 * |one|;
      s[n..n + k] == Flat(one) && s[..n] == Flat(low) && s[n..] == Flat(one + high) && s[n + k..] == Flat(high)
  {
    hide Flat;
    FlatConcat(low, one + high);
    FlatConcat(one, high);
    Cut(Flat(low), Flat(one), Flat(high));
  }

  lemma {:induction false} FlatOne(x: byte)
    ensures Flat([x]) == BitsOf(x, 8)
  {
    hide BitsOf;
    assert [x][..0] == [];
  }

  lemma {:induction false} Cut(a: bits, c: bits, d: bits)
    ensures var s := a + (c + d);
      s[|a|..|a| + |c|] == c && s[..|a|] == a && s[|a|..] == c + d && s[|a| + |c|..] == d
  {
  }

  lemma {:induction false} FlatInjective(a: bytes, b: bytes)
    requires Flat(a) == Flat(b)
    ensures a == b
  {
    forall i | 0 <= i < |a|
      ensures a[i] == b[i]
    {
      SameByte(a, b, i);
    }
  }

  lemma {:induction false} SameByte(a: bytes, b: bytes, i: nat)
    requires Flat(a) == Flat(b) && i < |a|
    ensures |a| == |b| && a[i] == b[i]
  {
    hide Flat, BitsOf, Num;
    FlatAt(a, i);
    FlatAt(b, i);
    NumBits(a[i], 8);
    NumBits(b[i], 8);
    assert Pow2(8) == 256;
  }

  /** Zero bits. */
  function Zeros(n: nat): (s: bits)
    ensures |s| == n
  {
    seq(n, _ => false)
  }

  lemma {:induction false} BitsOfZero(n: nat)
    ensures BitsOf(0, n) == Zeros(n)
  {
    if n > 0 {
      BitsOfZero(n - 1);
    }
  }

  lemma {:induction false} FlatZeros(b: bytes)
    requires forall i :: 0 <= i < |b| ==> b[i] == 0
    ensures Flat(b) == Zeros(8 * |b|)
  {
    if b != [] {
      FlatZeros(b[..|b| - 1]);
      BitsOfZero(8);
    }
  }
}
