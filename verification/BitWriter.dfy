/** The bit writer: a byte buffer that grows, zero beyond the write position. */
module BitWriter {
  import opened Bytes
  import opened BitCodes
  import opened BitFields
  import opened BitStreams

  /** A byte with n bits of v put in after its first `off` bits, the rest of it being zero. */
  function Placed(b: byte, off: nat, v: nat, n: nat): nat
    requires off + n <= 8
  {
    b + Shifted(v % Pow2(n), 8 - off - n)
  }

  lemma {:induction false} NumZeros(n: nat)
    ensures Num(Zeros(n)) == 0
  {
    if n > 0 {
      assert Zeros(n)[..n - 1] == Zeros(n - 1);
      NumZeros(n - 1);
    }
  }

  lemma {:induction false} ByteNum(b: byte)
    ensures Num(BitsOf(b, 8)) == b
  {
    NumBits(b, 8);
    assert Pow2(8) == 256;
  }

  /** The number of a byte whose bits past `off` are zero. */
  lemma {:induction false} HighPart(b: byte, off: nat)
    requires off <= 8 && BitsOf(b, 8)[off..] == Zeros(8 - off)
    ensures b == Shifted(Num(BitsOf(b, 8)[..off]), 8 - off)
  {
    ByteNum(b);
    var s := BitsOf(b, 8);
    assert s == s[..off] + s[off..];
    NumConcat(s[..off], s[off..]);
    NumZeros(8 - off);
  }

  lemma {:induction false} PlacedBits(b: byte, off: nat, v: nat, n: nat)
    requires off + n <= 8 && BitsOf(b, 8)[off..] == Zeros(8 - off)
    ensures Placed(b, off, v, n) < 0x100
    ensures BitsOf(Placed(b, off, v, n), 8) == BitsOf(b, 8)[..off] + (BitsOf(v, n) + Zeros(8 - off - n))
  {
    hide Num, BitsOf, Pow2;
    var high, low := BitsOf(b, 8)[..off], BitsOf(v, n) + Zeros(8 - off - n);
    var all := high + low;
    HighPart(b, off);
    NumConcat(high, low);
    NumConcat(BitsOf(v, n), Zeros(8 - off - n));
    NumZeros(8 - off - n);
    NumBits(v, n);
    NumBound(all);
    assert Num(all) == Placed(b, off, v, n);
    assert Pow2(8) == 256 by { Pow2Eight(); }
    ByteNum(Placed(b, off, v, n));
    NumInjective(BitsOf(Placed(b, off, v, n), 8), all);
  }

  lemma {:induction false} Pow2Eight()
    ensures Pow2(8) == 256
  {
  }

  lemma {:induction false} FlatUpdate(b: bytes, i: nat, x: byte)
    requires i < |b|
    ensures Flat(b[i := x]) == Flat(b)[..8 * i] + BitsOf(x, 8) + Flat(b)[8 * i + 8..]
  {
    hide Flat, BitsOf;
    var c := b[i := x];
    FlatAt(b, i);
    FlatAt(c, i);
    assert c[..i] == b[..i] && c[i + 1..] == b[i + 1..];
    var s := Flat(c);
    assert s == s[..8 * i] + s[8 * i..8 * i + 8] + s[8 * i + 8..];
  }

  // ---------------------------------------------------------------------------
  // Zero bits at the end of a buffer, byte by byte
  // ---------------------------------------------------------------------------

  /** The low n bits of a number. */
  function Low(v: nat, n: nat): (x: nat)
    ensures x <= v
  {
    LowAtMost(v, Pow2(n));
    v % Pow2(n)
  }

  lemma {:induction false} LowAtMost(v: nat, m: nat)
    requires m > 0
    ensures v % m <= v
  {
    assert v == v / m * m + v % m;
  }

  lemma {:induction false} NumLow(v: nat, n: nat)
    ensures Num(BitsOf(v, n)) == Low(v, n) && BitsOf(Low(v, n), n) == BitsOf(v, n)
    ensures Low(v, 0) == 0
  {
    NumBits(v, n);
    BitsMod(v, n);
  }

  /** Nothing is set in a byte after its first `off` bits. */
  predicate LowZero(v: byte, off: nat)
    requires off <= 8
  {
    Low(v, 8 - off) == 0
  }

  /** Nothing is set behind the first `off` bits of byte `at`. */
  predicate ZeroFrom(b: bytes, at: nat, off: nat)
    requires off < 8
  {
    (at < |b| ==> LowZero(b[at], off)) && forall i :: at < i < |b| ==> b[i] == 0
  }

  lemma {:induction false} LowZeroIff(v: byte, off: nat)
    requires off <= 8
    ensures BitsOf(v, 8)[off..] == Zeros(8 - off) <==> LowZero(v, off)
  {
    hide BitsOf, Num, Low;
    BitsSuffix(v, 8, off);
    NumLow(v, 8 - off);
    NumZeros(8 - off);
    if LowZero(v, off) {
      NumInjective(BitsOf(v, 8 - off), Zeros(8 - off));
    }
  }

  /** A byte that sets nothing behind the first `off` bits of byte `at` when it is stored at i. */
  predicate Leaves(v: byte, i: int, at: nat, off: nat)
    requires off < 8
  {
    i < at || if i == at then LowZero(v, off) else v == 0
  }

  lemma {:induction false} ZeroFromSet(b: bytes, at: nat, off: nat, i: nat, v: byte)
    requires off < 8 && i < |b| && ZeroFrom(b, at, off)
    ensures ZeroFrom(b[i := v], at, off) <==> Leaves(v, i, at, off)
  {
    hide LowZero;
    assert b[i := v][i] == v;
  }

  lemma {:induction false} LeavesBefore(v: byte, i: int, at: nat, off: nat)
    requires off < 8
    ensures i < at ==> Leaves(v, i, at, off)
  {
  }

  lemma {:induction false} ZeroFromSetTwo(b: bytes, at: nat, off: nat, i: nat, v: byte, w: byte)
    requires off < 8 && i + 1 < |b| && ZeroFrom(b, at, off)
    ensures ZeroFrom(b[i := v][i + 1 := w], at, off) <==> Leaves(v, i, at, off) && Leaves(w, i + 1, at, off)
  {
    hide LowZero;
    var c := b[i := v][i + 1 := w];
    assert c[i] == v && c[i + 1] == w;
  }

  lemma {:induction false} LowZeroWhole(v: byte)
    ensures LowZero(v, 0) <==> v == 0
  {
    Pow2Eight();
  }

  lemma {:induction false} TailSplit(b: bytes, at: nat, off: nat)
    requires off < 8 && at < |b|
    ensures Flat(b)[8 * at + off..] == BitsOf(b[at], 8)[off..] + Flat(b)[8 * (at + 1)..]
  {
    hide Flat, BitsOf;
    FlatAt(b, at);
    var s := Flat(b);
    assert s[8 * at + off..] == s[8 * at..8 * at + 8][off..] + s[8 * at + 8..];
  }

  lemma {:induction false} ZerosSplit(a: BitCodes.bits, c: BitCodes.bits)
    ensures a + c == Zeros(|a| + |c|) <==> a == Zeros(|a|) && c == Zeros(|c|)
  {
    assert a == (a + c)[..|a|] && c == (a + c)[|a|..];
    if a == Zeros(|a|) && c == Zeros(|c|) {
      assert a + c == Zeros(|a| + |c|);
    }
  }

  lemma {:induction false} ZeroFromIff(b: bytes, at: nat, off: nat)
    requires off < 8 && at <= |b| && (at == |b| ==> off == 0)
    ensures Flat(b)[8 * at + off..] == Zeros(8 * |b| - 8 * at - off) <==> ZeroFrom(b, at, off)
    decreases |b| - at
  {
    hide Flat, BitsOf, LowZero;
    if at < |b| {
      ZeroFromIff(b, at + 1, 0);
      TailSplit(b, at, off);
      LowZeroIff(b[at], off);
      ZerosSplit(BitsOf(b[at], 8)[off..], Flat(b)[8 * (at + 1)..]);
      if at + 1 < |b| {
        LowZeroWhole(b[at + 1]);
      }
    }
  }

  /** What a byte put in off a boundary leaves behind reads back right only if it is nothing. */
  lemma {:induction false} SpillIff(v: byte, off: nat)
    requires 0 < off < 8
    ensures var x := Low(v, off);
      x < 0x100 && (LowZero(x, off) && BitsOf(x, 8)[..off] == BitsOf(v, off) <==> x == 0)
  {
    hide BitsOf, Num, Down, Low;
    var x := Low(v, off);
    BitsPrefix(x, 8, off);
    NumLow(v, off);
    NumLow(Down(x, 8 - off), off);
    DownShrinks(x, 8 - off);
    if x == 0 {
      assert Low(0, 8 - off) == 0;
    }
  }

  lemma {:induction false} DownShrinks(x: nat, n: nat)
    requires n > 0
    ensures x > 0 ==> Down(x, n) < x
    ensures x == 0 ==> Down(x, n) == 0
  {
    if n > 1 {
      DownShrinks(x / 2, n - 1);
    }
  }

  class BitStreamWriter {
    var bits: bytes
    var byteOffset: nat
    var bitOffset: nat
    var err: bool

    ghost predicate Valid()
      reads this
    {
      Within() && Flat(bits)[Pos()..] == Zeros(8 * |bits| - Pos())
    }

    /** The write position lies within the buffer. */
    ghost predicate Within()
      reads this
    {
      bitOffset < 8 && byteOffset <= |bits| && (byteOffset == |bits| ==> bitOffset == 0)
    }

    ghost function Pos(): nat
      reads this
    {
      8 * byteOffset + bitOffset
    }

    ghost function Contents(): BitCodes.bits
      requires Within()
      reads this
    {
      Flat(bits)[..Pos()]
    }

    constructor (n: nat)
      ensures Valid() && Contents() == [] && !err && Pos() == 0
    {
      bits, byteOffset, bitOffset, err := seq(n, _ => 0), 0, 0, false;
      new;
      FlatZeros(bits);
    }

    /** Makes room for n more bits, keeping what is there. */
    method ExpandSpace(n: nat)
      requires Valid()
      modifies this`bits
      ensures Valid() && Contents() == old(Contents()) && |bits| >= old(|bits|)
      ensures 8 * |bits| - Pos() >= n
    {
      hide Flat;
      if (|bits| - byteOffset - 1) * 8 + 8 - bitOffset < n {
        var newlen := if |bits| * 8 < n then |bits| + n / 8 + 1 else |bits| * 2;
        ghost var was := bits;
        Extended(bits, newlen - |bits|, Pos());
        bits := bits + seq(newlen - |bits|, _ => 0);
      }
    }

    /** At most what is left of the current byte. */
    method PutInByte(v: nat, n: nat)
      requires Valid() && 1 <= n <= 8 - bitOffset && byteOffset < |bits|
      modifies this`bits, this`byteOffset, this`bitOffset
      ensures Valid() && Contents() == old(Contents()) + BitsOf(v, n)
      ensures |bits| == old(|bits|) && Pos() == old(Pos()) + n
    {
      hide Flat, BitsOf, Placed;
      PlaceInFlat(bits, byteOffset, bitOffset, v, n);
      bits := bits[byteOffset := Placed(bits[byteOffset], bitOffset, v, n)];
      bitOffset := bitOffset + n;
      if bitOffset == 8 {
        bitOffset := 0;
        byteOffset := byteOffset + 1;
      }
    }

    /** Whole bytes of v, then what is left, from a byte boundary. */
    method PutBytewise(v: nat, n0: nat)
      requires Valid() && bitOffset == 0 && 8 * |bits| - Pos() >= n0
      modifies this`bits, this`byteOffset, this`bitOffset
      ensures Valid() && Contents() == old(Contents()) + BitsOf(v, n0)
    {
      hide Flat, BitsOf, Down;
      var n: nat := n0;
      assert BitsOf(v, n0)[..0] == [];
      while n >= 8
        invariant n <= n0 && Valid() && bitOffset == 0 && 8 * |bits| - Pos() >= n
        invariant Contents() == old(Contents()) + BitsOf(v, n0)[..n0 - n]
        decreases n
      {
        PartOf(v, n0, n, 8);
        PutInByte(Down(v, n - 8), 8);
        n := n - 8;
      }
      if n > 0 {
        PartOf(v, n0, n, n);
        assert Down(v, 0) == v by { DownNone(v); }
        PutInByte(v, n);
      }
      assert BitsOf(v, n0)[..n0] == BitsOf(v, n0);
    }

    method PutUint64(v: u64, n: int)
      requires Valid()
      modifies this
      ensures Valid() && err == (old(err) || n <= 0 || n > 64)
      ensures Contents() == if err then old(Contents()) else old(Contents()) + BitsOf(v, n)
    {
      hide Flat, BitsOf, Down;
      if err {
        return;
      }
      if n <= 0 || n > 64 {
        err := true;
        return;
      }
      ExpandSpace(n);
      if 8 - bitOffset >= n {
        PutInByte(v, n);
      } else {
        var first := 8 - bitOffset;
        PartOf(v, n, n, first);
        PutInByte(Down(v, n - first), first);
        PutBytewise(v, n - first);
        SplitBits(v, n, first);
      }
    }

    /**
     * On a byte boundary the byte lands where the bits end. Off it, its high bits fill up the current
     * byte, and the low ones land at the wrong end of the next: the byte is appended, with nothing set
     * behind it, exactly when those low bits are zero.
     */
    method PutByte(v: byte)
      requires Valid()
      modifies this
      ensures Within() && bitOffset == old(bitOffset) && Pos() == old(Pos()) + 8 && err == old(err)
      ensures Valid() && Contents() == old(Contents()) + BitsOf(v, 8) <==> Low(v, bitOffset) == 0
      ensures bitOffset > 0 ==> Spilled(bits, byteOffset, bitOffset, old(Contents()), v)
    {
      hide Flat, BitsOf, Low, Down, Spilled, ZeroFrom;
      ExpandSpace(8);
      if bitOffset == 0 {
        NumLow(v, 0);
        PutInByte(v, 8);
      } else {
        var low := bitOffset;
        PutInByte(Down(v, low), 8 - low);
        Spill(v, low, old(Contents()));
      }
    }

    /** The low bits of a byte put in off a boundary, stored as a number of their own. */
    method Spill(v: byte, low: nat, ghost was: BitCodes.bits)
      requires Valid() && bitOffset == 0 && byteOffset < |bits| && 0 < low < 8
      requires Contents() == was + BitsOf(Down(v, low), 8 - low)
      modifies this`bits, this`bitOffset
      ensures Within() && bitOffset == low && byteOffset == old(byteOffset)
      ensures Valid() && Contents() == was + BitsOf(v, 8) <==> Low(v, low) == 0
      ensures Spilled(bits, byteOffset, bitOffset, was, v)
    {
      hide Flat, BitsOf, Low, Down, Spilled, ZeroFrom;
      SpillIff(v, low);
      ZeroFromIff(bits, byteOffset, 0);
      SpilledIff(bits, byteOffset, low, was, v);
      bits := bits[byteOffset := Low(v, low)];
      bitOffset := low;
    }

    method PutBytes(v: bytes)
      requires Valid()
      modifies this
      ensures Valid() && err == (old(err) || old(bitOffset) != 0)
      ensures Contents() == if err then old(Contents()) else old(Contents()) + Flat(v)
    {
      hide Flat;
      if err {
        return;
      }
      if bitOffset != 0 {
        err := true;
        return;
      }
      ExpandSpace(8 * |v|);
      CopyInFlat(bits, byteOffset, v);
      bits := bits[..byteOffset] + v + bits[byteOffset + |v|..];
      byteOffset := byteOffset + |v|;
    }

    /** The same byte n times, on a boundary. */
    method PutRepeated(v: byte, n: nat)
      requires Valid()
      modifies this
      ensures Valid() && err == (old(err) || old(bitOffset) != 0)
      ensures Contents() == if err then old(Contents()) else old(Contents()) + Flat(seq(n, _ => v))
    {
      hide Flat, BitsOf;
      if err {
        return;
      }
      if bitOffset != 0 {
        err := true;
        return;
      }
      ExpandSpace(8 * n);
      FlatNone();
      assert seq(0, _ => v) == [];
      ghost var was := Contents();
      for i := 0 to n
        invariant Valid() && bitOffset == 0 && !err && 8 * |bits| - Pos() >= 8 * (n - i)
        invariant Contents() == was + Flat(seq(i, _ => v))
      {
        assert seq(i + 1, _ => v) == seq(i, _ => v) + [v];
        FlatMore(seq(i, _ => v), v);
        PutInByte(v, 8);
      }
    }

    /**
     * Patches a byte of the buffer; a position outside it is an error. A patch at or behind the write
     * position keeps the buffer zero beyond it exactly when the byte has nothing to set there.
     */
    method SetByte(v: byte, at: int)
      requires Within()
      modifies this`bits, this`err
      ensures Within() && bits == (if 0 <= at < |old(bits)| then old(bits)[at := v] else old(bits))
      ensures err == (old(err) || !(0 <= at < |bits|))
      ensures old(Valid()) ==> (Valid() <==> at >= |bits| || Leaves(v, at, byteOffset, bitOffset))
    {
      hide Flat, LowZero, Leaves, ZeroFrom;
      if at < 0 || at >= |bits| {
        assert Leaves(v, at, byteOffset, bitOffset) || at >= |bits| by { LeavesBefore(v, at, byteOffset, bitOffset); }
        err := true;
        return;
      }
      ZeroFromIff(bits, byteOffset, bitOffset);
      if ZeroFrom(bits, byteOffset, bitOffset) {
        ZeroFromSet(bits, byteOffset, bitOffset, at, v);
      }
      bits := bits[at := v];
      ZeroFromIff(bits, byteOffset, bitOffset);
    }

    /** Patches two bytes of the buffer. */
    method SetUint16(v: u16, at: int)
      requires Within()
      modifies this`bits, this`err
      ensures Within()
      ensures bits == if 0 <= at && at + 2 <= |old(bits)| then old(bits)[at := v / 0x100][at + 1 := v % 0x100] else old(bits)
      ensures err == (old(err) || !(0 <= at && at + 2 <= |bits|))
      ensures old(Valid()) && 0 <= at && at + 2 <= |bits| ==> (Valid() <==>
        Leaves(v / 0x100, at, byteOffset, bitOffset) && Leaves(v % 0x100, at + 1, byteOffset, bitOffset))
    {
      hide Flat, LowZero, Leaves, ZeroFrom;
      if at < 0 || at + 2 > |bits| {
        err := true;
        return;
      }
      ZeroFromIff(bits, byteOffset, bitOffset);
      if ZeroFrom(bits, byteOffset, bitOffset) {
        ZeroFromSetTwo(bits, byteOffset, bitOffset, at, v / 0x100, v % 0x100);
      }
      SetByte(v / 0x100, at);
      SetByte(v % 0x100, at + 1);
      ZeroFromIff(bits, byteOffset, bitOffset);
    }

    method Reset()
      modifies this
      ensures Valid() && Contents() == [] && !err && Pos() == 0 && |bits| == old(|bits|)
    {
      err, bits, byteOffset, bitOffset := false, seq(|bits|, _ => 0), 0, 0;
      FlatZeros(bits);
    }

    /** The bytes written, the last one filled up with zero bits. */
    method Bits() returns (b: bytes)
      requires Valid()
      ensures 8 * |b| - 8 < |Contents()| <= 8 * |b| && Flat(b) == Contents() + Zeros(8 * |b| - |Contents()|)
    {
      hide Flat;
      if byteOffset == |bits| {
        b := bits;
      } else if bitOffset > 0 {
        b := bits[..byteOffset + 1];
      } else {
        b := bits[..byteOffset];
      }
      CutFlat(bits, |b|, Pos());
      assert bits[..|bits|] == bits;
    }
  }

  /** The high bits of v after what was there, its low bits as the number of the next byte, and nothing more. */
  ghost predicate Spilled(b: bytes, at: nat, off: nat, was: BitCodes.bits, v: byte)
    requires 0 < off < 8
  {
    && at < |b| && b[at] as int == Low(v, off)
    && Flat(b)[..8 * at] == was + BitsOf(Down(v, off), 8 - off)
    && forall i :: at < i < |b| ==> b[i] == 0
  }

  lemma {:induction false} SpilledIff(b: bytes, at: nat, off: nat, was: BitCodes.bits, v: byte)
    requires 0 < off < 8 && at < |b| && ZeroFrom(b, at, 0)
    requires Flat(b)[..8 * at] == was + BitsOf(Down(v, off), 8 - off)
    ensures Low(v, off) < 0x100
    ensures var c := b[at := Low(v, off)];
      && Spilled(c, at, off, was, v)
      && (Flat(c)[8 * at + off..] == Zeros(8 * |c| - 8 * at - off) && Flat(c)[..8 * at + off] == was + BitsOf(v, 8)
          <==> Low(v, off) == 0)
  {
    hide Flat, BitsOf, Low, Down, LowZero;
    SpillIff(v, off);
    var x := Low(v, off);
    var c, high := b[at := x], BitsOf(Down(v, off), 8 - off);
    SplitBits(v, 8, 8 - off);
    ZeroFromIff(c, at, off);
    SpillInFlat(b, at, x, off);
    assert was + (high + BitsOf(v, off)) == was + high + BitsOf(v, off);
    SameEnds(was + high, BitsOf(x, 8)[..off], BitsOf(v, off));
  }

  lemma {:induction false} SpillInFlat(b: bytes, at: nat, x: byte, off: nat)
    requires off < 8 && at < |b|
    ensures Flat(b[at := x])[..8 * at] == Flat(b)[..8 * at]
    ensures Flat(b[at := x])[..8 * at + off] == Flat(b)[..8 * at] + BitsOf(x, 8)[..off]
  {
    hide Flat, BitsOf;
    FlatUpdate(b, at, x);
    var s := Flat(b[at := x]);
    assert s[..8 * at + off] == s[..8 * at] + s[8 * at..8 * at + 8][..off];
    FlatAt(b[at := x], at);
  }

  lemma {:induction false} SameEnds(a: BitCodes.bits, c: BitCodes.bits, d: BitCodes.bits)
    ensures a + c == a + d <==> c == d
  {
    assert (a + c)[|a|..] == c && (a + d)[|a|..] == d;
  }

  lemma {:induction false} Extended(b: bytes, more: nat, p: nat)
    requires p <= 8 * |b| && Flat(b)[p..] == Zeros(8 * |b| - p)
    ensures var c := b + seq(more, _ => 0);
      Flat(c)[..p] == Flat(b)[..p] && Flat(c)[p..] == Zeros(8 * |c| - p)
  {
    var z := seq(more, _ => 0);
    FlatConcat(b, z);
    FlatZeros(z);
    assert (Flat(b) + Flat(z))[p..] == Flat(b)[p..] + Flat(z);
  }

  lemma {:induction false} FlatNone()
    ensures Flat([]) == []
  {
  }

  lemma {:induction false} FlatMore(b: bytes, v: byte)
    ensures Flat(b + [v]) == Flat(b) + BitsOf(v, 8)
  {
    assert (b + [v])[..|b|] == b;
  }

  lemma {:induction false} DownNone(v: nat)
    ensures Down(v, 0) == v
  {
  }

  lemma {:induction false} PlaceInFlat(b: bytes, i: nat, off: nat, v: nat, n: nat)
    requires i < |b| && off + n <= 8 && Flat(b)[8 * i + off..] == Zeros(8 * |b| - 8 * i - off)
    ensures Placed(b[i], off, v, n) < 0x100
    ensures var s := Flat(b[i := Placed(b[i], off, v, n)]); var p := 8 * i + off;
      && s[..p + n] == Flat(b)[..p] + BitsOf(v, n) && s[p + n..] == Zeros(8 * |b| - p - n)
  {
    hide BitsOf, Placed, Flat;
    var s, p := Flat(b), 8 * i + off;
    var tail, all := 8 * |b| - 8 * i - 8, 8 * |b| - p;
    FlatAt(b, i);
    ByteInZeros(s, 8 * i, off, all);
    PlacedBits(b[i], off, v, n);
    FlatUpdate(b, i, Placed(b[i], off, v, n));
    Regroup(s[..8 * i], s[8 * i..8 * i + 8][..off], BitsOf(v, n), 8 - off - n, tail);
    Adjacent(s, 8 * i, off);
  }

  lemma {:induction false} Adjacent(s: BitCodes.bits, at: nat, off: nat)
    requires off <= 8 && at + 8 <= |s|
    ensures s[..at] + s[at..at + 8][..off] == s[..at + off]
  {
  }

  /** The byte at a position beyond which all is zero, and what follows it. */
  lemma {:induction false} ByteInZeros(s: BitCodes.bits, at: nat, off: nat, all: nat)
    requires off <= 8 && at + 8 <= |s| && all == |s| - at - off && s[at + off..] == Zeros(all)
    ensures s[at..at + 8][off..] == Zeros(8 - off) && s[at + 8..] == Zeros(|s| - at - 8)
  {
    assert s[at..at + 8][off..] == s[at + off..][..8 - off];
    assert s[at + 8..] == s[at + off..][8 - off..];
  }

  lemma {:induction false} Regroup(a: BitCodes.bits, high: BitCodes.bits, low: BitCodes.bits, gap: nat, tail: nat)
    ensures var t := a + (high + (low + Zeros(gap))) + Zeros(tail); var n := |a| + |high| + |low|;
      t[..n] == a + high + low && t[n..] == Zeros(gap + tail)
  {
    var t := a + (high + (low + Zeros(gap))) + Zeros(tail);
    assert t == (a + high + low) + (Zeros(gap) + Zeros(tail));
  }

  /** The k bits of v below its first n0 - n. */
  lemma {:induction false} PartOf(v: nat, n0: nat, n: nat, k: nat)
    requires k <= n <= n0
    ensures BitsOf(v, n0)[..n0 - n] + BitsOf(Down(v, n - k), k) == BitsOf(v, n0)[..n0 - n + k]
  {
    hide BitsOf;
    var s := BitsOf(v, n0);
    BitsSuffix(v, n0, n0 - n);
    BitsPrefix(v, n, k);
    assert s[..n0 - n + k] == s[..n0 - n] + s[n0 - n..][..k];
  }

  lemma {:induction false} SplitBits(v: nat, n: nat, k: nat)
    requires k <= n
    ensures BitsOf(Down(v, n - k), k) + BitsOf(v, n - k) == BitsOf(v, n)
  {
    BitsPrefix(v, n, k);
    BitsSuffix(v, n, k);
  }

  lemma {:induction false} CopyInFlat(b: bytes, i: nat, v: bytes)
    requires i + |v| <= |b| && Flat(b)[8 * i..] == Zeros(8 * |b| - 8 * i)
    ensures var c := b[..i] + v + b[i + |v|..];
      && |c| == |b| && Flat(c)[..8 * (i + |v|)] == Flat(b)[..8 * i] + Flat(v)
      && Flat(c)[8 * (i + |v|)..] == Zeros(8 * |b| - 8 * (i + |v|))
  {
    var c := b[..i] + v + b[i + |v|..];
    FlatConcat(b[..i] + v, b[i + |v|..]);
    FlatConcat(b[..i], v);
    SplitFlat(b, i);
    SplitFlat(b, i + |v|);
    assert Flat(b)[8 * i..][8 * |v|..] == Flat(b)[8 * (i + |v|)..];
    assert Zeros(8 * |b| - 8 * i)[8 * |v|..] == Zeros(8 * |b| - 8 * (i + |v|));
  }

  lemma {:induction false} CutFlat(b: bytes, k: nat, p: nat)
    requires k <= |b| && p <= 8 * k && Flat(b)[p..] == Zeros(8 * |b| - p)
    ensures Flat(b[..k]) == Flat(b)[..p] + Zeros(8 * k - p)
  {
    SplitFlat(b, k);
    var s := Flat(b);
    assert s[..8 * k] == s[..p] + s[p..][..8 * k - p];
    assert Zeros(8 * |b| - p)[..8 * k - p] == Zeros(8 * k - p);
  }

  /** Any fields, through a writer of any initial capacity and a reader on what it wrote. */
  method FieldsThrough(capacity: nat, fields: seq<Field>) returns (values: seq<nat>)
    requires forall i :: 0 <= i < |fields| ==> Writable(fields[i])
    ensures values == ValuesOf(fields)
  {
    hide Flat, BitsOf, Get, PutAll, GetAll, Writable;
    var w := new BitStreamWriter(capacity);
    PutFields(w, fields);
    assert [] + PutAll(fields) == PutAll(fields);
    var b := w.Bits();
    ghost var pad := Zeros(8 * |b| - |w.Contents()|);
    var r := new BitStream(b);
    FieldsRoundTrip(fields, pad);
    values := ReadFields(r, WidthsOf(fields));
  }

  method PutFields(w: BitStreamWriter, fields: seq<Field>)
    requires w.Valid() && !w.err && forall i :: 0 <= i < |fields| ==> Writable(fields[i])
    modifies w
    ensures w.Valid() && !w.err && w.Contents() == old(w.Contents()) + PutAll(fields)
  {
    hide Flat, BitsOf, PutAll, Writable;
    PutAllEmpty();
    assert fields[..0] == [];
    ghost var was := w.Contents();
    for i := 0 to |fields|
      invariant w.Valid() && !w.err && w.Contents() == was + PutAll(fields[..i])
    {
      assert Writable(fields[i]);
      WritableIs(fields[i]);
      PutAllMore(fields[..i], fields[i]);
      assert fields[..i + 1] == fields[..i] + [fields[i]];
      w.PutUint64(fields[i].value, fields[i].width);
    }
    assert fields[..|fields|] == fields;
  }

  method ReadFields(r: BitStream, widths: seq<nat>) returns (values: seq<nat>)
    requires r.Valid()
    modifies r
    ensures r.Valid() && (values, r.S()) == GetAll(old(r.S()), widths) && r.bits == old(r.bits)
  {
    hide Flat, Get;
    values := [];
    ghost var all := GetAll(r.S(), widths);
    assert widths[0..] == widths && [] + all.0 == all.0;
    for i := 0 to |widths|
      invariant r.Valid() && r.bits == old(r.bits)
      invariant all == (values + GetAll(r.S(), widths[i..]).0, GetAll(r.S(), widths[i..]).1)
    {
      GetAllStep(r.S(), widths[i..], values);
      assert widths[i..][1..] == widths[i + 1..];
      var v := r.GetBits(widths[i]);
      values := values + [v];
    }
    assert values + [] == values;
  }

  lemma {:induction false} GetAllStep(r: Reader, widths: seq<nat>, before: seq<nat>)
    requires widths != []
    ensures var one := Get(r, widths[0]); var rest := GetAll(one.1, widths[1..]);
      && before + GetAll(r, widths).0 == before + [one.0] + rest.0 && GetAll(r, widths).1 == rest.1
  {
    hide Get;
    var one := Get(r, widths[0]);
    var rest := GetAll(one.1, widths[1..]).0;
    assert before + ([one.0] + rest) == before + [one.0] + rest;
  }

  lemma {:induction false} WritableIs(f: Field)
    ensures Writable(f) <==> 1 <= f.width <= 64
  {
  }

  lemma {:induction false} PutAllEmpty()
    ensures PutAll([]) == []
  {
  }

  lemma {:induction false} PutAllMore(fields: seq<Field>, f: Field)
    ensures PutAll(fields + [f]) == PutAll(fields) + BitsOf(f.value, f.width)
  {
    hide BitsOf;
    if fields == [] {
      assert [] + [f] == [f] && [f][1..] == [];
    } else {
      assert (fields + [f])[1..] == fields[1..] + [f];
      PutAllMore(fields[1..], f);
    }
  }
}
