/** The bit reader and the bit writer over byte buffers. */
module BitStreams {
  import opened Bytes
  import opened BitCodes
  import opened BitFields

  /** A byte shifted right and masked. */
  function Pick(b: byte, off: nat, n: nat): nat
    requires off + n <= 8
  {
    Down(b, 8 - off - n) % Pow2(n)
  }

  /** Shifting a byte right and masking it picks out its bits. */
  lemma {:induction false} ByteSlice(b: byte, off: nat, n: nat)
    requires off + n <= 8
    ensures Num(BitsOf(b, 8)[off..off + n]) == Pick(b, off, n)
  {
    hide Down, Pow2, BitsOf, Num;
    var v := Down(b, 8 - off - n);
    BitsPrefix(b, 8, off + n);
    BitsSuffix(v, off + n, off);
    assert BitsOf(b, 8)[off..off + n] == BitsOf(b, 8)[..off + n][off..];
    NumBits(v, n);
  }

  lemma {:induction false} FlatPart(b: bytes, i: nat, from: nat, n: nat)
    requires i < |b| && from + n <= 8
    ensures Flat(b)[8 * i + from..8 * i + from + n] == BitsOf(b[i], 8)[from..from + n]
  {
    FlatAt(b, i);
    assert Flat(b)[8 * i + from..8 * i + from + n] == Flat(b)[8 * i..8 * i + 8][from..from + n];
  }

  class BitStream {
    var bits: bytes
    var bytesOffset: nat
    var bitsOffset: nat
    var err: bool

    ghost predicate Valid()
      reads this
    {
      bitsOffset < 8 && bytesOffset <= |bits| && (bytesOffset == |bits| ==> bitsOffset == 0)
    }

    ghost function Pos(): nat
      reads this
    {
      8 * bytesOffset + bitsOffset
    }

    ghost function S(): Reader
      requires Valid()
      reads this
    {
      Reader(Flat(bits)[Pos()..], err)
    }

    constructor (buf: bytes)
      ensures Valid() && bits == buf && S() == Reader(Flat(buf), false)
    {
      bits, bytesOffset, bitsOffset, err := buf, 0, 0, false;
    }

    function RemainBytes(): int
      reads this
    {
      if bitsOffset > 0 then |bits| - bytesOffset - 1 else |bits| - bytesOffset
    }

    function RemainBits(): (n: int)
      requires Valid()
      reads this
      ensures n == |S().rest|
    {
      if bitsOffset > 0 then RemainBytes() * 8 + 8 - bitsOffset else RemainBytes() * 8
    }

    /** From the current byte on, whole. */
    function RemainData(): bytes
      requires Valid()
      reads this
    {
      bits[bytesOffset..]
    }

    /** A read that stays within the current byte. */
    method GetInByte(n: nat) returns (ret: nat)
      requires Valid() && 1 <= n <= 8 - bitsOffset && bytesOffset < |bits|
      modifies this`bytesOffset, this`bitsOffset
      ensures Valid() && ret == Num(old(S()).rest[..n]) && S().rest == old(S()).rest[n..]
    {
      hide Flat, BitsOf, Num, Pick;
      ghost var s, p := Flat(bits), Pos();
      ByteSlice(bits[bytesOffset], bitsOffset, n);
      FlatPart(bits, bytesOffset, bitsOffset, n);
      assert s[p..][..n] == s[p..p + n] && s[p..][n..] == s[p + n..];
      ret := Pick(bits[bytesOffset], bitsOffset, n);
      bitsOffset := bitsOffset + n;
      if bitsOffset == 8 {
        bytesOffset := bytesOffset + 1;
        bitsOffset := 0;
      }
    }

    /** The n bits that begin at a byte boundary, after the bits already in `ret`. */
    method GetBytewise(ret0: nat, n0: nat) returns (ret: nat)
      requires Valid() && bitsOffset == 0 && n0 <= |S().rest|
      modifies this`bytesOffset, this`bitsOffset
      ensures Valid() && ret == Shifted(ret0, n0) + Num(old(S()).rest[..n0]) && S().rest == old(S()).rest[n0..]
    {
      hide Shifted, Num, Flat;
      ghost var s := S().rest;
      var n: nat := n0;
      ret := ret0;
      NumNothing(ret0);
      assert s[..0] == [] && s[0..] == s;
      while n >= 8
        invariant n <= n0 <= |s| && Valid() && bitsOffset == 0 && S().rest == s[n0 - n..]
        invariant ret == Shifted(ret0, n0 - n) + Num(s[..n0 - n])
        decreases n
      {
        ghost var k := n0 - n;
        Slices(s, k, 8);
        var b := GetInByte(8);
        JoinMore(ret0, s, k, 8);
        ret := Shifted(ret, 8) + b;
        n := n - 8;
      }
      if n > 0 {
        ghost var k := n0 - n;
        Slices(s, k, n);
        var b := GetInByte(n);
        JoinMore(ret0, s, k, n);
        ret := Shifted(ret, n) + b;
      }
    }

    method GetBits(n0: int) returns (ret: nat)
      requires Valid()
      modifies this
      ensures Valid() && (ret, S()) == Get(old(S()), n0) && bits == old(bits)
    {
      hide Num, Flat, Shifted;
      if err {
        return 0;
      }
      if n0 < 0 || n0 > 64 {
        err := true;
        return 0;
      }
      if n0 == 0 {
        return 0;
      }
      if n0 > RemainBits() {
        err := true;
        return 0;
      }
      if 8 - bitsOffset >= n0 {
        ret := GetInByte(n0);
      } else {
        ghost var s, k := S().rest, 8 - bitsOffset;
        var first := 8 - bitsOffset;
        ret := GetInByte(first);
        ret := GetBytewise(ret, n0 - first);
        assert s[..n0] == s[..k] + s[k..][..n0 - k] && s[n0..] == s[k..][n0 - k..];
        NumConcat(s[..k], s[k..][..n0 - k]);
      }
    }

    method GetBit() returns (ret: nat)
      requires Valid()
      modifies this
      ensures Valid() && (ret, S()) == Get(old(S()), 1) && bits == old(bits)
    {
      hide Num, Flat;
      if err {
        return 0;
      }
      if bytesOffset >= |bits| {
        err := true;
        return 0;
      }
      ret := GetInByte(1);
    }

    method SkipBits(n: int)
      requires Valid()
      modifies this
      ensures Valid() && S() == Skip(old(S()), n) && bits == old(bits)
    {
      hide Flat;
      if err {
        return;
      }
      if n < 0 || n > RemainBits() {
        err := true;
        return;
      }
      ghost var s, p := Flat(bits), Pos();
      bytesOffset := bytesOffset + n / 8;
      if bitsOffset + n % 8 < 8 {
        bitsOffset := bitsOffset + n % 8;
      } else {
        bytesOffset := bytesOffset + 1;
        bitsOffset := bitsOffset + n % 8 - 8;
      }
      assert Pos() == p + n;
      assert s[p..][n..] == s[p + n..];
    }

    method TakeBytes(n: int) returns (data: bytes)
      requires Valid()
      modifies this
      ensures Valid() && (data, S()) == GetBytes(old(S()), n) && bits == old(bits)
    {
      hide Flat, ToBytes;
      if err {
        return [];
      }
      if n < 0 || bitsOffset != 0 || bytesOffset + n > |bits| {
        err := true;
        return [];
      }
      data := bits[bytesOffset..bytesOffset + n];
      BytesAt(bits, bytesOffset, n);
      bytesOffset := bytesOffset + n;
    }

    /** Rewinds; past the start of the buffer is an error. */
    method UnRead(n0: int)
      requires Valid()
      modifies this
      ensures Valid() && bits == old(bits)
      ensures n0 < 0 ==> Pos() == old(Pos()) && err
      ensures n0 >= 0 ==> Pos() == Max(0, old(Pos()) - n0) && err == (old(err) || n0 > old(Pos()))
    {
      if n0 < 0 {
        err := true;
        return;
      }
      var n := n0;
      var pos := bytesOffset * 8 + bitsOffset;
      if n > pos {
        err := true;
        n := pos;
      }
      pos := pos - n;
      bytesOffset := pos / 8;
      bitsOffset := pos % 8;
    }

    /**
     * Looks ahead: nothing is consumed by a look that succeeds or runs out of data. A count above 64
     * that the data still holds fails without reading and then rewinds all the same.
     */
    method NextBits(n: int) returns (ret: nat)
      requires Valid()
      modifies this
      ensures Valid() && bits == old(bits) && ret == Get(old(S()), n).0 && err == Get(old(S()), n).1.failed
      ensures Pos() == if !old(err) && 64 < n <= |old(S()).rest| then Max(0, old(Pos()) - n) else old(Pos())
    {
      hide Num, Flat;
      if err {
        return 0;
      }
      if n < 0 || n > RemainBits() {
        err := true;
        return 0;
      }
      ghost var p, k := Pos(), if n > 64 then 0 else n;
      RestLengths(Flat(bits), p, k);
      ret := GetBits(n);
      assert |S().rest| == 8 * |bits| - Pos();
      assert Pos() == p + k;
      UnRead(n);
    }

    /** Unsigned Exp-Golomb. */
    method ReadUE() returns (v: nat)
      requires Valid()
      modifies this
      ensures Valid() && (v, S()) == ReadUe(old(S()))
    {
      hide Num, Flat, Get, Pow2;
      var zeros := 0;
      ghost var r := S();
      var bit := 0;
      while true
        invariant zeros <= 63 && Valid() && ReadUe(r) == ReadUeFrom(S(), zeros) && bits == old(bits)
        decreases 63 - zeros
      {
        bit := GetBit();
        if err {
          return 0;
        }
        if bit != 0 {
          break;
        }
        zeros := zeros + 1;
        if zeros > 63 {
          err := true;
          return 0;
        }
      }
      if zeros == 0 {
        return 0;
      }
      var info := GetBits(zeros);
      return Pow2(zeros) - 1 + info;
    }
  }

  /** On a boundary what is left to read is what is left of the buffer. */
  lemma {:induction false} AtBytes(s: BitStream, c: bytes)
    requires s.Valid() && s.S().rest == Flat(c)
    ensures s.bitsOffset == 0 && s.RemainData() == c && s.RemainBytes() == |c| && 8 * s.bytesOffset == s.Pos()
  {
    hide Flat;
    assert 8 * |s.bits| - s.Pos() == 8 * |c|;
    SplitFlat(s.bits, s.bytesOffset);
    FlatInjective(s.bits[s.bytesOffset..], c);
  }

  lemma {:induction false} RestLengths(s: BitCodes.bits, p: nat, n: nat)
    requires p + n <= |s|
    ensures |s[p..][n..]| == |s| - p - n
  {
  }

  lemma {:induction false} BytesAt(b: bytes, i: nat, n: nat)
    requires i + n <= |b|
    ensures |Flat(b)[8 * i..]| % 8 == 0
    ensures ToBytes(Flat(b)[8 * i..][..8 * n]) == b[i..i + n] && Flat(b)[8 * i..][8 * n..] == Flat(b)[8 * (i + n)..]
  {
    assert b[i..] == b[i..i + n] + b[i + n..];
    SplitFlat(b, i);
    FlatConcat(b[i..i + n], b[i + n..]);
    FlatInjective(ToBytes(Flat(b)[8 * i..][..8 * n]), b[i..i + n]);
  }

  lemma {:induction false} SplitFlat(b: bytes, i: nat)
    requires i <= |b|
    ensures Flat(b)[..8 * i] == Flat(b[..i]) && Flat(b)[8 * i..] == Flat(b[i..])
  {
    assert b == b[..i] + b[i..];
    FlatConcat(b[..i], b[i..]);
  }

  lemma {:induction false} Slices(s: BitCodes.bits, k: nat, n: nat)
    requires k + n <= |s|
    ensures s[k..][n..] == s[k + n..]
  {
  }

  lemma {:induction false} JoinMore(ret0: nat, s: BitCodes.bits, k: nat, n: nat)
    requires k + n <= |s|
    ensures Shifted(ret0, k + n) + Num(s[..k + n]) == Shifted(Shifted(ret0, k) + Num(s[..k]), n) + Num(s[k..][..n])
  {
    hide Num;
    assert s[..k + n] == s[..k] + s[k..][..n];
    NumConcat(s[..k], s[k..][..n]);
    ShiftedTwice(ret0, Num(s[..k]), k, n);
  }

  lemma {:induction false} ShiftedTwice(a: nat, b: nat, k: nat, n: nat)
    ensures Shifted(a, k + n) + Shifted(b, n) == Shifted(Shifted(a, k) + b, n)
  {
    hide Shifted;
    if n == 0 {
      ShiftedStep(a, k);
      ShiftedStep(b, 0);
      ShiftedStep(Shifted(a, k) + b, 0);
    } else {
      ShiftedTwice(a, b, k, n - 1);
      ShiftedStep(a, k + n - 1);
      ShiftedStep(b, n - 1);
      ShiftedStep(Shifted(a, k) + b, n - 1);
    }
  }
}
