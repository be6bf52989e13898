/** Machine integers and fixed-width byte encodings shared by every format. */
module Bytes {
  type byte = x: int | 0 <= x < 0x100
  type u16 = x: int | 0 <= x < 0x1_0000
  type u32 = x: int | 0 <= x < 0x1_0000_0000
  type u64 = x: int | 0 <= x < 0x1_0000_0000_0000_0000

  const TWO_32: int := 0x1_0000_0000
  const TWO_64: int := 0x1_0000_0000_0000_0000

  type bytes = seq<byte>

  function Min(a: int, b: int): int {
    if a < b then a else b
  }

  function Max(a: int, b: int): int {
    if a < b then b else a
  }

  /** A value converted to 64 signed bits. */
  function AsInt64(v: int): int {
    var w := v % TWO_64;
    if w < TWO_64 / 2 then w else w - TWO_64
  }

  /** The conversion moves a value by whole turns of 2^64, and does not see such turns. */
  lemma {:induction false} AsInt64Turns(v: int)
    ensures (AsInt64(v) - v) % TWO_64 == 0 && AsInt64(v) == v + (AsInt64(v) - v) / TWO_64 * TWO_64
  {
    var k := v / TWO_64;
    assert v == k * TWO_64 + v % TWO_64;
  }

  lemma {:induction false} SameTurn(v: int, k: int)
    ensures AsInt64(v + k * TWO_64) == AsInt64(v)
  {
  }

  /** Big-endian 16, 24 and 32 bit fields. */
  function PutU16(v: u16): (b: bytes)
    ensures |b| == 2
  {
    [v / 0x100, v % 0x100]
  }

  function U16(b: bytes): u16
    requires |b| >= 2
  {
    b[0] as int * 0x100 + b[1] as int
  }

  function PutU24(v: nat): (b: bytes)
    ensures |b| == 3
  {
    [v / 0x100 / 0x100 % 0x100, v / 0x100 % 0x100, v % 0x100]
  }

  function U24(b: bytes): (v: nat)
    requires |b| >= 3
    ensures v < 0x100_0000
  {
    b[0] as int * 0x1_0000 + b[1] as int * 0x100 + b[2] as int
  }

  function PutU32(v: u32): (b: bytes)
    ensures |b| == 4
  {
    [v / 0x100 / 0x100 / 0x100, v / 0x100 / 0x100 % 0x100, v / 0x100 % 0x100, v % 0x100]
  }

  function U32(b: bytes): u32
    requires |b| >= 4
  {
    b[0] as int * 0x100_0000 + b[1] as int * 0x1_0000 + b[2] as int * 0x100 + b[3] as int
  }

  /** Big-endian 64 bit fields. */
  function PutU64(v: u64): (b: bytes)
    ensures |b| == 8
  {
    PutU32(v / TWO_32) + PutU32(v % TWO_32)
  }

  function U64(b: bytes): u64
    requires |b| >= 8
  {
    U32(b) as int * TWO_32 + U32(b[4..]) as int
  }

  /** Little-endian 32 bit fields. */
  function PutU32LE(v: u32): (b: bytes)
    ensures |b| == 4
  {
    [v % 0x100, v / 0x100 % 0x100, v / 0x100 / 0x100 % 0x100, v / 0x100 / 0x100 / 0x100]
  }

  function U32LE(b: bytes): u32
    requires |b| >= 4
  {
    b[0] as int + b[1] as int * 0x100 + b[2] as int * 0x1_0000 + b[3] as int * 0x100_0000
  }

  lemma {:induction false} U24RoundTrip(v: nat, rest: bytes)
    requires v < 0x100_0000
    ensures U24(PutU24(v) + rest) == v
  {
  }

  lemma {:induction false} U32RoundTrip(v: u32, rest: bytes)
    ensures U32(PutU32(v) + rest) == v
  {
    var b := PutU32(v) + rest;
    assert b[..4] == PutU32(v);
    assert v == v / 0x100 * 0x100 + v % 0x100;
    assert b[0] == v / 0x100 / 0x100 / 0x100 && b[1] == v / 0x100 / 0x100 % 0x100 && b[2] == v / 0x100 % 0x100 && b[3] == v % 0x100;
  }

  lemma {:induction false} U64RoundTrip(v: u64, rest: bytes)
    ensures U64(PutU64(v) + rest) == v
  {
    hide PutU32, U32;
    var b := PutU64(v) + rest;
    assert b == PutU32(v / TWO_32) + (PutU32(v % TWO_32) + rest);
    assert b[4..] == PutU32(v % TWO_32) + rest;
    U32RoundTrip(v / TWO_32, PutU32(v % TWO_32) + rest);
    U32RoundTrip(v % TWO_32, rest);
  }

  lemma {:induction false} U32LERoundTrip(v: u32, rest: bytes)
    ensures U32LE(PutU32LE(v) + rest) == v
  {
    var b := PutU32LE(v) + rest;
    assert v == v / 0x100 * 0x100 + v % 0x100;
    assert b[3] == v / 0x100 / 0x100 / 0x100 && b[2] == v / 0x100 / 0x100 % 0x100 && b[1] == v / 0x100 % 0x100 && b[0] == v % 0x100;
  }

  /** The pieces of a split input, joined. */
  function Concat(pieces: seq<bytes>): bytes {
    if pieces == [] then [] else pieces[0] + Concat(pieces[1..])
  }
}
