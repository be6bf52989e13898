/** Ogg pages: lacing, headers, and the demuxer's resumable reader (section 6 of RFC 3533). */
module OggPages {
  import opened Bytes
  import opened Wrappers

  const MAX_SEGMENTS := 255
  const HEAD_SIZE := 27
  const NO_GRANULE: u64 := 0xFFFF_FFFF_FFFF_FFFF

  /** A page; the checksum is not checked by the reader and is left out of it. */
  datatype Page = Page(continued: bool, first: bool, last: bool, granule: u64, serial: u32, number: u32,
                       segments: bytes, body: bytes)

  datatype Error = BadCapture | BadVersion

  function Sum(segments: bytes): nat {
    if segments == [] then 0 else segments[0] + Sum(segments[1..])
  }

  predicate Fits(p: Page) {
    |p.segments| <= MAX_SEGMENTS && Sum(p.segments) == |p.body|
  }

  lemma {:induction false} SumConcat(a: bytes, b: bytes)
    ensures Sum(a + b) == Sum(a) + Sum(b)
  {
    if a == [] {
      assert a + b == b;
    } else {
      assert (a + b)[1..] == a[1..] + b;
      SumConcat(a[1..], b);
    }
  }

  // ---------------------------------------------------------------------------
  // Page headers
  // ---------------------------------------------------------------------------

  function PutU64LE(v: u64): (b: bytes)
    ensures |b| == 8
  {
    PutU32LE(v % TWO_32) + PutU32LE(v / TWO_32)
  }

  function U64LE(b: bytes): u64
    requires |b| >= 8
  {
    U32LE(b) as int + U32LE(b[4..]) as int * TWO_32
  }

  function FlagByte(p: Page): byte {
    (if p.continued then 1 else 0) + (if p.first then 2 else 0) + (if p.last then 4 else 0)
  }

  function EncodeHead(p: Page, crc: u32): (b: bytes)
    requires |p.segments| <= MAX_SEGMENTS
    ensures |b| == HEAD_SIZE + |p.segments|
  {
    ['O' as int, 'g' as int, 'g' as int, 'S' as int, 0, FlagByte(p)]
    + PutU64LE(p.granule) + PutU32LE(p.serial) + PutU32LE(p.number) + PutU32LE(crc) + [|p.segments|] + p.segments
  }

  function EncodePage(p: Page, crc: u32): bytes
    requires |p.segments| <= MAX_SEGMENTS
  {
    EncodeHead(p, crc) + p.body
  }

  /** Reads a whole header; the body is still to come. */
  function ReadPage(b: bytes): Result<Page, Error>
    requires |b| >= HEAD_SIZE && |b| == HEAD_SIZE + b[26] as int
  {
    if b[..4] != ['O' as int, 'g' as int, 'g' as int, 'S' as int] then Err(BadCapture)
    else if b[4] != 0 then Err(BadVersion)
    else
      Ok(Page(b[5] % 2 == 1, b[5] / 2 % 2 == 1, b[5] / 4 % 2 == 1, U64LE(b[6..]), U32LE(b[14..]), U32LE(b[18..]),
              b[HEAD_SIZE..], []))
  }

  lemma {:induction false} U64LERoundTrip(v: u64, rest: bytes)
    ensures U64LE(PutU64LE(v) + rest) == v
  {
    hide PutU32LE, U32LE;
    var b := PutU64LE(v) + rest;
    assert b == PutU32LE(v % TWO_32) + (PutU32LE(v / TWO_32) + rest);
    assert b[4..] == PutU32LE(v / TWO_32) + rest;
    U32LERoundTrip(v % TWO_32, PutU32LE(v / TWO_32) + rest);
    U32LERoundTrip(v / TWO_32, rest);
  }

  lemma {:induction false} FlagsRoundTrip(p: Page)
    ensures var f := FlagByte(p);
      (f % 2 == 1 <==> p.continued) && (f / 2 % 2 == 1 <==> p.first) && (f / 4 % 2 == 1 <==> p.last)
  {
  }

  /** Where the fields of a header lie. */
  lemma {:induction false} HeadLayout(start: bytes, granule: bytes, serial: bytes, number: bytes, crc: bytes, tail: bytes)
    requires |start| == 6 && |granule| == 8 && |serial| == 4 && |number| == 4 && |crc| == 4
    ensures var b := start + granule + serial + number + crc + tail;
      && b[..4] == start[..4] && b[6..] == granule + (serial + number + crc + tail)
      && b[14..] == serial + (number + crc + tail) && b[18..] == number + (crc + tail) && b[26..] == tail
  {
    var b := start + granule + serial + number + crc + tail;
    assert b == start + (granule + (serial + (number + (crc + tail))));
    assert serial + (number + (crc + tail)) == serial + number + crc + tail;
    assert number + (crc + tail) == number + crc + tail;
  }

  lemma {:induction false} HeadRoundTrip(p: Page, crc: u32)
    requires |p.segments| <= MAX_SEGMENTS
    ensures var b := EncodeHead(p, crc);
      b[26] == |p.segments| && ReadPage(b) == Ok(p.(body := []))
  {
    hide PutU64LE, U64LE, PutU32LE, U32LE, FlagByte;
    var b := EncodeHead(p, crc);
    var start := ['O' as int, 'g' as int, 'g' as int, 'S' as int, 0, FlagByte(p)];
    var g, s, n, c, tail := PutU64LE(p.granule), PutU32LE(p.serial), PutU32LE(p.number), PutU32LE(crc), [|p.segments|] + p.segments;
    assert b == start + g + s + n + c + tail;
    HeadLayout(start, g, s, n, c, tail);
    U64LERoundTrip(p.granule, s + n + c + tail);
    U32LERoundTrip(p.serial, n + c + tail);
    U32LERoundTrip(p.number, c + tail);
    FlagsRoundTrip(p);
    assert b[26] == b[26..][0] && b[27..] == b[26..][1..] == p.segments;
    assert b[4] == start[4] && b[5] == start[5];
  }

  // ---------------------------------------------------------------------------
  // Packets on pages
  // ---------------------------------------------------------------------------

  /** The segment table of one whole packet. */
  function Lace(size: nat): (segments: bytes)
    ensures |segments| == size / 255 + 1
  {
    if size < 255 then [size] else [255] + Lace(size - 255)
  }

  function Full(n: nat): (segments: bytes)
    ensures |segments| == n
  {
    if n == 0 then [] else [255] + Full(n - 1)
  }

  /** The packets completed by a segment table, and what is left of the last one. */
  function Unpack(open: bytes, segments: bytes, body: bytes): (seq<bytes>, bytes)
    requires Sum(segments) == |body|
    decreases |segments|
  {
    if segments == [] then ([], open)
    else
      var n: nat := segments[0];
      var got := open + body[..n];
      if n < 255 then
        var rest := Unpack([], segments[1..], body[n..]);
        ([got] + rest.0, rest.1)
      else Unpack(got, segments[1..], body[n..])
  }

  lemma {:induction false} LaceSum(size: nat)
    ensures Sum(Lace(size)) == size
  {
    if size >= 255 {
      LaceSum(size - 255);
    }
  }

  lemma {:induction false} FullSum(n: nat)
    ensures Sum(Full(n)) == n * 255
  {
    if n > 0 {
      FullSum(n - 1);
    }
  }

  /** The first segment, then the others. */
  lemma {:induction false} UnpackFirst(open: bytes, segments: bytes, body: bytes)
    requires segments != [] && Sum(segments) == |body|
    ensures var n: nat := segments[0]; n <= |body| && Sum(segments[1..]) == |body[n..]|
    ensures var n: nat := segments[0]; var got := open + body[..n]; var more := Unpack(if n < 255 then [] else got, segments[1..], body[n..]);
      Unpack(open, segments, body) == ((if n < 255 then [got] else []) + more.0, more.1)
  {
    var n: nat := segments[0];
    assert n < 255 || [] + Unpack(open + body[..n], segments[1..], body[n..]).0 == Unpack(open + body[..n], segments[1..], body[n..]).0;
  }

  lemma {:induction false} JoinedFirst(s1: bytes, b1: bytes, s2: bytes, b2: bytes, n: nat)
    requires s1 != [] && n <= |b1|
    ensures (s1 + s2)[0] == s1[0] && (s1 + s2)[1..] == s1[1..] + s2 && (b1 + b2)[..n] == b1[..n] && (b1 + b2)[n..] == b1[n..] + b2
  {
  }

  lemma {:induction false} UnpackNone(open: bytes, s2: bytes, b2: bytes)
    requires Sum(s2) == |b2|
    ensures [] + s2 == s2 && [] + b2 == b2 && Sum([]) == 0 && Unpack(open, [], []) == ([], open)
    ensures [] + Unpack(open, s2, b2).0 == Unpack(open, s2, b2).0
  {
  }

  lemma {:induction false} UnpackConcat(open: bytes, s1: bytes, b1: bytes, s2: bytes, b2: bytes)
    requires Sum(s1) == |b1| && Sum(s2) == |b2|
    ensures Sum(s1 + s2) == |b1 + b2|
    ensures Unpack(open, s1 + s2, b1 + b2)
            == (Unpack(open, s1, b1).0 + Unpack(Unpack(open, s1, b1).1, s2, b2).0, Unpack(Unpack(open, s1, b1).1, s2, b2).1)
    decreases |s1|
  {
    hide Unpack, Sum;
    SumConcat(s1, s2);
    if s1 == [] {
      UnpackNone(open, s2, b2);
      assert b1 == [];
    } else {
      var n: nat := s1[0];
      UnpackFirst(open, s1, b1);
      JoinedFirst(s1, b1, s2, b2, n);
      UnpackFirst(open, s1 + s2, b1 + b2);
      var next := if n < 255 then [] else open + b1[..n];
      UnpackConcat(next, s1[1..], b1[n..], s2, b2);
      var first := if n < 255 then [open + b1[..n]] else [];
      var a := Unpack(next, s1[1..], b1[n..]);
      Associates(first, a.0, Unpack(a.1, s2, b2).0);
    }
  }

  lemma {:induction false} Associates<T>(a: seq<T>, b: seq<T>, c: seq<T>)
    ensures a + (b + c) == (a + b) + c
  {
  }

  lemma {:induction false} UnpackLace(open: bytes, packet: bytes)
    ensures Sum(Lace(|packet|)) == |packet| && Unpack(open, Lace(|packet|), packet) == ([open + packet], [])
    decreases |packet|
  {
    LaceSum(|packet|);
    if |packet| < 255 {
      assert packet[..|packet|] == packet;
      assert Lace(|packet|)[1..] == [] && packet[|packet|..] == [];
      assert [open + packet] + [] == [open + packet];
    } else {
      UnpackLace(open + packet[..255], packet[255..]);
      assert Lace(|packet|)[1..] == Lace(|packet| - 255);
      assert (open + packet[..255]) + packet[255..] == open + packet;
    }
  }

  lemma {:induction false} UnpackFull(open: bytes, n: nat, data: bytes)
    requires |data| == n * 255
    ensures Sum(Full(n)) == |data| && Unpack(open, Full(n), data) == ([], open + data)
    decreases n
  {
    FullSum(n);
    if n > 0 {
      UnpackFull(open + data[..255], n - 1, data[255..]);
      assert Full(n)[1..] == Full(n - 1);
      assert (open + data[..255]) + data[255..] == open + data;
    } else {
      assert data == [] && open + data == open;
    }
  }

  // ---------------------------------------------------------------------------
  // The demuxer's streams
  // ---------------------------------------------------------------------------

  /** The number of the last page, whether pages were lost before it, and the packet under assembly. */
  datatype Stream = Stream(number: u32, lost: bool, cache: bytes)

  datatype Packet = Packet(serial: u32, granule: u64, data: bytes)

  /** A page header arrives: a gap in the numbers throws away the packet under assembly. */
  function Arrive(known: Option<Stream>, number: u32): Stream {
    if known.None? then Stream(number, false, [])
    else if (known.value.number as int + 1) % TWO_32 != number then Stream(number, true, [])
    else Stream(number, false, known.value.cache)
  }

  /** Segments up to and including the first below 255, and whether there is one. */
  function FirstPacket(segments: bytes): (nat, bool)
  {
    if segments == [] then (0, false)
    else if segments[0] < 255 then (1, true)
    else
      var rest := FirstPacket(segments[1..]);
      (1 + rest.0, rest.1)
  }

  /** Segments before the first of 255; all of them when there is none. */
  function Short(segments: bytes): (n: nat)
    ensures n <= |segments|
  {
    if segments == [] || segments[0] == 255 then 0 else 1 + Short(segments[1..])
  }

  lemma {:induction false} FirstPacketBound(segments: bytes)
    ensures FirstPacket(segments).0 <= |segments|
  {
    if segments != [] {
      FirstPacketBound(segments[1..]);
    }
  }

  lemma {:induction false} SumTake(segments: bytes, n: nat)
    requires n <= |segments|
    ensures Sum(segments) == Sum(segments[..n]) + Sum(segments[n..])
  {
    assert segments == segments[..n] + segments[n..];
    SumConcat(segments[..n], segments[n..]);
  }

  /** What a page body completes, and the packet left under assembly. */
  function Complete(s: Stream, p: Page, body: bytes): (seq<bytes>, bytes)
    requires Sum(p.segments) == |body|
  {
    if !p.continued then
      var r := Unpack([], p.segments, body);
      (r.0, s.cache + r.1)
    else if s.lost then
      var n := Short(p.segments);
      SumTake(p.segments, n);
      var r := Unpack([], p.segments[n..], body[Sum(p.segments[..n])..]);
      (r.0, s.cache + r.1)
    else
      var (n, ended) := FirstPacket(p.segments);
      FirstPacketBound(p.segments);
      SumTake(p.segments, n);
      var size := Sum(p.segments[..n]);
      if !ended then ([], s.cache + body[..size])
      else
        var r := Unpack([], p.segments[n..], body[size..]);
        ([s.cache + body[..size]] + r.0, r.1)
  }

  function Packets(serial: u32, granule: u64, data: seq<bytes>): (r: seq<Packet>)
    ensures |r| == |data|
  {
    seq(|data|, i requires 0 <= i < |data| => Packet(serial, granule, data[i]))
  }

  /** Cutting at the end of the first packet. */
  lemma {:induction false} FirstPacketUnpacks(open: bytes, segments: bytes, body: bytes)
    requires Sum(segments) == |body|
    ensures var (n, ended) := FirstPacket(segments);
      && n <= |segments| && Sum(segments[..n]) + Sum(segments[n..]) == |body|
      && var size := Sum(segments[..n]);
         Unpack(open, segments, body) ==
           if !ended then ([], open + body[..size])
           else var r := Unpack([], segments[n..], body[size..]); ([open + body[..size]] + r.0, r.1)
  {
    var (n, ended) := FirstPacket(segments);
    FirstPacketBound(segments);
    SumTake(segments, n);
    var size := Sum(segments[..n]);
    assert segments == segments[..n] + segments[n..] && body == body[..size] + body[size..];
    UnpackConcat(open, segments[..n], body[..size], segments[n..], body[size..]);
    FirstPacketShape(segments);
    if ended {
      UnpackLace(open, body[..size]);
    } else {
      FullSum(n);
      UnpackFull(open, n, body[..size]);
      assert segments[n..] == [] && body[size..] == [];
      var none: seq<bytes> := [];
      assert none + none == none;
    }
  }

  lemma {:induction false} FirstPacketShape(segments: bytes)
    ensures var (n, ended) := FirstPacket(segments);
      n <= |segments| && (ended ==> segments[..n] == Lace(Sum(segments[..n])))
      && (!ended ==> n == |segments| && segments[..n] == Full(n))
  {
    FirstPacketBound(segments);
    if segments != [] && segments[0] == 255 {
      FirstPacketShape(segments[1..]);
      var n := FirstPacket(segments).0;
      assert segments[..n][1..] == segments[1..][..n - 1];
    } else if segments != [] {
      assert segments[..1] == [segments[0]] && segments[..1][1..] == [];
    }
  }

  /** With nothing lost, a page simply goes on where the stream's last page stopped. */
  lemma {:induction false} CompleteUnpacks(s: Stream, p: Page, body: bytes)
    requires Sum(p.segments) == |body| && !s.lost && (s.cache == [] || p.continued)
    ensures Complete(s, p, body) == Unpack(s.cache, p.segments, body)
  {
    hide Unpack;
    FirstPacketUnpacks(s.cache, p.segments, body);
    if !p.continued {
      var r := Unpack([], p.segments, body);
      assert s.cache + r.1 == r.1;
    }
  }
}
