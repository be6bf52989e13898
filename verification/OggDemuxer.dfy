/** The Ogg demuxer: an input loop over two states, keeping what it cannot use yet. */
module OggDemuxer {
  import opened Bytes
  import opened Wrappers
  import opened OggPages
  import opened OggReader

  class Demuxer {
    var inPayload: bool
    var headCache: bytes
    /** The page whose body is awaited, and what has arrived of it. */
    var current: Page
    var payloadLen: nat
    var pageCache: bytes
    var streams: map<u32, Stream>
    /** The packets handed over so far. */
    var out: seq<Packet>

    ghost function C(): Core
      reads this
    {
      Core(if inPayload then AtBody(current) else AtHead, streams)
    }

    ghost function S(): Demux
      reads this
    {
      Demux(C(), if inPayload then pageCache else headCache)
    }

    ghost predicate Valid()
      reads this
    {
      && Sound(C()) && (if inPayload then headCache == [] && payloadLen == Sum(current.segments) else pageCache == [])
    }

    constructor ()
      ensures Valid() && S() == FRESH && out == []
    {
      inPayload, headCache, pageCache, streams, out := false, [], [], map[], [];
      current, payloadLen := Page(false, false, false, 0, 0, 0, [], []), 0;
    }

    /** The header state: enough bytes for the header, counted across the cache and the input? */
    method HeadLength(buf: bytes) returns (n: nat)
      requires !inPayload
      ensures n == if Ready(C(), headCache + buf) then HEAD_SIZE + (headCache + buf)[26] as int else 0
    {
      if |headCache| + |buf| < HEAD_SIZE {
        return 0;
      }
      var count: byte := if |headCache| >= HEAD_SIZE then headCache[26] else buf[26 - |headCache|];
      assert count == (headCache + buf)[26];
      if |headCache| + |buf| < HEAD_SIZE + count as int {
        return 0;
      }
      return HEAD_SIZE + count as int;
    }

    method AcceptPage(page: Page, size: nat)
      modifies this`streams, this`current, this`payloadLen, this`inPayload
      ensures current == page && payloadLen == size && inPayload
      ensures streams == old(streams)[page.serial := Arrive(Known(old(streams), page.serial), page.number)]
    {
      if page.serial in streams {
        var s := streams[page.serial];
        if (s.number as int + 1) % TWO_32 != page.number {
          s := Stream(page.number, true, []);
        } else {
          s := Stream(page.number, false, s.cache);
        }
        streams := streams[page.serial := s];
      } else {
        streams := streams[page.serial := Stream(page.number, false, [])];
      }
      current, payloadLen := page, size;
      inPayload := true;
    }

    /** Reads a header, or keeps what there is of one. */
    method StepHead(buf: bytes) returns (more: bool, rest: bytes, err: Option<Error>)
      requires Valid() && !inPayload && !Ready(C(), headCache)
      modifies this
      ensures out == old(out)
      ensures !Ready(old(C()), old(headCache) + buf) ==>
        !more && err == None && Valid() && S() == Demux(old(C()), old(headCache) + buf)
      ensures Ready(old(C()), old(headCache) + buf) ==>
        var t := Turn(old(C()), old(headCache) + buf);
        if t.Err? then !more && err == Some(t.error)
        else more && err == None && Valid() && inPayload && S() == Demux(t.value.0, []) && rest == t.value.1 && t.value.2 == []
    {
      hide ReadPage, Arrive;
      err, rest := None, [];
      var n := HeadLength(buf);
      if n == 0 {
        headCache := headCache + buf;
        return false, [], None;
      }
      ghost var all := headCache + buf;
      assert all[..n] == headCache + buf[..n - |headCache|] && all[n..] == buf[n - |headCache|..];
      var page, payloadLen := ParsePage(headCache + buf[..n - |headCache|]);
      if page.Err? {
        return false, [], Some(page.error);
      }
      AcceptPage(page.value, payloadLen);
      rest := buf[n - |headCache|..];
      headCache := [];
      more := true;
    }

    /** Keeps a body that is not whole yet, or hands over the packets it completes. */
    method StepPayload(buf: bytes) returns (more: bool, rest: bytes)
      requires Valid() && inPayload && !(pageCache != [] && Ready(C(), pageCache))
      modifies this
      ensures Valid()
      ensures !Ready(old(C()), old(pageCache) + buf) ==>
        !more && out == old(out) && S() == Demux(old(C()), old(pageCache) + buf)
      ensures Ready(old(C()), old(pageCache) + buf) ==>
        var t := ReadBody(old(C()), old(pageCache) + buf);
        more && !inPayload && S() == Demux(t.0, []) && rest == t.1 && out == old(out) + t.2
    {
      hide Complete;
      var size := payloadLen;
      rest := [];
      if size - |pageCache| > |buf| {
        pageCache := pageCache + buf;
        return false, [];
      }
      ghost var all := pageCache + buf;
      var body: bytes;
      assert all[..size] == pageCache + buf[..size - |pageCache|] && all[size..] == buf[size - |pageCache|..];
      if |pageCache| > 0 {
        body := pageCache + buf[..size - |pageCache|];
        rest := buf[size - |pageCache|..];
      } else {
        body := buf[..size];
        rest := buf[size..];
      }
      assert [] + buf == buf;
      assert body == all[..size] && rest == all[size..];
      var s := streams[current.serial];
      var data, cache := Reassemble(s, current, body);
      streams := streams[current.serial := s.(cache := cache)];
      out := out + Packets(current.serial, current.granule, data);
      pageCache := [];
      inPayload := false;
      more := true;
    }

    /** Reads as far as the input goes. */
    method Input(buf0: bytes) returns (err: Option<Error>)
      requires Valid() && Settled(S())
      modifies this
      ensures var r := OggReader.Input(old(S()), buf0);
        && err == r.2 && out == old(out) + r.1 && (err == None ==> Valid() && S() == r.0 && Settled(S()))
    {
      hide Ready, Turn, Advance, ReadBody;
      ghost var whole := Advance(C(), S().cache + buf0);
      if |buf0| == 0 {
        AdvanceStops(S());
        assert S().cache + buf0 == S().cache && out == out + [];
        return None;
      }
      var buf := buf0;
      ghost var sofar: seq<Packet> := [];
      assert out == out + sofar && sofar + whole.packets == whole.packets;
      var more := true;
      err := None;
      while more
        invariant (err == None ==> Valid()) && out == old(out) + sofar
        invariant more ==> err == None && CacheShort(S()) && whole == Before(sofar, Advance(C(), S().cache + buf))
        invariant !more && err == None ==> whole == Outcome(C(), S().cache, sofar, None)
        invariant err.Some? ==> whole.error == err && whole.packets == sofar
        decreases more, |buf| + |S().cache|, inPayload
      {
        ghost var c, all := C(), S().cache + buf;
        AdvanceStep(c, all, sofar);
        if !inPayload {
          HeadShort(S());
          more, buf, err := StepHead(buf);
          assert sofar + [] == sofar && [] + buf == buf;
        } else {
          ghost var done := out;
          more, buf := StepPayload(buf);
          assert [] + buf == buf;
          if more {
            assert done + ReadBody(c, all).2 == old(out) + (sofar + ReadBody(c, all).2);
            sofar := sofar + ReadBody(c, all).2;
          }
        }
      }
    }
  }

  /** What waits in the cache is not enough by itself. */
  predicate CacheShort(d: Demux) {
    d.cache == [] || !Ready(d.core, d.cache)
  }

  // ---------------------------------------------------------------------------
  // The loops over the segment table
  // ---------------------------------------------------------------------------

  /** Fills a page from its header; the body's length is counted in 16 bits, which always suffice. */
  method ParsePage(b: bytes) returns (r: Result<Page, Error>, payloadLen: nat)
    requires |b| >= HEAD_SIZE && |b| == HEAD_SIZE + b[26] as int
    ensures r == ReadPage(b) && (r.Ok? ==> payloadLen == Sum(r.value.segments) < 0x1_0000)
  {
    hide U32LE, U64LE;
    payloadLen := 0;
    if b[..4] != ['O' as int, 'g' as int, 'g' as int, 'S' as int] {
      return Err(BadCapture), 0;
    }
    if b[4] != 0 {
      return Err(BadVersion), 0;
    }
    var page := Page(b[5] % 2 == 1, b[5] / 2 % 2 == 1, b[5] / 4 % 2 == 1, U64LE(b[6..]), U32LE(b[14..]), U32LE(b[18..]), [], []);
    var segments := b[HEAD_SIZE..HEAD_SIZE + b[26] as int];
    for i := 0 to b[26]
      invariant payloadLen == Sum(segments[..i]) <= 255 * i
    {
      SumMore(segments, i);
      payloadLen := (payloadLen + segments[i]) % 0x1_0000;
    }
    assert segments[..b[26]] == segments && segments == b[HEAD_SIZE..];
    return Ok(page.(segments := segments)), payloadLen;
  }

  lemma {:induction false} SumMore(segments: bytes, i: nat)
    requires i < |segments|
    ensures Sum(segments[..i + 1]) == Sum(segments[..i]) + segments[i]
  {
    assert segments[..i + 1] == segments[..i] + [segments[i]];
    SumConcat(segments[..i], [segments[i]]);
    assert [segments[i]][1..] == [];
  }

  /** After a loss: short segments are dropped up to the first full one. */
  method SkipLost(segments: bytes, body: bytes) returns (idx: nat, tmp: bytes)
    requires Sum(segments) == |body|
    ensures idx == Short(segments) && tmp == if idx < |segments| then body[Removed(segments, body, idx)..] else body
  {
    var removeLen: nat := 0;
    idx, tmp := 0, body;
    assert segments[0..] == segments;
    while idx < |segments|
      invariant idx <= |segments| && removeLen == Sum(segments[..idx]) <= |body| && tmp == body
      invariant Short(segments) == idx + Short(segments[idx..])
    {
      if segments[idx] == 255 {
        tmp := tmp[removeLen..];
        break;
      }
      assert segments[idx..][1..] == segments[idx + 1..];
      SumMore(segments, idx);
      SumTake(segments, idx + 1);
      removeLen := removeLen + segments[idx];
      idx := idx + 1;
    }
  }

  function Removed(segments: bytes, body: bytes, n: nat): (k: nat)
    requires n <= |segments| && Sum(segments) == |body|
    ensures k == Sum(segments[..n]) && k <= |body|
  {
    SumTake(segments, n);
    Sum(segments[..n])
  }

  /** The segments of the packet continued from the page before. */
  method FirstRun(segments: bytes) returns (idx: nat, appendLen: nat, completed: bool)
    ensures (idx, completed) == FirstPacket(segments) && idx <= |segments| && appendLen == Sum(segments[..idx])
  {
    idx, appendLen, completed := 0, 0, false;
    assert segments[0..] == segments;
    while idx < |segments| && !completed
      invariant idx <= |segments| && appendLen == Sum(segments[..idx])
      invariant FirstPacket(segments) == if completed then (idx, true) else (idx + FirstPacket(segments[idx..]).0, FirstPacket(segments[idx..]).1)
      decreases |segments| - idx
    {
      assert segments[idx..][1..] == segments[idx + 1..];
      SumMore(segments, idx);
      appendLen := appendLen + segments[idx];
      completed := segments[idx] < 255;
      idx := idx + 1;
    }
  }

  /** The packets that end on the rest of the page, and the start of one that does not. */
  method Collect(segments: bytes, idx0: nat, tmp: bytes) returns (data: seq<bytes>, left: bytes)
    requires idx0 <= |segments| && (idx0 == |segments| || Sum(segments[idx0..]) == |tmp|)
    ensures if idx0 == |segments| then data == [] && left == [] else (data, left) == Unpack([], segments[idx0..], tmp)
  {
    data, left := [], [];
    if idx0 == |segments| {
      return;
    }
    var idx: nat, start: nat, packetLen: nat := idx0, 0, 0;
    ghost var all := Unpack([], segments[idx0..], tmp);
    assert tmp[0..0] == [] && tmp[0..] == tmp && [] + all.0 == all.0;
    while idx < |segments|
      invariant idx <= |segments| && start + packetLen + Sum(segments[idx..]) == |tmp|
      invariant Collected(all, data, tmp, start, packetLen, segments[idx..])
    {
      CollectStep(all, data, tmp, start, packetLen, segments[idx..]);
      assert segments[idx..][1..] == segments[idx + 1..];
      packetLen := packetLen + segments[idx];
      if segments[idx] < 255 {
        data := data + [tmp[start..start + packetLen]];
        start := start + packetLen;
        packetLen := 0;
      }
      idx := idx + 1;
    }
    assert segments[idx..] == [] && data + [] == data && start + packetLen == |tmp|;
    assert all == (data, tmp[start..start + packetLen]);
    if packetLen > 0 {
      left := tmp[start..];
    }
    assert left == tmp[start..start + packetLen];
  }

  /** The packets found so far, and those the rest of the table completes. */
  ghost predicate Collected(all: (seq<bytes>, bytes), data: seq<bytes>, tmp: bytes, start: nat, packetLen: nat, segments: bytes) {
    && start + packetLen + Sum(segments) == |tmp|
    && var u := Unpack(tmp[start..start + packetLen], segments, tmp[start + packetLen..]); all == (data + u.0, u.1)
  }

  lemma {:induction false} CollectStep(all: (seq<bytes>, bytes), data: seq<bytes>, tmp: bytes, start: nat, packetLen: nat, segments: bytes)
    requires segments != [] && Collected(all, data, tmp, start, packetLen, segments)
    ensures start + packetLen + segments[0] as int <= |tmp|
    ensures if segments[0] < 255
      then Collected(all, data + [tmp[start..start + packetLen + segments[0] as int]], tmp, start + packetLen + segments[0] as int, 0, segments[1..])
      else Collected(all, data, tmp, start, packetLen + segments[0] as int, segments[1..])
  {
    hide Unpack;
    var at := start + packetLen;
    var n: nat := segments[0];
    UnpackStep(tmp[start..at], segments, tmp[at..], data);
    assert tmp[at..][n..] == tmp[at + n..] && tmp[start..at] + tmp[at..][..n] == tmp[start..at + n];
    assert tmp[at + n..at + n] == [];
  }

  lemma {:induction false} UnpackStep(open: bytes, segments: bytes, body: bytes, before: seq<bytes>)
    requires Sum(segments) == |body| && segments != []
    ensures var n: nat := segments[0]; var got := open + body[..n];
      var u := Unpack(open, segments, body);
      var next := Unpack(if n < 255 then [] else got, segments[1..], body[n..]);
      u.1 == next.1 && before + u.0 == (if n < 255 then before + [got] else before) + next.0
  {
    var n: nat := segments[0];
    var got := open + body[..n];
    if n < 255 {
      var rest := Unpack([], segments[1..], body[n..]);
      assert before + ([got] + rest.0) == before + [got] + rest.0;
    }
  }

  /** What a whole body completes, and the packet left under assembly. */
  method Reassemble(s: Stream, page: Page, body: bytes) returns (data: seq<bytes>, cache: bytes)
    requires Sum(page.segments) == |body|
    ensures (data, cache) == Complete(s, page, body)
  {
    hide Unpack, Short, FirstPacket, Complete;
    var segments := page.segments;
    var idx, tmp := 0, body;
    data, cache := [], s.cache;
    assert segments[0..] == segments;
    CompleteIs(s, page, body);
    if s.lost && page.continued {
      idx, tmp := SkipLost(segments, body);
    } else if !s.lost && page.continued {
      var appendLen, completed;
      idx, appendLen, completed := FirstRun(segments);
      SumTake(segments, idx);
      cache := cache + tmp[..appendLen];
      tmp := tmp[appendLen..];
      if completed {
        data := [cache];
        cache := [];
      }
    }
    SumTake(segments, idx);
    var more, left := Collect(segments, idx, tmp);
    data := data + more;
    if |left| > 0 {
      cache := cache + left;
    }
    assert cache + [] == cache && [] + more == more && [] + left == left;
  }

  /** What is completed, by what the loops find. */
  lemma {:induction false} CompleteIs(s: Stream, p: Page, body: bytes)
    requires Sum(p.segments) == |body|
    ensures !p.continued ==>
      var r := if p.segments == [] then ([], []) else Unpack([], p.segments, body); Complete(s, p, body) == (r.0, s.cache + r.1)
    ensures p.continued && s.lost ==>
      var n := Short(p.segments); var size := Removed(p.segments, body, n);
      && (n < |p.segments| ==> Sum(p.segments[n..]) == |body[size..]|)
      && var r := if n == |p.segments| then ([], []) else Unpack([], p.segments[n..], body[size..]);
      Complete(s, p, body) == (r.0, s.cache + r.1)
    ensures p.continued && !s.lost ==>
      var (n, ended) := FirstPacket(p.segments);
      && n <= |p.segments| && (!ended ==> n == |p.segments|)
      && var size := Removed(p.segments, body, n);
      && Sum(p.segments[n..]) == |body[size..]|
      && var r := if n == |p.segments| then ([], []) else Unpack([], p.segments[n..], body[size..]);
      Complete(s, p, body) == if ended then ([s.cache + body[..size]] + r.0, r.1) else ([], s.cache + body[..size])
  {
    hide FirstPacket, Short;
    var n := Short(p.segments);
    SumTake(p.segments, n);
    FirstPacketBound(p.segments);
    FirstRunEnds(p.segments);
    SumTake(p.segments, FirstPacket(p.segments).0);
    if n == |p.segments| {
      assert p.segments[n..] == [];
    }
    if FirstPacket(p.segments).0 == |p.segments| {
      assert p.segments[FirstPacket(p.segments).0..] == [];
    }
  }

  /** Only the end of the table leaves a continued packet open. */
  lemma {:induction false} FirstRunEnds(segments: bytes)
    ensures !FirstPacket(segments).1 ==> FirstPacket(segments).0 == |segments|
  {
    FirstPacketShape(segments);
  }

  lemma {:induction false} HeadShort(d: Demux)
    requires CacheShort(d) && d.core.mode == AtHead
    ensures !Ready(d.core, d.cache)
  {
  }

  lemma {:induction false} AdvanceStep(c: Core, b: bytes, sofar: seq<Packet>)
    requires Sound(c)
    ensures !Ready(c, b) ==> Before(sofar, Advance(c, b)) == Outcome(c, b, sofar, None)
    ensures Ready(c, b) ==> var t := Turn(c, b);
      if t.Err? then Before(sofar, Advance(c, b)) == Outcome(c, b, sofar, Some(t.error))
      else Before(sofar, Advance(c, b)) == Before(sofar + t.value.2, Advance(t.value.0, t.value.1))
    ensures Ready(c, b) && c.mode.AtBody? ==> Turn(c, b) == Ok(ReadBody(c, b))
  {
    hide Ready, ReadHead, ReadBody;
    assert sofar + [] == sofar;
    if Ready(c, b) && Turn(c, b).Ok? {
      var t := Turn(c, b).value;
      var rest := Advance(t.0, t.1).packets;
      assert sofar + (t.2 + rest) == (sofar + t.2) + rest;
    }
  }

  function Before(sofar: seq<Packet>, o: Outcome): Outcome {
    o.(packets := sofar + o.packets)
  }
}
