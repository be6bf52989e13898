/**
 The reader and writer of go-rtmp/chunk.go as the objects they are: fields
 updated in place, the chunk streams shared between `current` and the table.
 Each method is tied to the state machine of `RtmpReader` and `RtmpWriter`.
 */
module RtmpObjects {
  import opened Bytes
  import opened Wrappers
  import opened RtmpWire
  import opened RtmpReader
  import W = RtmpWriter

  // --------------------------------------------------------------- writer

  /** The size computed before the buffer is allocated. */
  function TotalSize(p: ChunkPacket, len: nat, chunkSize: u32): int
    requires p.basic.fmt <= 3 && p.basic.csid <= MAX_CSID && chunkSize > 0
  {
    |HeadBytes(p)| + ((len + chunkSize - 1) / chunkSize - 1) * |HeadBytes(W.Continuation(p))| + len
  }

  lemma {:induction false} ChunkCount(len: nat, size: nat)
    requires 0 < size
    ensures 0 < len <= size ==> (len + size - 1) / size == 1
    ensures len > size ==> (len + size - 1) / size == (len - size + size - 1) / size + 1
  {
    if 0 < len <= size {
      DivUnique(len + size - 1, size, 1, len - 1);
    } else if len > size {
      var q, r := (len - 1) / size, (len - 1) % size;
      assert (q + 1) * size == q * size + size;
      DivUnique(len + size - 1, size, q + 1, r);
    }
  }

  lemma {:induction false} MulMono(a: int, b: int, d: nat)
    requires a <= b
    ensures a * d <= b * d && (a - 1) * d == a * d - d
  {
    assert b * d - a * d == (b - a) * d;
  }

  lemma {:induction false} DivUnique(n: int, d: nat, q: int, r: int)
    requires 0 <= r < d && n == q * d + r
    ensures n / d == q
  {
    var q' := n / d;
    assert q' * d <= n < q' * d + d;
    if q' < q {
      MulMono(q' + 1, q, d);
      assert false;
    } else if q' > q {
      MulMono(q + 1, q', d);
      assert false;
    }
  }

  /** The buffer allocated up front is exactly filled. */
  lemma {:induction false} ChunksFill(p: ChunkPacket, data: bytes, chunkSize: u32)
    requires p.basic.fmt <= 3 && p.basic.csid <= MAX_CSID && chunkSize > 0 && data != []
    ensures |W.Chunks(p, data, chunkSize)| == TotalSize(p, |data|, chunkSize)
    decreases |data|
  {
    hide HeadBytes;
    ChunkCount(|data|, chunkSize);
    var c := W.Continuation(p);
    assert W.Continuation(c) == c;
    if |data| > chunkSize {
      var tail := data[chunkSize..];
      ChunksFill(c, tail, chunkSize);
      var k := (|tail| + chunkSize - 1) / chunkSize;
      assert (k + 1 - 1) * |HeadBytes(c)| == (k - 1) * |HeadBytes(c)| + |HeadBytes(c)|;
    } else {
      assert W.Chunks(c, data[|data|..], chunkSize) == [];
    }
  }

  class ChunkStreamWriter {
    const csid: u32
    var timestamp: u32
    var current: Option<ChunkPacket>
    var chunkSize: u32

    function State(): W.WriterState
      reads this
    {
      W.WriterState(csid, timestamp, current, chunkSize)
    }

    constructor (csid: u32)
      ensures State() == W.NewWriter(csid, FIX_CHUNK_SIZE)
    {
      this.csid, timestamp, current, chunkSize := csid, 0, None, FIX_CHUNK_SIZE;
    }

    /** Chooses the chunk format and makes the new header the current one. */
    method StartMessage(len: nat, typeId: byte, streamId: u32, ts: u32) returns (p: ChunkPacket)
      modifies this
      ensures p == W.NextPacket(old(State()), len, typeId, streamId, ts)
      ensures State() == old(State()).(current := Some(p), timestamp := ts)
    {
      var fmt: byte := 0;
      var delta := ts;
      if current.Some? && streamId == current.value.msgHdr.streamId && ts >= timestamp {
        var last := current.value.msgHdr;
        fmt, delta := 1, ts - timestamp;
        if typeId == last.typeId && last.msgLen == len {
          fmt := 2;
          if delta == last.timestamp {
            fmt := 3;
          }
        }
      }
      p := ChunkPacket(BasicHead(fmt, csid), MsgHead(delta, len % TWO_32, typeId, streamId));
      current, timestamp := Some(p), ts;
    }

    /** Fills a buffer of the size computed up front with the chunks of `data`. */
    method EmitChunks(p: ChunkPacket, data: bytes) returns (chks: array<byte>)
      requires p.basic.fmt <= 3 && p.basic.csid <= MAX_CSID && data != [] && current == Some(p)
      modifies this
      ensures State() == old(State()).(current := Some(W.Continuation(p)))
      ensures fresh(chks) && chks[..] == W.Chunks(p, data, W.EffectiveChunkSize(old(State())))
    {
      hide HeadBytes, Min;
      var size := if chunkSize == 0 then FIX_CHUNK_SIZE else chunkSize;
      ChunksFill(p, data, size);
      chks := new byte[TotalSize(p, |data|, size)];
      hide TotalSize, W.Chunks;
      NoChunks(p, size);
      var n, rest, q := 0, data, p;
      while rest != []
        invariant current == Some(q) && q.basic.fmt <= 3 && q.basic.csid == p.basic.csid
        invariant W.Continuation(q) == W.Continuation(p) && (rest == [] ==> q == W.Continuation(p))
        invariant 0 <= n && n + |W.Chunks(q, rest, size)| == chks.Length
        invariant chks[..n] + W.Chunks(q, rest, size) == W.Chunks(p, data, size)
        invariant timestamp == old(timestamp) && chunkSize == old(chunkSize)
        decreases |rest|
      {
        var len := Min(|rest|, size);
        MinBetween(|rest|, size);
        var piece, tail := HeadBytes(q) + rest[..len], rest[len..];
        var next := W.Continuation(q);
        UnfoldChunks(q, rest, size);
        Joined(chks[..n], piece, W.Chunks(next, tail, size));
        CopyInto(chks, n, piece);
        n, rest, q := n + |piece|, tail, next;
        current := Some(q);
      }
      assert chks[..n] == chks[..];
    }

    method WriteData(data: bytes, typeId: byte, streamId: u32, ts: u32) returns (r: Result<bytes, Error>)
      modifies this
      ensures (State(), r) == W.WriteData(old(State()), data, typeId, streamId, ts)
    {
      if csid > MAX_CSID {
        return Err(InvalidCsid);
      }
      var p := StartMessage(|data|, typeId, streamId, ts);
      if data == [] {
        return Ok([]);
      }
      var chks := EmitChunks(p, data);
      r := Ok(chks[..]);
    }
  }

  lemma {:induction false} NoChunks(p: ChunkPacket, size: u32)
    requires p.basic.fmt <= 3 && p.basic.csid <= MAX_CSID && size > 0
    ensures W.Chunks(W.Continuation(p), [], size) == []
  {
  }

  lemma {:induction false} Joined(a: bytes, b: bytes, c: bytes)
    ensures a + (b + c) == (a + b) + c
  {
  }

  lemma {:induction false} MinBetween(a: nat, b: nat)
    ensures (a > 0 && b > 0 ==> 0 < Min(a, b)) && Min(a, b) <= a
  {
  }

  lemma {:induction false} UnfoldChunks(p: ChunkPacket, data: bytes, size: u32)
    requires p.basic.fmt <= 3 && p.basic.csid <= MAX_CSID && size > 0 && data != []
    ensures var n := Min(|data|, size);
            W.Chunks(p, data, size) == (HeadBytes(p) + data[..n]) + W.Chunks(W.Continuation(p), data[n..], size)
  {
  }

  /** Go's copy into a slice of the buffer. */
  method CopyInto(buf: array<byte>, at: nat, piece: bytes)
    requires at + |piece| <= buf.Length
    modifies buf
    ensures buf[..at + |piece|] == old(buf[..at]) + piece
  {
    forall k | 0 <= k < |piece| {
      buf[at + k] := piece[k];
    }
  }

  // --------------------------------------------------------------- reader

  /** A chunk stream that `current` and the table point at; its record changes in place. */
  class ChunkStream {
    var s: StreamState

    constructor ()
      ensures s == NEW_STREAM
    {
      s := NEW_STREAM;
    }

    /** A chunk of this stream begins with the basic header `basic`. */
    method Open(basic: BasicHead) returns (next: ParserState)
      modifies this
      ensures s == Opened(old(s), basic) && next == AfterBasicHead(s)
    {
      s := s.(pkt := s.pkt.(basic := basic));
      next := MsgHeadState;
      if s.message == [] {
        s := s.(firstChunkFmt := basic.fmt);
      }
      if basic.fmt == 3 {
        next := if s.hasExtTs then ExtendTsState else PayloadState;
      }
    }

    /** The last bytes of a chunk arrive; the message is handed over once it is complete. */
    method Take(piece: bytes) returns (emitted: Option<Message>)
      modifies this
      ensures (s, emitted) == Taken(old(s), piece) && s.pkt == old(s.pkt)
    {
      s := s.(message := s.message + piece, chunkRead := 0);
      emitted := None;
      var h := s.pkt.msgHdr;
      if h.msgLen <= |s.message| {
        if s.firstChunkFmt == 0 {
          s := s.(timestamp := h.timestamp);
        } else {
          s := s.(timestamp := (s.timestamp as int + h.timestamp as int) % TWO_32);
        }
        emitted := Some(Message(s.timestamp, s.message, h.typeId, h.streamId));
        s := s.(message := []);
      }
    }
  }

  lemma {:induction false} StartsChunk(rs: ReaderState, rest: bytes)
    requires rs.headCache != [] && BasicHeadLen(rs.headCache) <= |rs.headCache|
    ensures var basic := DecodeBasic(rs.headCache);
            var full := basic.csid !in rs.cks && rs.maxChunkStreams > 0 && |rs.cks| >= rs.maxChunkStreams;
            var cs := Opened(if basic.csid in rs.cks then rs.cks[basic.csid] else NEW_STREAM, basic);
            var rs' := rs.(cur := basic.csid, cks := rs.cks[basic.csid := cs], headCache := [], state := AfterBasicHead(cs));
            StartChunk(rs, rest) == if full then Failed(rs, TooManyChunkStreams) else Advanced(rs', rest, None)
  {
  }

  /** What one turn of the loop does with the control flow. */
  datatype Turn = GiveUp(error: Error) | WaitForMore | GoOn(rest: bytes, emitted: Option<Message>)

  ghost predicate Did(r: StepResult, turn: Turn, after: ReaderState) {
    match r
    case Failed(rs, e) => turn == GiveUp(e) && after == rs
    case NeedMore(rs) => turn == WaitForMore && after == rs
    case Advanced(rs, rest, m) => turn == GoOn(rest, m) && after == rs
  }

  /**
   `view` is the abstract state: what the fields say, with the streams' fields
   in place of the pointers to them.
   */
  class ChunkStreamReader {
    var current: ChunkStream
    var cks: map<u32, ChunkStream>
    var chunkSize: u32
    var state: ParserState
    var headCache: bytes
    var recvBytes: u64
    const maxChunkStreams: int
    const maxBufferedMsgLen: int
    var buffered: int
    ghost var view: ReaderState

    ghost function Streams(): set<ChunkStream>
      reads this
    {
      cks.Values + {current}
    }

    /** The table is keyed by the ids its streams carry, so no two ids share a stream. */
    ghost predicate Tied()
      reads this, current, cks.Values
    {
      && view == ReaderState(current.s.pkt.basic.csid, view.cks, chunkSize, state, headCache, maxChunkStreams, maxBufferedMsgLen, buffered)
      && view.cks.Keys == cks.Keys
      && (forall c :: c in cks ==> cks[c].s == view.cks[c] && cks[c].s.pkt.basic.csid == c)
      && (state != BasicHeadState ==> current.s.pkt.basic.csid in cks && cks[current.s.pkt.basic.csid] == current)
    }

    constructor (chunkSize: u32, maxChunkStreams: int, maxBufferedMsgLen: int)
      ensures Tied() && Inv(view) && fresh(Streams())
      ensures view == NewReader(chunkSize, maxChunkStreams, maxBufferedMsgLen) && recvBytes == 0
    {
      var first := new ChunkStream();
      current, cks := first, map[];
      this.chunkSize, this.maxChunkStreams, this.maxBufferedMsgLen := chunkSize, maxChunkStreams, maxBufferedMsgLen;
      state, headCache, recvBytes, buffered := BasicHeadState, [], 0, 0;
      view := NewReader(chunkSize, maxChunkStreams, maxBufferedMsgLen);
    }

    method BasicHeadTurn(data: bytes) returns (turn: Turn)
      requires Tied() && state == BasicHeadState && data != []
      requires headCache == [] || |headCache| < BasicHeadLen(headCache)
      modifies this, cks.Values
      ensures Tied() && Streams() <= old(Streams()) + {current} && (current in old(Streams()) || fresh(current))
      ensures recvBytes == old(recvBytes)
      ensures Did(StepBasicHead(old(view), data), turn, view)
    {
      hide StartChunk;
      var length := BasicHeadLen(if headCache != [] then headCache else data);
      if length > |headCache| + |data| {
        headCache := headCache + data;
        view := view.(headCache := headCache);
        return WaitForMore;
      }
      var n := length - |headCache|;
      assert BasicHeadLen(headCache + data[..n]) == length;
      headCache := headCache + data[..n];
      view := view.(headCache := headCache);
      turn := StartChunkTurn(data[n..]);
    }

    /** Every stream but the current one is tied to the abstract state under its id. */
    ghost predicate Loose(csid: u32)
      reads this, current, cks.Values
    {
      && csid in cks && cks[csid] == current
      && view.cks.Keys + {csid} == cks.Keys
      && forall c :: c in cks && c != csid ==>
           cks[c].s == view.cks[c] && cks[c].s.pkt.basic.csid == c && cks[c] != current
    }

    method StartChunkTurn(rest: bytes) returns (turn: Turn)
      requires Tied() && state == BasicHeadState
      requires headCache != [] && BasicHeadLen(headCache) <= |headCache|
      modifies this, cks.Values
      ensures Tied() && Streams() <= old(Streams()) + {current} && (current in old(Streams()) || fresh(current))
      ensures recvBytes == old(recvBytes)
      ensures Did(StartChunk(old(view), rest), turn, view)
    {
      var basic := DecodeBasic(headCache);
      StartsChunk(view, rest);
      hide DecodeBasic, BasicHeadLen, AfterBasicHead, Opened, StartChunk;
      if basic.csid in cks {
        ReuseStream(basic);
      } else {
        assert |view.cks| == |view.cks.Keys| == |cks|;
        if maxChunkStreams > 0 && |cks| >= maxChunkStreams {
          return GiveUp(TooManyChunkStreams);
        }
        AddStream(basic);
      }
      hide Tied;
      turn := GoOn(rest, None);
    }

    method ReuseStream(basic: BasicHead)
      requires Tied() && state == BasicHeadState && basic.csid in cks
      modifies this, cks.Values
      ensures Tied() && current == old(cks)[basic.csid] && cks == old(cks) && recvBytes == old(recvBytes)
      ensures Streams() <= old(Streams()) + {current}
      ensures var cs := Opened(old(view).cks[basic.csid], basic);
              view == old(view).(cur := basic.csid, cks := old(view).cks[basic.csid := cs], headCache := [], state := AfterBasicHead(cs))
    {
      hide AfterBasicHead, Opened;
      current := cks[basic.csid];
      view := view.(cur := basic.csid);
      assert view.cks.Keys + {basic.csid} == cks.Keys;
      OpenCurrent(basic);
    }

    method AddStream(basic: BasicHead)
      requires Tied() && state == BasicHeadState && basic.csid !in cks
      modifies this
      ensures Tied() && fresh(current) && cks == old(cks)[basic.csid := current] && recvBytes == old(recvBytes)
      ensures Streams() <= old(Streams()) + {current}
      ensures var cs := Opened(NEW_STREAM, basic);
              view == old(view).(cur := basic.csid, cks := old(view).cks[basic.csid := cs], headCache := [], state := AfterBasicHead(cs))
    {
      hide AfterBasicHead, Opened;
      current := new ChunkStream();
      cks := cks[basic.csid := current];
      view := view.(cur := basic.csid);
      assert view.cks.Keys + {basic.csid} == cks.Keys;
      OpenCurrent(basic);
    }

    /** The located stream takes the basic header. */
    method OpenCurrent(basic: BasicHead)
      requires view == ReaderState(basic.csid, view.cks, chunkSize, BasicHeadState, headCache, maxChunkStreams, maxBufferedMsgLen, buffered)
      requires Loose(basic.csid)
      modifies this, current
      ensures Tied() && current == old(current) && cks == old(cks) && recvBytes == old(recvBytes)
      ensures var cs := Opened(old(current.s), basic);
              view == old(view).(cks := old(view).cks[basic.csid := cs], headCache := [], state := AfterBasicHead(cs))
    {
      hide AfterBasicHead;
      headCache := [];
      state := current.Open(basic);
      Store();
    }

    method MsgHeadTurn(data: bytes) returns (turn: Turn)
      requires Tied() && state == MsgHeadState
      requires current.s.pkt.basic.fmt <= 2 && |current.s.hdr| < MsgHeadLen(current.s.pkt.basic.fmt)
      modifies this, current
      ensures Tied() && current == old(current) && cks == old(cks) && recvBytes == old(recvBytes)
      ensures Did(StepMsgHead(old(view), data), turn, view)
    {
      hide DecodeMsgHead, Tied;
      Mirrors();
      var length := MsgHeadLen(current.s.pkt.basic.fmt);
      hide MsgHeadLen;
      if |data| + |current.s.hdr| < length {
        Replace(current.s.(hdr := current.s.hdr + data), state);
        return WaitForMore;
      }
      var n := length - |current.s.hdr|;
      var h := DecodeMsgHead(current.s.pkt.msgHdr, current.s.pkt.basic.fmt, current.s.hdr + data[..n]);
      var ext := h.timestamp == EXT_TS;
      Replace(current.s.(pkt := current.s.pkt.(msgHdr := h), hasExtTs := ext, hdr := []), if ext then ExtendTsState else PayloadState);
      turn := GoOn(data[n..], None);
    }

    /** The current stream and the parser state change together. */
    method Replace(cs: StreamState, next: ParserState)
      requires Tied() && state != BasicHeadState && cs.pkt.basic.csid == current.s.pkt.basic.csid
      modifies this, current
      ensures Tied() && current == old(current) && cks == old(cks) && recvBytes == old(recvBytes)
      ensures view == old(view).(cks := old(view).cks[old(view).cur := cs], state := next)
    {
      current.s := cs;
      state := next;
      Store();
    }

    /** Brings the abstract state up to date after the current stream has changed. */
    ghost method Store()
      requires current.s.pkt.basic.csid == view.cur && view.cur in cks && cks[view.cur] == current
      requires view.cks.Keys + {view.cur} == cks.Keys
      requires forall c :: c in cks && c != view.cur ==> cks[c].s == view.cks[c] && cks[c].s.pkt.basic.csid == c
      modifies `view
      ensures Tied()
      ensures view == ReaderState(old(view.cur), old(view.cks)[old(view.cur) := current.s],
                                  chunkSize, state, headCache, maxChunkStreams, maxBufferedMsgLen, buffered)
    {
      view := ReaderState(view.cur, view.cks[view.cur := current.s],
                          chunkSize, state, headCache, maxChunkStreams, maxBufferedMsgLen, buffered);
    }

    method ExtendTsTurn(data: bytes) returns (turn: Turn)
      requires Tied() && state == ExtendTsState && |current.s.hdr| < 4
      modifies this, current
      ensures Tied() && current == old(current) && cks == old(cks) && recvBytes == old(recvBytes)
      ensures Did(StepExtendTs(old(view), data), turn, view)
    {
      hide U32, Tied;
      Mirrors();
      if |data| + |current.s.hdr| < 4 {
        Replace(current.s.(hdr := current.s.hdr + data), state);
        return WaitForMore;
      }
      var n := 4 - |current.s.hdr|;
      var h := current.s.pkt.msgHdr.(timestamp := U32(current.s.hdr + data[..n]));
      Replace(current.s.(pkt := current.s.pkt.(msgHdr := h), hdr := []), PayloadState);
      turn := GoOn(data[n..], None);
    }

    method PayloadTurn(data: bytes) returns (turn: Turn)
      requires Tied() && state == PayloadState
      requires |current.s.message| <= current.s.pkt.msgHdr.msgLen ==> current.s.chunkRead <= NeedLen(current.s, chunkSize)
      modifies this, current
      ensures Tied() && current == old(current) && cks == old(cks) && recvBytes == old(recvBytes)
      ensures Did(StepPayload(old(view), data), turn, view)
    {
      hide Tied;
      Mirrors();
      var msgLen := current.s.pkt.msgHdr.msgLen;
      if msgLen > MAX_MESSAGE_LEN || |current.s.message| > msgLen {
        return GiveUp(LengthOutOfRange);
      }
      var needLen := msgLen - (|current.s.message| - current.s.chunkRead);
      if needLen > chunkSize {
        needLen := chunkSize;
      }
      var remain := needLen - current.s.chunkRead;
      assert needLen == NeedLen(current.s, chunkSize);
      hide NeedLen, Taken;
      if maxBufferedMsgLen > 0 && buffered + remain > maxBufferedMsgLen {
        return GiveUp(BufferedTooMuch);
      }
      if |data| < remain {
        turn := PartialChunk(data);
      } else {
        turn := WholeChunk(data, remain);
      }
    }

    method PartialChunk(data: bytes) returns (turn: Turn)
      requires Tied() && state == PayloadState
      modifies this, current
      ensures Tied() && current == old(current) && cks == old(cks) && recvBytes == old(recvBytes)
      ensures turn == WaitForMore
      ensures var cs := old(current.s);
              view == old(view).(
                cks := old(view).cks[old(view).cur := cs.(message := cs.message + data, chunkRead := cs.chunkRead + |data|)],
                buffered := old(buffered) + |data|)
    {
      current.s := current.s.(message := current.s.message + data, chunkRead := current.s.chunkRead + |data|);
      buffered := buffered + |data|;
      Store();
      turn := WaitForMore;
    }

    method WholeChunk(data: bytes, remain: nat) returns (turn: Turn)
      requires Tied() && state == PayloadState && remain <= |data|
      modifies this, current
      ensures Tied() && current == old(current) && cks == old(cks) && recvBytes == old(recvBytes)
      ensures var (cs', emitted) := Taken(old(current.s), data[..remain]);
              && turn == GoOn(data[remain..], emitted)
              && view == old(view).(
                   cks := old(view).cks[old(view).cur := cs'],
                   buffered := old(buffered) + remain - (if emitted.Some? then |emitted.value.payload| else 0),
                   state := BasicHeadState)
    {
      hide Taken;
      var emitted := current.Take(data[..remain]);
      buffered := buffered + remain;
      state := BasicHeadState;
      if emitted.Some? {
        buffered := buffered - |emitted.value.payload|;
      }
      Store();
      turn := GoOn(data[remain..], emitted);
    }

    /** One turn of the parser loop. */
    method Turn(data: bytes) returns (turn: Turn)
      requires Tied() && Inv(view) && (data != [] || view.AtEmptyMessage())
      modifies this, Streams()
      ensures Tied() && Streams() <= old(Streams()) + {current} && (current in old(Streams()) || fresh(current))
      ensures recvBytes == old(recvBytes)
      ensures Did(Step(old(view), data), turn, view)
    {
      hide StepBasicHead, StepMsgHead, StepExtendTs, StepPayload, Held;
      if state != BasicHeadState {
        assert current.s == view.cks[view.cur];
        PayloadReady(view);
      }
      match state {
        case BasicHeadState => turn := BasicHeadTurn(data);
        case MsgHeadState => turn := MsgHeadTurn(data);
        case ExtendTsState => turn := ExtendTsTurn(data);
        case PayloadState => turn := PayloadTurn(data);
      }
    }

    /** The fields the loop tests, read off the abstract state. */
    lemma {:induction false} Mirrors()
      requires Tied()
      ensures state == view.state && chunkSize == view.chunkSize && buffered == view.buffered
      ensures maxBufferedMsgLen == view.maxBufferedMsgLen && view.cur == current.s.pkt.basic.csid
      ensures state != BasicHeadState ==> view.cur in view.cks && view.cks[view.cur] == current.s
    {
    }

    method CountBytes(n: nat)
      requires Tied()
      modifies `recvBytes
      ensures Tied() && recvBytes == (old(recvBytes) as int + n) % TWO_64
    {
      recvBytes := (recvBytes as int + n) % TWO_64;
    }

    /** Applies the callback's answer. */
    method Obey(answer: Reaction)
      requires Tied()
      modifies `chunkSize, `view
      ensures Tied() && view == React(old(view), answer)
    {
      if answer.Continue? && answer.chunkSize.Some? {
        chunkSize := answer.chunkSize.value;
      }
      view := React(view, answer);
    }

    /**
     `log` stands for what the callback has seen before; the method returns
     the error and what it has seen after.
     */
    method ReadRtmpMessage(input: bytes, log: seq<Message>, onMsg: Handler)
      returns (error: Option<Error>, delivered: seq<Message>)
      requires Tied() && Inv(view)
      modifies this, Streams()
      ensures fresh(Streams() - old(Streams())) && Tied()
      ensures Outcome(view, delivered, error) == Loop(old(view), input, log, onMsg)
      ensures error.None? ==> Inv(view)
      ensures recvBytes == (old(recvBytes) as int + |input|) % TWO_64
    {
      hide Loop, Step, Inv, Tied;
      CountBytes(|input|);
      ghost var total := recvBytes;
      var data := input;
      delivered := log;
      error := None;
      Mirrors();
      while data != [] || (state == PayloadState && current.s.pkt.msgHdr.msgLen == 0)
        invariant Tied() && Inv(view) && state == view.state && fresh(Streams() - old(Streams())) && recvBytes == total && error == None
        invariant Loop(view, data, delivered, onMsg) == Loop(old(view), input, log, onMsg)
        decreases |data|, if state == PayloadState then 1 else 0
      {
        Mirrors();
        LoopTurn(view, data, delivered, onMsg);
        var turn := Turn(data);
        match turn {
          case GiveUp(e) => error := Some(e); return;
          case WaitForMore => return;
          case GoOn(rest, emitted) =>
            data := rest;
            Mirrors();
            if emitted.Some? {
              delivered := delivered + [emitted.value];
              var answer := onMsg(delivered);
              if answer.Fail? {
                error := Some(HandlerFailed);
                return;
              }
              Obey(answer);
              Mirrors();
            }
        }
      }
      Mirrors();
      LoopEnds(view, delivered, onMsg);
    }
  }
}
