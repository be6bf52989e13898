/** What the chunk writers put on the wire, the chunk reader gives back. */
module RtmpRoundTrip {
  import opened Bytes
  import opened Wrappers
  import opened RtmpWire
  import opened RtmpReader
  import opened RtmpWriter

  // --------------------------------------------------- parsing one header

  ghost predicate Between(rs: ReaderState) {
    Inv(rs) && rs.state == BasicHeadState && rs.headCache == []
  }

  predicate Room(rs: ReaderState, csid: u32) {
    csid in rs.cks || rs.maxChunkStreams <= 0 || |rs.cks| < rs.maxChunkStreams
  }

  function StreamOf(rs: ReaderState, csid: u32): StreamState {
    if csid in rs.cks then rs.cks[csid] else NEW_STREAM
  }

  function AfterBasic(rs: ReaderState, bh: BasicHead): ReaderState {
    var cs := Opened(StreamOf(rs, bh.csid), bh);
    rs.(cur := bh.csid, cks := rs.cks[bh.csid := cs],
        state := AfterBasicHead(cs))
  }

  lemma {:induction false} TurnBasic(rs: ReaderState, bh: BasicHead, rest: bytes, log: seq<Message>, onMsg: Handler)
    requires Between(rs) && bh.fmt <= 3 && 2 <= bh.csid <= MAX_CSID && Room(rs, bh.csid)
    ensures Inv(AfterBasic(rs, bh))
    ensures Loop(rs, BasicBytes(bh) + rest, log, onMsg) == Loop(AfterBasic(rs, bh), rest, log, onMsg)
  {
    hide Held;
    BasicRoundTrip(bh, rest);
    var b := BasicBytes(bh);
    hide BasicBytes, DecodeBasic, BasicHeadLen;
    assert b + rest != [];
    assert (b + rest)[..|b|] == b && (b + rest)[|b|..] == rest;
    assert [] + b == b;
    assert Step(rs, b + rest) == Advanced(AfterBasic(rs, bh), rest, None);
    StepKeepsInv(rs, b + rest);
  }

  /** The stream once a message header carrying `h` in format `fmt` has been read. */
  function Described(cs: StreamState, h: MsgHead, fmt: byte): StreamState {
    var m := cs.pkt.msgHdr;
    var m' := MsgHead(
      if h.HasExtendedTs() then EXT_TS else h.timestamp,
      if fmt <= 1 then h.msgLen else m.msgLen,
      if fmt <= 1 then h.typeId else m.typeId,
      if fmt == 0 then h.streamId else m.streamId);
    cs.(pkt := cs.pkt.(msgHdr := m'), hasExtTs := h.HasExtendedTs())
  }

  function AfterMsgHead(rs: ReaderState, h: MsgHead, fmt: byte): ReaderState
    requires rs.cur in rs.cks
  {
    rs.(cks := rs.cks[rs.cur := Described(rs.cks[rs.cur], h, fmt)],
        state := if h.HasExtendedTs() then ExtendTsState else PayloadState)
  }

  lemma {:induction false} TurnMsgHead(rs: ReaderState, h: MsgHead, fmt: byte, rest: bytes, log: seq<Message>, onMsg: Handler)
    requires Inv(rs) && rs.state == MsgHeadState && rs.cks[rs.cur].hdr == []
    requires fmt == rs.cks[rs.cur].pkt.basic.fmt && h.msgLen <= MAX_MESSAGE_LEN
    ensures Inv(AfterMsgHead(rs, h, fmt))
    ensures Loop(rs, MsgHeadBytes(h, fmt) + rest, log, onMsg) == Loop(AfterMsgHead(rs, h, fmt), rest, log, onMsg)
  {
    hide Held;
    var cs := rs.cks[rs.cur];
    MsgHeadRoundTrip(h, cs.pkt.msgHdr, fmt);
    var b := MsgHeadBytes(h, fmt);
    hide MsgHeadBytes, DecodeMsgHead;
    assert (b + rest)[..|b|] == b && (b + rest)[|b|..] == rest;
    assert [] + b == b;
    assert Step(rs, b + rest) == Advanced(AfterMsgHead(rs, h, fmt), rest, None);
    StepKeepsInv(rs, b + rest);
  }

  function Timed(cs: StreamState, ts: u32): StreamState {
    cs.(pkt := cs.pkt.(msgHdr := cs.pkt.msgHdr.(timestamp := ts)))
  }

  function AfterExtendTs(rs: ReaderState, ts: u32): ReaderState
    requires rs.cur in rs.cks
  {
    rs.(cks := rs.cks[rs.cur := Timed(rs.cks[rs.cur], ts)], state := PayloadState)
  }

  lemma {:induction false} TurnExtendTs(rs: ReaderState, ts: u32, rest: bytes, log: seq<Message>, onMsg: Handler)
    requires Inv(rs) && rs.state == ExtendTsState && rs.cks[rs.cur].hdr == []
    ensures Inv(AfterExtendTs(rs, ts))
    ensures Loop(rs, PutU32(ts) + rest, log, onMsg) == Loop(AfterExtendTs(rs, ts), rest, log, onMsg)
  {
    hide Held;
    U32RoundTrip(ts, []);
    var b := PutU32(ts);
    hide PutU32;
    assert (b + rest)[..4] == b && (b + rest)[4..] == rest;
    assert [] + b == b && b + [] == b;
    assert Step(rs, b + rest) == Advanced(AfterExtendTs(rs, ts), rest, None);
    StepKeepsInv(rs, b + rest);
  }

  /**
   What a stream must already know for the header `p` to describe a whole
   message: formats 2 and 3 leave out length and type, format 3 the time too.
   */
  predicate Primed(cs: StreamState, p: ChunkPacket) {
    var m := cs.pkt.msgHdr;
    && (p.basic.fmt >= 2 ==> m.msgLen == p.msgHdr.msgLen && m.typeId == p.msgHdr.typeId)
    && (p.basic.fmt == 3 ==> m.timestamp == p.msgHdr.timestamp && cs.hasExtTs == p.msgHdr.HasExtendedTs())
  }

  /** The stream after the whole chunk header `p`. */
  function Headed(cs: StreamState, p: ChunkPacket): StreamState {
    var streamId := if p.basic.fmt == 0 then p.msgHdr.streamId else cs.pkt.msgHdr.streamId;
    Opened(cs, p.basic).(pkt := p.(msgHdr := p.msgHdr.(streamId := streamId)), hasExtTs := p.msgHdr.HasExtendedTs())
  }

  function AfterHead(rs: ReaderState, p: ChunkPacket): ReaderState {
    rs.(cur := p.basic.csid, cks := rs.cks[p.basic.csid := Headed(StreamOf(rs, p.basic.csid), p)], state := PayloadState)
  }

  lemma {:induction false} ParseHead(rs: ReaderState, p: ChunkPacket, rest: bytes, log: seq<Message>, onMsg: Handler)
    requires Between(rs) && p.basic.fmt <= 3 && 2 <= p.basic.csid <= MAX_CSID && Room(rs, p.basic.csid)
    requires p.msgHdr.msgLen <= MAX_MESSAGE_LEN && Primed(StreamOf(rs, p.basic.csid), p)
    ensures Inv(AfterHead(rs, p))
    ensures Loop(rs, HeadBytes(p) + rest, log, onMsg) == Loop(AfterHead(rs, p), rest, log, onMsg)
  {
    hide Loop, Held, BasicBytes, MsgHeadBytes, PutU32, Inv;
    var c := p.basic.csid;
    var ext := ExtTsBytes(p.msgHdr);
    var head := MsgHeadBytes(p.msgHdr, p.basic.fmt);
    assert HeadBytes(p) + rest == BasicBytes(p.basic) + (head + (ext + rest));
    TurnBasic(rs, p.basic, head + (ext + rest), log, onMsg);
    var rs1 := AfterBasic(rs, p.basic);
    var rs2 := if p.basic.fmt == 3 then rs1 else AfterMsgHead(rs1, p.msgHdr, p.basic.fmt);
    assert rs1.cks[c].hdr == [] by { ParkedBetween(rs, c); }
    if p.basic.fmt == 3 {
      assert head == [] by { assert |head| == 0; }
      assert head + (ext + rest) == ext + rest;
    } else {
      TurnMsgHead(rs1, p.msgHdr, p.basic.fmt, ext + rest, log, onMsg);
    }
    if p.msgHdr.HasExtendedTs() {
      TurnExtendTs(rs2, p.msgHdr.timestamp, rest, log, onMsg);
      assert AfterExtendTs(rs2, p.msgHdr.timestamp) == AfterHead(rs, p);
    } else {
      assert ext + rest == rest;
      assert rs2 == AfterHead(rs, p);
    }
  }

  lemma {:induction false} ParkedBetween(rs: ReaderState, c: u32)
    requires Between(rs)
    ensures Parked(StreamOf(rs, c))
  {
  }

  // -------------------------------------------------- parsing one message

  function TimeOf(cs: StreamState, fmt: byte, ts: u32): u32 {
    if fmt == 0 then ts else (cs.timestamp as int + ts as int) % TWO_32
  }

  /** The state after the last chunk of a message, with the message it completes. */
  function Completed(rs: ReaderState, payload: bytes): (ReaderState, Message)
    requires rs.cur in rs.cks
  {
    var cs := rs.cks[rs.cur];
    var ts := TimeOf(cs, cs.firstChunkFmt, cs.pkt.msgHdr.timestamp);
    (rs.(cks := rs.cks[rs.cur := cs.(message := [], timestamp := ts)], buffered := rs.buffered - |cs.message|, state := BasicHeadState),
     Message(ts, payload, cs.pkt.msgHdr.typeId, cs.pkt.msgHdr.streamId))
  }

  /** The rest of a run once message `m` has been completed. */
  ghost function AfterMessage(rs: ReaderState, m: Message, rest: bytes, log: seq<Message>, onMsg: Handler): Outcome
    requires Between(rs)
  {
    var answer := onMsg(log + [m]);
    if answer.Fail? then Outcome(rs, log + [m], Some(HandlerFailed))
    else
      ReactKeepsInv(rs, answer);
      Loop(React(rs, answer), rest, log + [m], onMsg)
  }

  /** A whole chunk payload in the input. */
  ghost predicate ChunkAhead(rs: ReaderState, piece: bytes) {
    && Inv(rs) && rs.state == PayloadState && piece != []
    && var cs := rs.cks[rs.cur];
    && cs.chunkRead == 0 && |piece| == NeedLen(cs, rs.chunkSize)
    && (rs.maxBufferedMsgLen > 0 ==> rs.buffered + |piece| <= rs.maxBufferedMsgLen)
  }

  lemma {:induction false} TurnChunk(rs: ReaderState, piece: bytes, rest: bytes, log: seq<Message>, onMsg: Handler)
    requires ChunkAhead(rs, piece) && |rs.cks[rs.cur].message| + |piece| < rs.cks[rs.cur].pkt.msgHdr.msgLen
    ensures var cs := rs.cks[rs.cur];
            var rs' := rs.(cks := rs.cks[rs.cur := cs.(message := cs.message + piece)], buffered := rs.buffered + |piece|, state := BasicHeadState);
            Between(rs') && Loop(rs, piece + rest, log, onMsg) == Loop(rs', rest, log, onMsg)
  {
    hide Held;
    assert (piece + rest)[..|piece|] == piece && (piece + rest)[|piece|..] == rest;
    StepKeepsInv(rs, piece + rest);
  }

  lemma {:induction false} TurnLastChunk(rs: ReaderState, piece: bytes, rest: bytes, log: seq<Message>, onMsg: Handler)
    requires ChunkAhead(rs, piece) && |rs.cks[rs.cur].message| + |piece| == rs.cks[rs.cur].pkt.msgHdr.msgLen
    ensures var (rs', m) := Completed(rs, rs.cks[rs.cur].message + piece);
            Between(rs') && Loop(rs, piece + rest, log, onMsg) == AfterMessage(rs', m, rest, log, onMsg)
  {
    hide Held;
    assert (piece + rest)[..|piece|] == piece && (piece + rest)[|piece|..] == rest;
    var (rs', m) := Completed(rs, rs.cks[rs.cur].message + piece);
    assert Step(rs, piece + rest) == Advanced(rs', rest, Some(m));
    StepKeepsInv(rs, piece + rest);
    hide Step, StreamsOk, CurrentOk;
  }

  /** The reader has `sent` of the message `p` describes; `data` is still to come. */
  ghost predicate MidMessage(rs: ReaderState, p: ChunkPacket, sent: bytes, data: bytes) {
    && Between(rs)
    && p.basic.fmt <= 3 && 2 <= p.basic.csid <= MAX_CSID && Room(rs, p.basic.csid)
    && var cs := StreamOf(rs, p.basic.csid);
    && Primed(cs, p) && cs.message == sent
    && (sent != [] ==> p.basic.fmt == 3)
    && data != [] && |sent| + |data| == p.msgHdr.msgLen <= MAX_MESSAGE_LEN
    && rs.buffered == |sent| && rs.chunkSize > 0
    && (rs.maxBufferedMsgLen > 0 ==> |sent| + |data| <= rs.maxBufferedMsgLen)
  }

  /** What completing that message leaves behind and delivers. */
  ghost predicate MessageDone(rs: ReaderState, p: ChunkPacket, payload: bytes, rs': ReaderState, m: Message) {
    var c := p.basic.csid;
    var cs := StreamOf(rs, c);
    var streamId := if p.basic.fmt == 0 then p.msgHdr.streamId else cs.pkt.msgHdr.streamId;
    var fmt := if cs.message == [] then p.basic.fmt else cs.firstChunkFmt;
    && Between(rs')
    && c in rs'.cks && rs'.cks == rs.cks[c := rs'.cks[c]]
    && rs'.chunkSize == rs.chunkSize && rs'.buffered == 0
    && rs'.maxChunkStreams == rs.maxChunkStreams && rs'.maxBufferedMsgLen == rs.maxBufferedMsgLen
    && var cs' := rs'.cks[c];
    && cs'.message == [] && cs'.hasExtTs == p.msgHdr.HasExtendedTs()
    && cs'.pkt.msgHdr == p.msgHdr.(streamId := streamId)
    && cs'.timestamp == TimeOf(cs, fmt, p.msgHdr.timestamp)
    && m == Message(cs'.timestamp, payload, p.msgHdr.typeId, streamId)
  }

  /** The state after one more chunk that does not end the message. */
  function AfterChunk(rs: ReaderState, p: ChunkPacket, piece: bytes): ReaderState {
    var rs1 := AfterHead(rs, p);
    var cs := rs1.cks[rs1.cur];
    rs1.(cks := rs1.cks[rs1.cur := cs.(message := cs.message + piece)],
         buffered := rs1.buffered + |piece|, state := BasicHeadState)
  }

  lemma {:induction false} HeadThenPiece(rs: ReaderState, p: ChunkPacket, sent: bytes, data: bytes)
    requires MidMessage(rs, p, sent, data) && Inv(AfterHead(rs, p))
    ensures ChunkAhead(AfterHead(rs, p), data[..Min(|data|, rs.chunkSize)])
    ensures AfterHead(rs, p).cks[p.basic.csid].message == sent
    ensures AfterHead(rs, p).cks[p.basic.csid].pkt.msgHdr.msgLen == |sent| + |data|
  {
    hide Inv;
    ParkedBetween(rs, p.basic.csid);
  }

  /** What the next chunk finds is again the middle of the same message. */
  lemma {:induction false} MiddleCarries(rs: ReaderState, p: ChunkPacket, sent: bytes, piece: bytes, tail: bytes)
    requires MidMessage(rs, p, sent, piece + tail) && piece != [] && tail != []
    requires Between(AfterChunk(rs, p, piece))
    ensures MidMessage(AfterChunk(rs, p, piece), Continuation(p), sent + piece, tail)
  {
    hide Inv;
  }

  lemma {:induction false} DoneCarries(rs: ReaderState, p: ChunkPacket, sent: bytes, piece: bytes, tail: bytes, rs': ReaderState, m: Message)
    requires MidMessage(rs, p, sent, piece + tail) && piece != []
    requires MessageDone(AfterChunk(rs, p, piece), Continuation(p), sent + piece + tail, rs', m)
    ensures MessageDone(rs, p, sent + (piece + tail), rs', m)
  {
    hide Inv;
    assert sent + (piece + tail) == sent + piece + tail;
    var c := p.basic.csid;
    var cks1 := AfterChunk(rs, p, piece).cks;
    assert cks1 == rs.cks[c := cks1[c]];
    StoreTwice(rs.cks, c, cks1[c], rs'.cks[c]);
  }

  lemma {:induction false} LastCarries(rs: ReaderState, p: ChunkPacket, sent: bytes, data: bytes)
    requires MidMessage(rs, p, sent, data)
    requires Between(Completed(AfterHead(rs, p), sent + data).0)
    ensures var (rs', m) := Completed(AfterHead(rs, p), sent + data);
            MessageDone(rs, p, sent + data, rs', m)
  {
    hide Inv;
    var c := p.basic.csid;
    var (rs', m) := Completed(AfterHead(rs, p), sent + data);
    StoreTwice(rs.cks, c, AfterHead(rs, p).cks[c], rs'.cks[c]);
  }

  /** Reading the chunks of the rest of a message completes exactly that message. */
  lemma {:induction false} ReadMessage(rs: ReaderState, p: ChunkPacket, sent: bytes, data: bytes, rest: bytes, log: seq<Message>, onMsg: Handler)
    returns (rs': ReaderState, m: Message)
    requires MidMessage(rs, p, sent, data)
    ensures MessageDone(rs, p, sent + data, rs', m)
    ensures Loop(rs, Chunks(p, data, rs.chunkSize) + rest, log, onMsg) == AfterMessage(rs', m, rest, log, onMsg)
    decreases |data|
  {
    hide Loop, Inv, AfterMessage, HeadBytes, MessageDone;
    var n := Min(|data|, rs.chunkSize);
    var piece, tail := data[..n], data[n..];
    assert data == piece + tail;
    var next := Continuation(p);
    var behind := Chunks(next, tail, rs.chunkSize);
    assert Chunks(p, data, rs.chunkSize) + rest == HeadBytes(p) + (piece + (behind + rest));
    ParseHead(rs, p, piece + (behind + rest), log, onMsg);
    var rs1 := AfterHead(rs, p);
    HeadThenPiece(rs, p, sent, data);
    if tail == [] {
      assert behind + rest == rest;
      TurnLastChunk(rs1, piece, rest, log, onMsg);
      assert piece == data;
      LastCarries(rs, p, sent, data);
      rs', m := Completed(rs1, sent + piece).0, Completed(rs1, sent + piece).1;
    } else {
      TurnChunk(rs1, piece, behind + rest, log, onMsg);
      MiddleCarries(rs, p, sent, piece, tail);
      rs', m := ReadMessage(AfterChunk(rs, p, piece), next, sent + piece, tail, rest, log, onMsg);
      DoneCarries(rs, p, sent, piece, tail, rs', m);
    }
  }

  // ----------------------------------------------------- runs of messages

  /** One call of writeData, on the writer of `csid` with its chunk size at the time. */
  datatype Send = Send(csid: u32, payload: bytes, typeId: byte, streamId: u32, ts: u32, chunkSize: u32)

  function MessageOf(s: Send): Message {
    Message(s.ts, s.payload, s.typeId, s.streamId)
  }

  function MessagesOf(sends: seq<Send>): seq<Message> {
    if sends == [] then [] else [MessageOf(sends[0])] + MessagesOf(sends[1..])
  }

  /** One writer per chunk stream id, created when first used. */
  type Writers = map<u32, WriterState>

  function WriterFor(ws: Writers, s: Send): WriterState {
    (if s.csid in ws then ws[s.csid] else NewWriter(s.csid, s.chunkSize)).(chunkSize := s.chunkSize)
  }

  predicate Sendable(s: Send) {
    2 <= s.csid <= MAX_CSID && |s.payload| <= MAX_MESSAGE_LEN
  }

  predicate WritersOk(ws: Writers) {
    forall c :: c in ws ==> ws[c].csid == c
  }

  function WriteOne(ws: Writers, s: Send): (r: (Writers, bytes))
    requires WritersOk(ws) && Sendable(s)
    ensures WritersOk(r.0)
  {
    var (w, r) := WriteData(WriterFor(ws, s), s.payload, s.typeId, s.streamId, s.ts);
    (ws[s.csid := w], r.value)
  }

  /** The wire bytes of a run of calls. */
  function WriteAll(ws: Writers, sends: seq<Send>): bytes
    requires WritersOk(ws) && forall s :: s in sends ==> Sendable(s)
    decreases |sends|
  {
    if sends == [] then []
    else
      var (ws', out) := WriteOne(ws, sends[0]);
      out + WriteAll(ws', sends[1..])
  }

  /**
   The reader's stream agrees with the writer's header state. `exact` is lost
   for good once an empty message has moved the writer's state without
   anything being sent.
   */
  ghost predicate Tracks(w: WriterState, rs: ReaderState, exact: bool) {
    && w.current.Some?
    && var h := w.current.value.msgHdr;
    && (exact ==> h.msgLen > 0)
    && (h.msgLen > 0 ==>
          && w.csid in rs.cks
          && var cs := rs.cks[w.csid];
          && cs.pkt.msgHdr == h.(streamId := cs.pkt.msgHdr.streamId)
          && cs.hasExtTs == h.HasExtendedTs()
          && (exact ==> cs.pkt.msgHdr.streamId == h.streamId && cs.timestamp == w.timestamp))
  }

  ghost predicate Sim(ws: Writers, rs: ReaderState, ids: set<u32>, exact: bool) {
    && Between(rs) && rs.buffered == 0
    && WritersOk(ws) && rs.cks.Keys <= ws.Keys && ws.Keys <= ids
    && (rs.maxChunkStreams > 0 ==> |ids| <= rs.maxChunkStreams)
    && (forall c :: c in rs.cks ==> rs.cks[c].message == [])
    && (forall c :: c in ws ==> Tracks(ws[c], rs, exact))
  }

  lemma {:induction false} RoomForAnother(ws: Writers, rs: ReaderState, ids: set<u32>, exact: bool, csid: u32)
    requires Sim(ws, rs, ids, exact) && csid in ids
    ensures Room(rs, csid)
  {
    if csid !in rs.cks {
      SubsetSize(rs.cks.Keys + {csid}, ids);
      assert |rs.cks.Keys + {csid}| == |rs.cks| + 1;
    }
  }

  lemma {:induction false} SubsetSize(a: set<u32>, b: set<u32>)
    requires a <= b
    ensures |a| <= |b|
    decreases a
  {
    if a != {} {
      var x :| x in a;
      SubsetSize(a - {x}, b - {x});
    }
  }

  /** The bounds the reader's limits put on one message. */
  predicate Fits(rs: ReaderState, s: Send) {
    rs.maxBufferedMsgLen > 0 ==> |s.payload| <= rs.maxBufferedMsgLen
  }

  lemma {:induction false} FirstChunkReady(ws: Writers, rs: ReaderState, ids: set<u32>, exact: bool, s: Send)
    requires Sim(ws, rs, ids, exact) && Sendable(s) && s.csid in ids && s.payload != [] && Fits(rs, s)
    requires rs.chunkSize == EffectiveChunkSize(WriterFor(ws, s))
    ensures var p := NextPacket(WriterFor(ws, s), |s.payload|, s.typeId, s.streamId, s.ts);
            MidMessage(rs, p, [], s.payload)
  {
    hide Inv;
    RoomForAnother(ws, rs, ids, exact, s.csid);
    var w := WriterFor(ws, s);
    var p := NextPacket(w, |s.payload|, s.typeId, s.streamId, s.ts);
    if p.basic.fmt >= 2 {
      assert s.csid in ws && Tracks(ws[s.csid], rs, exact);
    }
  }

  lemma {:induction false} SimCarries(ws: Writers, rs: ReaderState, ids: set<u32>, exact: bool, s: Send, rs': ReaderState, m: Message)
    requires Sim(ws, rs, ids, exact) && Sendable(s) && s.csid in ids && s.payload != []
    requires var p := NextPacket(WriterFor(ws, s), |s.payload|, s.typeId, s.streamId, s.ts);
             StreamOf(rs, s.csid).message == [] && MessageDone(rs, p, s.payload, rs', m)
    ensures Sim(WriteOne(ws, s).0, rs', ids, exact)
    ensures m.payload == s.payload && m.typeId == s.typeId
    ensures exact ==> m == MessageOf(s)
  {
    hide Inv, Chunks;
    var w := WriterFor(ws, s);
    var p := NextPacket(w, |s.payload|, s.typeId, s.streamId, s.ts);
    if exact && p.basic.fmt != 0 {
      assert s.csid in ws && Tracks(ws[s.csid], rs, exact);
      assert (w.timestamp + p.msgHdr.timestamp) % TWO_32 == s.ts;
    }
    var ws' := WriteOne(ws, s).0;
    assert Tracks(ws'[s.csid], rs', exact);
    forall c | c in ws'
      ensures Tracks(ws'[c], rs', exact)
    {
      if c != s.csid {
        assert Tracks(ws[c], rs, exact);
      }
    }
  }

  /** The stream id and time a reader has for a chunk stream between two messages. */
  datatype Known = Known(streamId: u32, timestamp: u32)

  function KnownIn(rs: ReaderState, csid: u32): Known {
    Known(StreamOf(rs, csid).pkt.msgHdr.streamId, StreamOf(rs, csid).timestamp)
  }

  /** What a reader that knows `k` makes of the message `p` describes. */
  function Received(k: Known, p: ChunkPacket, s: Send): Message {
    if p.basic.fmt == 0 then MessageOf(s)
    else Message((k.timestamp as int + p.msgHdr.timestamp as int) % TWO_32, s.payload, s.typeId, k.streamId)
  }

  lemma {:induction false} DoneTells(rs: ReaderState, p: ChunkPacket, s: Send, rs': ReaderState, m: Message)
    requires MessageDone(rs, p, s.payload, rs', m) && StreamOf(rs, s.csid).message == [] && p.basic.csid == s.csid
    requires p.msgHdr.typeId == s.typeId && (p.basic.fmt == 0 ==> p.msgHdr.timestamp == s.ts && p.msgHdr.streamId == s.streamId)
    ensures m == Received(KnownIn(rs, s.csid), p, s)
    ensures forall c :: KnownIn(rs', c) == if c == s.csid then Known(m.streamId, m.timestamp) else KnownIn(rs, c)
  {
    hide Inv;
  }

  /** One written message is read back, alone if `exact` has been lost. */
  lemma {:induction false} SendOne(ws: Writers, rs: ReaderState, ids: set<u32>, exact: bool, s: Send, rest: bytes, log: seq<Message>, onMsg: Handler)
    returns (rs': ReaderState, m: Message)
    requires Sim(ws, rs, ids, exact) && Sendable(s) && s.csid in ids && s.payload != [] && Fits(rs, s)
    requires rs.chunkSize == EffectiveChunkSize(WriterFor(ws, s))
    ensures Sim(WriteOne(ws, s).0, rs', ids, exact) && rs'.chunkSize == rs.chunkSize
    ensures rs'.maxBufferedMsgLen == rs.maxBufferedMsgLen
    ensures m.payload == s.payload && m.typeId == s.typeId
    ensures exact ==> m == MessageOf(s)
    ensures m == Received(KnownIn(rs, s.csid), NextPacket(WriterFor(ws, s), |s.payload|, s.typeId, s.streamId, s.ts), s)
    ensures forall c :: KnownIn(rs', c) == if c == s.csid then Known(m.streamId, m.timestamp) else KnownIn(rs, c)
    ensures Loop(rs, WriteOne(ws, s).1 + rest, log, onMsg) == AfterMessage(rs', m, rest, log, onMsg)
  {
    hide Inv, Loop, AfterMessage, Chunks;
    var p := NextPacket(WriterFor(ws, s), |s.payload|, s.typeId, s.streamId, s.ts);
    FirstChunkReady(ws, rs, ids, exact, s);
    rs', m := ReadMessage(rs, p, [], s.payload, rest, log, onMsg);
    assert [] + s.payload == s.payload;
    SimCarries(ws, rs, ids, exact, s, rs', m);
    DoneTells(rs, p, s, rs', m);
  }

  /**
   The callback keeps the reader's chunk size in step with the writers': after
   each message it sets the size the next one is written with.
   */
  ghost predicate SizesFollow(size: u32, sends: seq<Send>, log: seq<Message>, onMsg: Handler)
    decreases |sends|
  {
    sends != [] ==>
      var s := sends[0];
      var log' := log + [MessageOf(s)];
      && size == (if s.chunkSize == 0 then FIX_CHUNK_SIZE else s.chunkSize)
      && onMsg(log').Continue?
      && SizesFollow(if onMsg(log').chunkSize.Some? then onMsg(log').chunkSize.value else size, sends[1..], log', onMsg)
  }

  /** A run of one or more messages goes on after the first one as `onMsg` decides. */
  lemma {:induction false} AfterMessageContinues(ws: Writers, rs: ReaderState, m: Message, ids: set<u32>, exact: bool, rest: bytes, log: seq<Message>, onMsg: Handler)
    requires Sim(ws, rs, ids, exact) && onMsg(log + [m]).Continue?
    ensures var rs' := React(rs, onMsg(log + [m]));
            && Sim(ws, rs', ids, exact) && rs'.maxBufferedMsgLen == rs.maxBufferedMsgLen
            && AfterMessage(rs, m, rest, log, onMsg) == Loop(rs', rest, log + [m], onMsg)
  {
    hide Loop, Inv;
    ReactKeepsInv(rs, onMsg(log + [m]));
    var rs' := React(rs, onMsg(log + [m]));
    forall c | c in ws
      ensures Tracks(ws[c], rs', exact)
    {
      assert Tracks(ws[c], rs, exact);
    }
  }

  lemma {:induction false} NothingLeft(ws: Writers, rs: ReaderState, ids: set<u32>, exact: bool, log: seq<Message>, onMsg: Handler)
    requires Sim(ws, rs, ids, exact)
    ensures Loop(rs, [], log, onMsg) == Outcome(rs, log, None)
  {
  }

  /** Every message of a run without empty messages comes back, in order and complete. */
  lemma {:induction false} ExactRun(ws: Writers, rs: ReaderState, ids: set<u32>, sends: seq<Send>, log: seq<Message>, onMsg: Handler)
    requires Sim(ws, rs, ids, true) && SizesFollow(rs.chunkSize, sends, log, onMsg)
    requires forall s :: s in sends ==> Sendable(s) && s.csid in ids && s.payload != [] && Fits(rs, s)
    ensures var o := Loop(rs, WriteAll(ws, sends), log, onMsg);
            o.error == None && o.delivered == log + MessagesOf(sends) && o.rs.buffered == 0
    decreases |sends|
  {
    hide Inv, Loop, Sim, WriteOne, AfterMessage;
    if sends == [] {
      NothingLeft(ws, rs, ids, true, log, onMsg);
      assert Sim(ws, rs, ids, true) ==> rs.buffered == 0 by { SimIsIdle(ws, rs, ids, true); }
    } else {
      SimIsIdle(ws, rs, ids, true);
      var s, tail := sends[0], sends[1..];
      var rest := WriteAll(WriteOne(ws, s).0, tail);
      var rs', m := SendOne(ws, rs, ids, true, s, rest, log, onMsg);
      AfterMessageContinues(WriteOne(ws, s).0, rs', m, ids, true, rest, log, onMsg);
      SimIsIdle(WriteOne(ws, s).0, rs', ids, true);
      ExactRun(WriteOne(ws, s).0, React(rs', onMsg(log + [m])), ids, tail, log + [m], onMsg);
      assert log + [m] + MessagesOf(tail) == log + ([m] + MessagesOf(tail));
    }
  }

  lemma {:induction false} SimIsIdle(ws: Writers, rs: ReaderState, ids: set<u32>, exact: bool)
    requires Sim(ws, rs, ids, exact)
    ensures Between(rs) && WritersOk(ws) && rs.buffered == 0
  {
  }

  const QUIET: Handler := log => Continue(None)

  /** An empty message moves the writer's state but is not sent. */
  lemma {:induction false} EmptySend(ws: Writers, rs: ReaderState, ids: set<u32>, exact: bool, s: Send)
    requires Sim(ws, rs, ids, exact) && Sendable(s) && s.csid in ids && s.payload == []
    ensures WriteOne(ws, s).1 == []
    ensures Sim(WriteOne(ws, s).0, rs, ids, false)
  {
    hide Inv;
    var ws' := WriteOne(ws, s).0;
    forall c | c in ws'
      ensures Tracks(ws'[c], rs, false)
    {
      if c != s.csid {
        assert Tracks(ws[c], rs, exact);
      }
    }
  }

  /** The messages that are sent at all. */
  function Sent(sends: seq<Send>): seq<Send> {
    if sends == [] then []
    else if sends[0].payload == [] then Sent(sends[1..])
    else [sends[0]] + Sent(sends[1..])
  }

  function KnownAt(known: map<u32, Known>, csid: u32): Known {
    if csid in known then known[csid] else Known(0, 0)
  }

  /** What a reader that knows `known` of the chunk streams makes of a run. */
  function Heard(ws: Writers, known: map<u32, Known>, sends: seq<Send>): seq<Message>
    requires WritersOk(ws) && forall s :: s in sends ==> Sendable(s)
    decreases |sends|
  {
    if sends == [] then []
    else
      var s := sends[0];
      var ws' := WriteOne(ws, s).0;
      if s.payload == [] then Heard(ws', known, sends[1..])
      else
        var p := NextPacket(WriterFor(ws, s), |s.payload|, s.typeId, s.streamId, s.ts);
        var m := Received(KnownAt(known, s.csid), p, s);
        [m] + Heard(ws', known[s.csid := Known(m.streamId, m.timestamp)], sends[1..])
  }

  ghost predicate Knows(rs: ReaderState, known: map<u32, Known>) {
    forall c :: KnownIn(rs, c) == KnownAt(known, c)
  }

  /** A run with empty messages in it is read without an error, as `Heard` says. */
  lemma {:induction false} RunHeard(ws: Writers, rs: ReaderState, ids: set<u32>, exact: bool, known: map<u32, Known>, sends: seq<Send>, log: seq<Message>)
    requires Sim(ws, rs, ids, exact) && Knows(rs, known)
    requires forall s :: s in sends ==>
               Sendable(s) && s.csid in ids && Fits(rs, s) && rs.chunkSize == (if s.chunkSize == 0 then FIX_CHUNK_SIZE else s.chunkSize)
    ensures WritersOk(ws)
    ensures var o := Loop(rs, WriteAll(ws, sends), log, QUIET);
            o.error == None && o.delivered == log + Heard(ws, known, sends) && o.rs.buffered == 0
    decreases |sends|
  {
    hide Inv, Loop, Sim, WriteOne, AfterMessage, KnownIn, KnownAt, Received;
    SimIsIdle(ws, rs, ids, exact);
    if sends == [] {
      NothingLeft(ws, rs, ids, exact, log, QUIET);
    } else {
      var s, tail := sends[0], sends[1..];
      var ws' := WriteOne(ws, s).0;
      if s.payload == [] {
        EmptySend(ws, rs, ids, exact, s);
        SimIsIdle(ws', rs, ids, false);
        assert WriteAll(ws, sends) == WriteAll(ws', tail);
        RunHeard(ws', rs, ids, false, known, tail, log);
      } else {
        var rs', m := SendOne(ws, rs, ids, exact, s, WriteAll(ws', tail), log, QUIET);
        AfterMessageContinues(ws', rs', m, ids, exact, WriteAll(ws', tail), log, QUIET);
        var known' := known[s.csid := Known(m.streamId, m.timestamp)];
        KnowsStored(rs, rs', known, s.csid, Known(m.streamId, m.timestamp));
        RunHeard(ws', React(rs', QUIET(log + [m])), ids, exact, known', tail, log + [m]);
        assert log + [m] + Heard(ws', known', tail) == log + ([m] + Heard(ws', known', tail));
      }
    }
  }

  lemma {:induction false} KnowsStored(rs: ReaderState, rs': ReaderState, known: map<u32, Known>, csid: u32, k: Known)
    requires Knows(rs, known) && forall c :: KnownIn(rs', c) == if c == csid then k else KnownIn(rs, c)
    ensures KnownAt(known, csid) == KnownIn(rs, csid)
    ensures Knows(React(rs', Continue(None)), known[csid := k])
  {
  }

  /** The reader gets all of what was sent, in order, whatever becomes of times and stream ids. */
  predicate SameContents(messages: seq<Message>, sends: seq<Send>) {
    && |messages| == |sends|
    && forall i :: 0 <= i < |sends| ==> messages[i].payload == sends[i].payload && messages[i].typeId == sends[i].typeId
  }

  lemma {:induction false} SameContentsOneMore(m: Message, messages: seq<Message>, s: Send, sends: seq<Send>)
    requires SameContents(messages, sends) && m.payload == s.payload && m.typeId == s.typeId
    ensures SameContents([m] + messages, [s] + sends)
  {
  }

  lemma {:induction false} HeardContents(ws: Writers, known: map<u32, Known>, sends: seq<Send>)
    requires WritersOk(ws) && forall s :: s in sends ==> Sendable(s)
    ensures SameContents(Heard(ws, known, sends), Sent(sends))
    decreases |sends|
  {
    hide WriteOne, NextPacket, KnownAt, WriterFor;
    if sends != [] {
      var s, tail := sends[0], sends[1..];
      var ws' := WriteOne(ws, s).0;
      if s.payload == [] {
        HeardContents(ws', known, tail);
      } else {
        var m := Received(KnownAt(known, s.csid), NextPacket(WriterFor(ws, s), |s.payload|, s.typeId, s.streamId, s.ts), s);
        var known' := known[s.csid := Known(m.streamId, m.timestamp)];
        HeardContents(ws', known', tail);
        hide SameContents;
        SameContentsOneMore(m, Heard(ws', known', tail), s, Sent(tail));
      }
    }
  }

  /** With empty messages in the run, the reader delivers the contents of exactly the others, in order. */
  lemma {:induction false} LossyRun(ws: Writers, rs: ReaderState, ids: set<u32>, exact: bool, known: map<u32, Known>, sends: seq<Send>, log: seq<Message>)
    requires Sim(ws, rs, ids, exact) && Knows(rs, known)
    requires forall s :: s in sends ==>
               Sendable(s) && s.csid in ids && Fits(rs, s) && rs.chunkSize == (if s.chunkSize == 0 then FIX_CHUNK_SIZE else s.chunkSize)
    ensures var o := Loop(rs, WriteAll(ws, sends), log, QUIET);
            && o.error == None && o.rs.buffered == 0
            && |log| <= |o.delivered| && o.delivered[..|log|] == log
            && SameContents(o.delivered[|log|..], Sent(sends))
  {
    hide Inv, Loop, Sim, SameContents, Heard, WriteAll, Knows;
    RunHeard(ws, rs, ids, exact, known, sends, log);
    HeardContents(ws, known, sends);
  }

  /**
   The next message goes out with its own time and stream id, or the reader's time and stream id
   are those of the last call: nothing empty came in between, or it changed neither.
   */
  predicate InStep(last: map<u32, Known>, known: map<u32, Known>, s: Send) {
    s.csid in last && s.streamId == last[s.csid].streamId && s.ts >= last[s.csid].timestamp ==>
      KnownAt(known, s.csid) == last[s.csid]
  }

  /** Every message sent finds the reader in step; `last` holds the last call on each chunk stream, `known` the last message sent. */
  predicate AllInStep(last: map<u32, Known>, known: map<u32, Known>, sends: seq<Send>)
    decreases |sends|
  {
    sends == [] ||
    var s := sends[0];
    var k := Known(s.streamId, s.ts);
    if s.payload == [] then AllInStep(last[s.csid := k], known, sends[1..])
    else InStep(last, known, s) && AllInStep(last[s.csid := k], known[s.csid := k], sends[1..])
  }

  /** The last call on each chunk stream is what its writer remembers. */
  ghost predicate Remembers(ws: Writers, last: map<u32, Known>) {
    && ws.Keys == last.Keys
    && forall c :: c in ws ==>
         ws[c].current.Some? && last[c] == Known(ws[c].current.value.msgHdr.streamId, ws[c].timestamp)
  }

  lemma {:induction false} RemembersNext(ws: Writers, last: map<u32, Known>, s: Send)
    requires WritersOk(ws) && Sendable(s) && Remembers(ws, last)
    ensures Remembers(WriteOne(ws, s).0, last[s.csid := Known(s.streamId, s.ts)])
  {
    hide Chunks;
  }

  /** When a message comes back as it was written. */
  lemma {:induction false} ReceivedIff(ws: Writers, last: map<u32, Known>, known: map<u32, Known>, s: Send)
    requires Remembers(ws, last)
    ensures var p := NextPacket(WriterFor(ws, s), |s.payload|, s.typeId, s.streamId, s.ts);
            Received(KnownAt(known, s.csid), p, s) == MessageOf(s) <==> InStep(last, known, s)
  {
    hide KnownAt;
    if s.csid in ws && s.ts >= ws[s.csid].timestamp {
      SumBack(KnownAt(known, s.csid).timestamp, ws[s.csid].timestamp, s.ts);
    }
  }

  lemma {:induction false} SumBack(a: u32, b: u32, t: u32)
    requires b <= t
    ensures (a as int + (t as int - b as int)) % TWO_32 == t <==> a == b
  {
  }

  lemma {:induction false} HeardIff(ws: Writers, last: map<u32, Known>, known: map<u32, Known>, sends: seq<Send>)
    requires WritersOk(ws) && Remembers(ws, last) && forall s :: s in sends ==> Sendable(s)
    ensures Heard(ws, known, sends) == MessagesOf(Sent(sends)) <==> AllInStep(last, known, sends)
    decreases |sends|
  {
    hide WriteOne, NextPacket, KnownAt, InStep, Received, Remembers;
    if sends != [] {
      var s, tail := sends[0], sends[1..];
      var ws', k := WriteOne(ws, s).0, Known(s.streamId, s.ts);
      RemembersNext(ws, last, s);
      if s.payload == [] {
        HeardIff(ws', last[s.csid := k], known, tail);
      } else {
        var m := Received(KnownAt(known, s.csid), NextPacket(WriterFor(ws, s), |s.payload|, s.typeId, s.streamId, s.ts), s);
        ReceivedIff(ws, last, known, s);
        var behind := Heard(ws', known[s.csid := Known(m.streamId, m.timestamp)], tail);
        assert Heard(ws, known, sends) == [m] + behind && ([m] + behind)[0] == m && ([m] + behind)[1..] == behind;
        var all := [MessageOf(s)] + MessagesOf(Sent(tail));
        assert Sent(sends) == [s] + Sent(tail) && Sent(sends)[1..] == Sent(tail);
        assert MessagesOf(Sent(sends)) == all && all[0] == MessageOf(s) && all[1..] == MessagesOf(Sent(tail));
        if m == MessageOf(s) {
          HeardIff(ws', last[s.csid := k], known[s.csid := k], tail);
        }
      }
    }
  }

  ghost predicate RunOk(rs: ReaderState, sends: seq<Send>, ids: set<u32>) {
    && (forall s :: s in sends ==> Sendable(s) && s.csid in ids && Fits(rs, s))
    && (rs.maxChunkStreams > 0 ==> |ids| <= rs.maxChunkStreams)
  }

  /**
   The round trip: what one writer per chunk stream id wrote, fed to a new
   reader in any split, comes out as exactly those messages, chunk size
   changes included.
   */
  lemma {:induction false} RoundTrip(chunkSize: u32, maxStreams: int, maxBuffered: int, sends: seq<Send>, ids: set<u32>, pieces: seq<bytes>, onMsg: Handler)
    requires RunOk(NewReader(chunkSize, maxStreams, maxBuffered), sends, ids)
    requires forall s :: s in sends ==> s.payload != []
    requires SizesFollow(chunkSize, sends, [], onMsg)
    requires Concat(pieces) == WriteAll(map[], sends)
    ensures var o := Feed(NewReader(chunkSize, maxStreams, maxBuffered), pieces, [], onMsg);
            o.error == None && o.delivered == MessagesOf(sends) && o.rs.buffered == 0
  {
    var rs := NewReader(chunkSize, maxStreams, maxBuffered);
    assert Sim(map[], rs, ids, true);
    AnySplit(rs, pieces, [], onMsg);
    ExactRun(map[], rs, ids, sends, [], onMsg);
    assert [] + MessagesOf(sends) == MessagesOf(sends);
  }

  lemma {:induction false} MessagesLength(sends: seq<Send>)
    ensures |MessagesOf(sends)| == |sends|
  {
    if sends != [] {
      MessagesLength(sends[1..]);
    }
  }

  lemma {:induction false} SentAll(sends: seq<Send>)
    ensures |Sent(sends)| <= |sends|
    ensures |Sent(sends)| == |sends| <==> forall s :: s in sends ==> s.payload != []
  {
    if sends != [] {
      SentAll(sends[1..]);
      assert forall s :: s in sends <==> s == sends[0] || s in sends[1..];
    }
  }

  /**
   When it holds: with the chunk size fixed, the reader gives back the
   messages written if and only if none of them is empty; the contents of
   the others always come back in order, and with their times and stream ids
   if and only if each finds the reader in step.
   */
  lemma {:induction false} RoundTripIffNoEmpty(chunkSize: u32, maxStreams: int, maxBuffered: int, sends: seq<Send>, ids: set<u32>, pieces: seq<bytes>)
    requires chunkSize > 0 && RunOk(NewReader(chunkSize, maxStreams, maxBuffered), sends, ids)
    requires forall s :: s in sends ==> s.chunkSize == chunkSize
    requires Concat(pieces) == WriteAll(map[], sends)
    ensures var o := Feed(NewReader(chunkSize, maxStreams, maxBuffered), pieces, [], QUIET);
            && o.error == None && SameContents(o.delivered, Sent(sends))
            && (o.delivered == MessagesOf(sends) <==> forall s :: s in sends ==> s.payload != [])
            && (o.delivered == MessagesOf(Sent(sends)) <==> AllInStep(map[], map[], sends))
  {
    var rs := NewReader(chunkSize, maxStreams, maxBuffered);
    assert Sim(map[], rs, ids, true);
    assert Knows(rs, map[]) && Remembers(map[], map[]);
    hide Sim, Knows, Remembers, Loop, Feed, Heard, AllInStep, SameContents, WriteAll, Inv;
    AnySplit(rs, pieces, [], QUIET);
    RunHeard(map[], rs, ids, true, map[], sends, []);
    assert [] + Heard(map[], map[], sends) == Heard(map[], map[], sends);
    HeardContents(map[], map[], sends);
    HeardIff(map[], map[], map[], sends);
    MessagesLength(sends);
    SentAll(sends);
    assert |Heard(map[], map[], sends)| == |Sent(sends)| by { SameLength(Heard(map[], map[], sends), Sent(sends)); }
    if forall s :: s in sends ==> s.payload != [] {
      QuietSizes(chunkSize, sends, []);
      ExactRun(map[], rs, ids, sends, [], QUIET);
      assert [] + MessagesOf(sends) == MessagesOf(sends);
    }
  }

  lemma {:induction false} SameLength(messages: seq<Message>, sends: seq<Send>)
    requires SameContents(messages, sends)
    ensures |messages| == |sends|
  {
  }

  /** After an empty message on a stream id of its own, the reader misses the stream id and the time. */
  lemma {:induction false} EmptyLosesStreamId()
    ensures var sends := [Send(5, [], 8, 1, 10, 128), Send(5, [7], 8, 1, 10, 128)];
            Heard(map[], map[], sends) == [Message(0, [7], 8, 0)]
  {
    var a, b := Send(5, [], 8, 1, 10, 128), Send(5, [7], 8, 1, 10, 128);
    var ws := WriteOne(map[], a).0;
    var p := NextPacket(WriterFor(ws, b), 1, 8, 1, 10);
    assert p == ChunkPacket(BasicHead(1, 5), MsgHead(0, 1, 8, 1));
    assert [a, b][1..] == [b] && [b][1..] == [];
    assert Received(KnownAt(map[], 5), p, b) == Message(0, [7], 8, 0);
    assert Heard(ws, map[], [b]) == [Message(0, [7], 8, 0)] + Heard(WriteOne(ws, b).0, map[][5 := Known(0, 0)], []);
  }

  lemma {:induction false} QuietSizes(size: u32, sends: seq<Send>, log: seq<Message>)
    requires size > 0 && forall s :: s in sends ==> s.chunkSize == size
    ensures SizesFollow(size, sends, log, QUIET)
    decreases |sends|
  {
    if sends != [] {
      QuietSizes(size, sends[1..], log + [MessageOf(sends[0])]);
    }
  }
}
