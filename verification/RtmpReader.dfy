/**
 The chunk reader of go-rtmp/chunk.go as a state machine: one `Step` per turn
 of the parser loop, `Loop` for a whole call, `Feed` for a run of calls.
 */
module RtmpReader {
  import opened Bytes
  import opened Wrappers
  import opened RtmpWire

  datatype ParserState = BasicHeadState | MsgHeadState | ExtendTsState | PayloadState

  datatype StreamState = StreamState(
    firstChunkFmt: byte,
    timestamp: u32,
    pkt: ChunkPacket,
    hdr: bytes,
    message: bytes,
    hasExtTs: bool,
    chunkRead: nat)

  const NEW_STREAM := StreamState(0, 0, NO_PACKET, [], [], false, 0)

  /** `cur` is the id of the chunk stream the source's `current` points at. */
  datatype ReaderState = ReaderState(
    cur: u32,
    cks: map<u32, StreamState>,
    chunkSize: u32,
    state: ParserState,
    headCache: bytes,
    maxChunkStreams: int,
    maxBufferedMsgLen: int,
    buffered: int)
  {
    predicate AtEmptyMessage() {
      state == PayloadState && cur in cks && cks[cur].pkt.msgHdr.msgLen == 0
    }
  }

  function NewReader(chunkSize: u32, maxChunkStreams: int, maxBufferedMsgLen: int): ReaderState {
    ReaderState(0, map[], chunkSize, BasicHeadState, [], maxChunkStreams, maxBufferedMsgLen, 0)
  }

  /** What the message callback answers: an error, or to go on, perhaps with a new chunk size. */
  datatype Reaction = Continue(chunkSize: Option<u32>) | Fail

  /** A callback sees every message delivered so far, the last one being the new one. */
  type Handler = seq<Message> -> Reaction

  datatype StepResult =
    | Failed(rs: ReaderState, error: Error)
    | NeedMore(rs: ReaderState)
    | Advanced(rs: ReaderState, rest: bytes, emitted: Option<Message>)

  datatype Outcome = Outcome(rs: ReaderState, delivered: seq<Message>, error: Option<Error>)

  // ---------------------------------------------------------------- steps

  function StepBasicHead(rs: ReaderState, data: bytes): StepResult
    requires data != [] && (rs.headCache == [] || |rs.headCache| < BasicHeadLen(rs.headCache))
  {
    var length := BasicHeadLen(if rs.headCache != [] then rs.headCache else data);
    if length > |rs.headCache| + |data| then NeedMore(rs.(headCache := rs.headCache + data))
    else
      var n := length - |rs.headCache|;
      StartChunk(rs.(headCache := rs.headCache + data[..n]), data[n..])
  }

  /** The stream once a chunk of it has begun. */
  function Opened(cs: StreamState, basic: BasicHead): StreamState {
    cs.(pkt := cs.pkt.(basic := basic), firstChunkFmt := if cs.message == [] then basic.fmt else cs.firstChunkFmt)
  }

  function AfterBasicHead(cs: StreamState): ParserState {
    if cs.pkt.basic.fmt != 3 then MsgHeadState else if cs.hasExtTs then ExtendTsState else PayloadState
  }

  /** The basic header is complete in `headCache`: find or open its chunk stream. */
  function StartChunk(rs: ReaderState, rest: bytes): StepResult
    requires rs.headCache != [] && BasicHeadLen(rs.headCache) <= |rs.headCache|
  {
    var basic := DecodeBasic(rs.headCache);
    if basic.csid !in rs.cks && rs.maxChunkStreams > 0 && |rs.cks| >= rs.maxChunkStreams then
      Failed(rs, TooManyChunkStreams)
    else
      var prev := if basic.csid in rs.cks then rs.cks[basic.csid] else NEW_STREAM;
      var cs := Opened(prev, basic);
      Advanced(rs.(cur := basic.csid, cks := rs.cks[basic.csid := cs], headCache := [], state := AfterBasicHead(cs)),
               rest, None)
  }

  function StepMsgHead(rs: ReaderState, data: bytes): StepResult
    requires rs.cur in rs.cks && rs.cks[rs.cur].pkt.basic.fmt <= 2
    requires |rs.cks[rs.cur].hdr| < MsgHeadLen(rs.cks[rs.cur].pkt.basic.fmt)
  {
    var cs := rs.cks[rs.cur];
    var length := MsgHeadLen(cs.pkt.basic.fmt);
    if |data| + |cs.hdr| < length then
      NeedMore(rs.(cks := rs.cks[rs.cur := cs.(hdr := cs.hdr + data)]))
    else
      var n := length - |cs.hdr|;
      var h := DecodeMsgHead(cs.pkt.msgHdr, cs.pkt.basic.fmt, cs.hdr + data[..n]);
      var ext := h.timestamp == EXT_TS;
      var cs' := cs.(pkt := cs.pkt.(msgHdr := h), hasExtTs := ext, hdr := []);
      Advanced(rs.(cks := rs.cks[rs.cur := cs'], state := if ext then ExtendTsState else PayloadState),
               data[n..], None)
  }

  function StepExtendTs(rs: ReaderState, data: bytes): StepResult
    requires rs.cur in rs.cks && |rs.cks[rs.cur].hdr| < 4
  {
    var cs := rs.cks[rs.cur];
    if |data| + |cs.hdr| < 4 then
      NeedMore(rs.(cks := rs.cks[rs.cur := cs.(hdr := cs.hdr + data)]))
    else
      var n := 4 - |cs.hdr|;
      var h := cs.pkt.msgHdr.(timestamp := U32(cs.hdr + data[..n]));
      Advanced(rs.(cks := rs.cks[rs.cur := cs.(pkt := cs.pkt.(msgHdr := h), hdr := [])], state := PayloadState),
               data[n..], None)
  }

  /** Size of the current chunk's payload. */
  function NeedLen(cs: StreamState, chunkSize: u32): int {
    Min(cs.pkt.msgHdr.msgLen - (|cs.message| - cs.chunkRead), chunkSize)
  }

  function StepPayload(rs: ReaderState, data: bytes): StepResult
    requires rs.cur in rs.cks
    requires var cs := rs.cks[rs.cur];
             |cs.message| <= cs.pkt.msgHdr.msgLen ==> cs.chunkRead <= NeedLen(cs, rs.chunkSize)
  {
    var cs := rs.cks[rs.cur];
    var msgLen := cs.pkt.msgHdr.msgLen;
    if msgLen > MAX_MESSAGE_LEN || |cs.message| > msgLen then Failed(rs, LengthOutOfRange)
    else
      var remain := NeedLen(cs, rs.chunkSize) - cs.chunkRead;
      if rs.maxBufferedMsgLen > 0 && rs.buffered + remain > rs.maxBufferedMsgLen then Failed(rs, BufferedTooMuch)
      else if |data| < remain then
        var cs' := cs.(message := cs.message + data, chunkRead := cs.chunkRead + |data|);
        NeedMore(rs.(cks := rs.cks[rs.cur := cs'], buffered := rs.buffered + |data|))
      else
        var (cs', emitted) := Taken(cs, data[..remain]);
        var freed := if emitted.Some? then |emitted.value.payload| else 0;
        Advanced(rs.(cks := rs.cks[rs.cur := cs'], buffered := rs.buffered + remain - freed, state := BasicHeadState),
                 data[remain..], emitted)
  }

  /** The stream after the last bytes of a chunk, and the message they complete, if any. */
  function Taken(cs: StreamState, piece: bytes): (StreamState, Option<Message>) {
    var message := cs.message + piece;
    var h := cs.pkt.msgHdr;
    if h.msgLen <= |message| then
      var ts := if cs.firstChunkFmt == 0 then h.timestamp else (cs.timestamp as int + h.timestamp as int) % TWO_32;
      (cs.(message := [], chunkRead := 0, timestamp := ts), Some(Message(ts, message, h.typeId, h.streamId)))
    else
      (cs.(message := message, chunkRead := 0), None)
  }

  function Step(rs: ReaderState, data: bytes): StepResult
    requires Inv(rs) && (data != [] || rs.AtEmptyMessage())
  {
    match rs.state
    case BasicHeadState => StepBasicHead(rs, data)
    case MsgHeadState => StepMsgHead(rs, data)
    case ExtendTsState => StepExtendTs(rs, data)
    case PayloadState => StepPayload(rs, data)
  }

  // ------------------------------------------------------------ invariant

  /** Bytes held in the incomplete messages of the chunk streams in `ids`. */
  ghost function Held(cks: map<u32, StreamState>, ids: set<u32>): nat
    requires ids <= cks.Keys
  {
    if ids == {} then 0
    else
      var c :| c in ids;
      |cks[c].message| + Held(cks, ids - {c})
  }

  /** Taking any one stream out of the sum takes out its message. */
  lemma {:induction false} HeldSplit(cks: map<u32, StreamState>, ids: set<u32>, c: u32)
    requires c in ids && ids <= cks.Keys
    ensures Held(cks, ids) == |cks[c].message| + Held(cks, ids - {c})
    decreases |ids|
  {
    var d :| d in ids && Held(cks, ids) == |cks[d].message| + Held(cks, ids - {d});
    if d != c {
      HeldSplit(cks, ids - {d}, c);
      HeldSplit(cks, ids - {c}, d);
      assert ids - {d} - {c} == ids - {c} - {d};
    }
  }

  lemma {:induction false} HeldAgree(a: map<u32, StreamState>, b: map<u32, StreamState>, ids: set<u32>)
    requires ids <= a.Keys && ids <= b.Keys
    requires forall c :: c in ids ==> a[c].message == b[c].message
    ensures Held(a, ids) == Held(b, ids)
    decreases |ids|
  {
    if ids != {} {
      var c :| c in ids;
      HeldSplit(a, ids, c);
      HeldSplit(b, ids, c);
      HeldAgree(a, b, ids - {c});
    }
  }

  /** Storing a stream changes the total by the change of its own message. */
  lemma {:induction false} HeldUpdate(cks: map<u32, StreamState>, c: u32, cs: StreamState)
    ensures var cks' := cks[c := cs];
            Held(cks', cks'.Keys) ==
            Held(cks, cks.Keys) - (if c in cks then |cks[c].message| else 0) + |cs.message|
  {
    var cks' := cks[c := cs];
    HeldSplit(cks', cks'.Keys, c);
    HeldAgree(cks', cks, cks.Keys - {c});
    assert cks'.Keys - {c} == cks.Keys - {c};
    if c in cks {
      HeldSplit(cks, cks.Keys, c);
    } else {
      assert cks.Keys - {c} == cks.Keys;
    }
  }

  /** A stream that is not being parsed holds no partial header and no partial chunk. */
  predicate Parked(cs: StreamState) {
    cs.hdr == [] && cs.chunkRead == 0
  }

  ghost predicate StreamsOk(rs: ReaderState) {
    forall c :: c in rs.cks ==>
      && rs.cks[c].pkt.basic.csid == c
      && rs.cks[c].pkt.basic.fmt <= 3
      && rs.cks[c].pkt.msgHdr.msgLen <= MAX_MESSAGE_LEN
      && ((c == rs.cur && rs.state != BasicHeadState) || Parked(rs.cks[c]))
  }

  ghost predicate CurrentOk(rs: ReaderState) {
    rs.state != BasicHeadState ==>
      && rs.headCache == []
      && rs.cur in rs.cks
      && var cs := rs.cks[rs.cur];
      && (rs.state == MsgHeadState ==>
            cs.chunkRead == 0 && cs.pkt.basic.fmt <= 2 && |cs.hdr| < MsgHeadLen(cs.pkt.basic.fmt))
      && (rs.state == ExtendTsState ==> cs.chunkRead == 0 && |cs.hdr| < 4)
      && (rs.state == PayloadState ==> cs.hdr == [])
      && (cs.chunkRead > 0 ==> cs.chunkRead <= |cs.message| && cs.chunkRead < NeedLen(cs, rs.chunkSize))
  }

  /**
   What every reachable state keeps: the bytes buffered are exactly those of
   the incomplete messages, both limits hold, and a chunk can be partly read
   only on the current stream while its payload is being parsed.
   */
  ghost predicate Inv(rs: ReaderState) {
    && StreamsOk(rs)
    && CurrentOk(rs)
    && (rs.headCache == [] || |rs.headCache| < BasicHeadLen(rs.headCache))
    && rs.buffered == Held(rs.cks, rs.cks.Keys)
    && (rs.maxBufferedMsgLen > 0 ==> rs.buffered <= rs.maxBufferedMsgLen)
    && (rs.maxChunkStreams > 0 ==> |rs.cks| <= rs.maxChunkStreams)
  }

  lemma {:induction false} PayloadReady(rs: ReaderState)
    requires Inv(rs) && rs.cur in rs.cks
    ensures var cs := rs.cks[rs.cur];
            rs.state == PayloadState && |cs.message| <= cs.pkt.msgHdr.msgLen ==> cs.chunkRead <= NeedLen(cs, rs.chunkSize)
  {
  }

  lemma {:induction false} KeysAfterUpdate(cks: map<u32, StreamState>, c: u32, cs: StreamState)
    ensures |cks[c := cs]| == if c in cks then |cks| else |cks| + 1
  {
    var cks' := cks[c := cs];
    assert cks'.Keys == cks.Keys + {c};
    assert |cks'| == |cks'.Keys| && |cks| == |cks.Keys|;
  }

  /** One turn of the loop keeps the invariant and makes progress. */
  ghost predicate GoodStep(rs: ReaderState, data: bytes, r: StepResult) {
    && (!r.Failed? ==> Inv(r.rs))
    && (r.Failed? ==> r.rs == rs.(headCache := r.rs.headCache))
    && r.rs.maxBufferedMsgLen == rs.maxBufferedMsgLen && r.rs.maxChunkStreams == rs.maxChunkStreams
    && (r.NeedMore? ==> data != [] && !r.rs.AtEmptyMessage())
    && (r.Advanced? ==>
          && |r.rest| <= |data| && data[|data| - |r.rest|..] == r.rest
          && (|r.rest| < |data| || (rs.state == PayloadState && r.rs.state == BasicHeadState))
          && (r.emitted.Some? ==> r.rs.state == BasicHeadState))
  }

  /** Replacing one well-formed stream keeps the facts about all streams. */
  lemma {:induction false} StoreKeepsTotals(rs: ReaderState, c: u32, cs: StreamState, buffered: int)
    requires Inv(rs)
    requires buffered == rs.buffered - (if c in rs.cks then |rs.cks[c].message| else 0) + |cs.message|
    requires rs.maxBufferedMsgLen > 0 ==> buffered <= rs.maxBufferedMsgLen
    requires c in rs.cks || rs.maxChunkStreams <= 0 || |rs.cks| < rs.maxChunkStreams
    ensures var cks' := rs.cks[c := cs];
            && buffered == Held(cks', cks'.Keys)
            && (rs.maxChunkStreams > 0 ==> |cks'| <= rs.maxChunkStreams)
  {
    HeldUpdate(rs.cks, c, cs);
    KeysAfterUpdate(rs.cks, c, cs);
  }

  /** What starting a chunk asks of the state before it. */
  lemma {:induction false} StartChunkKeepsInv(rs: ReaderState, head: bytes, rest: bytes)
    requires Inv(rs) && rs.state == BasicHeadState
    requires head != [] && BasicHeadLen(head) <= |head|
    ensures var r := StartChunk(rs.(headCache := head), rest);
            && !r.NeedMore?
            && r.rs.maxBufferedMsgLen == rs.maxBufferedMsgLen && r.rs.maxChunkStreams == rs.maxChunkStreams
            && (r.Failed? ==> r.rs == rs.(headCache := head))
            && (r.Advanced? ==> Inv(r.rs) && r.rest == rest && r.emitted == None)
  {
    hide Held;
    var basic := DecodeBasic(head);
    hide DecodeBasic, BasicHeadLen;
    var r := StartChunk(rs.(headCache := head), rest);
    if r.Advanced? {
      assert r.rs.cur == basic.csid;
      var cs := r.rs.cks[basic.csid];
      assert r.rs.cks == rs.cks[basic.csid := cs];
      StoreKeepsTotals(rs, basic.csid, cs, rs.buffered);
    }
  }

  lemma {:induction false} BasicHeadKeepsInv(rs: ReaderState, data: bytes)
    requires Inv(rs) && rs.state == BasicHeadState && data != []
    ensures GoodStep(rs, data, StepBasicHead(rs, data))
  {
    hide Held, StartChunk;
    var cache := rs.headCache;
    var length := BasicHeadLen(if cache != [] then cache else data);
    var n := length - |cache|;
    if n <= |data| {
      assert BasicHeadLen(cache + data[..n]) == length;
      StartChunkKeepsInv(rs, cache + data[..n], data[n..]);
    } else {
      assert BasicHeadLen(cache + data) == length;
    }
  }

  lemma {:induction false} MsgHeadKeepsInv(rs: ReaderState, data: bytes)
    requires Inv(rs) && rs.state == MsgHeadState && data != []
    ensures GoodStep(rs, data, StepMsgHead(rs, data))
  {
    hide Held, DecodeMsgHead;
    var r := StepMsgHead(rs, data);
    StoreKeepsTotals(rs, rs.cur, r.rs.cks[rs.cur], rs.buffered);
  }

  lemma {:induction false} ExtendTsKeepsInv(rs: ReaderState, data: bytes)
    requires Inv(rs) && rs.state == ExtendTsState && data != []
    ensures GoodStep(rs, data, StepExtendTs(rs, data))
  {
    hide Held;
    var r := StepExtendTs(rs, data);
    StoreKeepsTotals(rs, rs.cur, r.rs.cks[rs.cur], rs.buffered);
  }

  lemma {:induction false} PayloadKeepsInv(rs: ReaderState, data: bytes)
    requires Inv(rs) && rs.state == PayloadState && (data != [] || rs.AtEmptyMessage())
    ensures GoodStep(rs, data, StepPayload(rs, data))
  {
    hide Held;
    var r := StepPayload(rs, data);
    if r.NeedMore? {
      PayloadKeepsTotals(rs, data);
      PayloadKeepsStreams(rs, data);
      PartialPayload(rs, data);
    } else if r.Advanced? {
      PayloadKeepsTotals(rs, data);
      PayloadKeepsStreams(rs, data);
      PayloadRest(rs, data);
      hide StepPayload, StreamsOk, NeedLen;
    }
  }

  /** A finished chunk leaves exactly the unread tail, and the parser between chunks. */
  lemma {:induction false} PayloadRest(rs: ReaderState, data: bytes)
    requires Inv(rs) && rs.state == PayloadState && StepPayload(rs, data).Advanced?
    ensures var r := StepPayload(rs, data);
            && |r.rest| <= |data| && data[|data| - |r.rest|..] == r.rest
            && r.rs.state == BasicHeadState && r.rs.headCache == []
            && r.rs.maxBufferedMsgLen == rs.maxBufferedMsgLen && r.rs.maxChunkStreams == rs.maxChunkStreams
  {
    hide Held, StreamsOk;
  }

  lemma {:induction false} PayloadKeepsTotals(rs: ReaderState, data: bytes)
    requires Inv(rs) && rs.state == PayloadState && !StepPayload(rs, data).Failed?
    ensures var r := StepPayload(rs, data).rs;
            && r.buffered == Held(r.cks, r.cks.Keys)
            && (rs.maxBufferedMsgLen > 0 ==> r.buffered <= rs.maxBufferedMsgLen)
            && (rs.maxChunkStreams > 0 ==> |r.cks| <= rs.maxChunkStreams)
  {
    var r := StepPayload(rs, data).rs;
    HeldSplit(rs.cks, rs.cks.Keys, rs.cur);
    StoreKeepsTotals(rs, rs.cur, r.cks[rs.cur], r.buffered);
  }

  lemma {:induction false} PayloadKeepsStreams(rs: ReaderState, data: bytes)
    requires Inv(rs) && rs.state == PayloadState && !StepPayload(rs, data).Failed?
    ensures StreamsOk(StepPayload(rs, data).rs)
  {
    hide Held;
    var cs := rs.cks[rs.cur];
    assert cs.pkt.msgHdr.msgLen <= MAX_MESSAGE_LEN && cs.hdr == [] && cs.pkt.basic.fmt <= 3 && cs.pkt.basic.csid == rs.cur;
    var r := StepPayload(rs, data);
    var cs' := r.rs.cks[rs.cur];
    assert cs'.pkt == cs.pkt && cs'.hdr == [];
    assert r.rs.cks == rs.cks[rs.cur := cs'];
  }

  /** A chunk cut short leaves the parser inside it. */
  lemma {:induction false} PartialPayload(rs: ReaderState, data: bytes)
    requires Inv(rs) && rs.state == PayloadState && StepPayload(rs, data).NeedMore?
    ensures var cs := StepPayload(rs, data).rs.cks[rs.cur];
            && cs.chunkRead <= |cs.message|
            && cs.chunkRead < NeedLen(cs, rs.chunkSize) == NeedLen(rs.cks[rs.cur], rs.chunkSize)
            && cs.pkt.msgHdr.msgLen > 0
  {
    hide Held;
  }

  lemma {:induction false} StepKeepsInv(rs: ReaderState, data: bytes)
    requires Inv(rs) && (data != [] || rs.AtEmptyMessage())
    ensures GoodStep(rs, data, Step(rs, data))
  {
    match rs.state
    case BasicHeadState => BasicHeadKeepsInv(rs, data);
    case MsgHeadState => MsgHeadKeepsInv(rs, data);
    case ExtendTsState => ExtendTsKeepsInv(rs, data);
    case PayloadState => PayloadKeepsInv(rs, data);
  }

  // -------------------------------------------------------------- running

  lemma {:induction false} ResizeKeepsInv(rs: ReaderState, size: u32)
    requires Inv(rs) && rs.state == BasicHeadState
    ensures Inv(rs.(chunkSize := size))
  {
  }

  /** The handler's answer to the message just delivered, applied between two turns. */
  function React(rs: ReaderState, answer: Reaction): ReaderState {
    if answer.Continue? && answer.chunkSize.Some? then rs.(chunkSize := answer.chunkSize.value) else rs
  }

  /** One call of the reader on `data`, `log` being what was delivered before. */
  ghost function Loop(rs: ReaderState, data: bytes, log: seq<Message>, onMsg: Handler): (o: Outcome)
    requires Inv(rs)
    ensures o.error.None? ==> Inv(o.rs) && !o.rs.AtEmptyMessage()
    ensures log <= o.delivered
    ensures o.rs.maxBufferedMsgLen == rs.maxBufferedMsgLen && o.rs.maxChunkStreams == rs.maxChunkStreams
    decreases |data|, if rs.state == PayloadState then 1 else 0
  {
    if data == [] && !rs.AtEmptyMessage() then Outcome(rs, log, None)
    else
      StepKeepsInv(rs, data);
      match Step(rs, data)
      case Failed(rs', e) => Outcome(rs', log, Some(e))
      case NeedMore(rs') => Outcome(rs', log, None)
      case Advanced(rs', rest, None) => Loop(rs', rest, log, onMsg)
      case Advanced(rs', rest, Some(m)) =>
        var answer := onMsg(log + [m]);
        if answer.Fail? then Outcome(rs', log + [m], Some(HandlerFailed))
        else
          ReactKeepsInv(rs', answer);
          Loop(React(rs', answer), rest, log + [m], onMsg)
  }

  lemma {:induction false} ReactKeepsInv(rs: ReaderState, answer: Reaction)
    requires Inv(rs) && rs.state == BasicHeadState
    ensures Inv(React(rs, answer))
  {
    if answer.Continue? && answer.chunkSize.Some? {
      ResizeKeepsInv(rs, answer.chunkSize.value);
    }
  }

  /** How `Loop` goes on after a turn with result `r`. */
  ghost predicate GoesOn(o: Outcome, r: StepResult, log: seq<Message>, onMsg: Handler) {
    if r.Failed? then o == Outcome(r.rs, log, Some(r.error))
    else if r.NeedMore? then Inv(r.rs) && o == Outcome(r.rs, log, None)
    else if r.emitted.None? then Inv(r.rs) && o == Loop(r.rs, r.rest, log, onMsg)
    else
      var log' := log + [r.emitted.value];
      if onMsg(log').Fail? then o == Outcome(r.rs, log', Some(HandlerFailed))
      else Inv(React(r.rs, onMsg(log'))) && o == Loop(React(r.rs, onMsg(log')), r.rest, log', onMsg)
  }

  /** `Loop` one turn at a time. */
  lemma {:induction false} LoopTurn(rs: ReaderState, data: bytes, log: seq<Message>, onMsg: Handler)
    requires Inv(rs) && (data != [] || rs.AtEmptyMessage())
    ensures GoesOn(Loop(rs, data, log, onMsg), Step(rs, data), log, onMsg)
    ensures var r := Step(rs, data);
            r.Advanced? ==> |r.rest| < |data| || (|r.rest| == |data| && rs.state == PayloadState && r.rs.state == BasicHeadState)
  {
    hide Step;
    StepKeepsInv(rs, data);
    hide Inv;
    match Step(rs, data)
    case Failed(_, _) =>
    case NeedMore(_) =>
    case Advanced(_, _, None) =>
    case Advanced(rs', rest, Some(m)) =>
      if onMsg(log + [m]).Continue? {
        EmitsBetween(rs, data);
        ReactKeepsInv(rs', onMsg(log + [m]));
      }
  }

  lemma {:induction false} EmitsBetween(rs: ReaderState, data: bytes)
    requires Inv(rs) && (data != [] || rs.AtEmptyMessage())
    ensures var r := Step(rs, data); r.Advanced? && r.emitted.Some? ==> r.rs.state == BasicHeadState
  {
  }

  lemma {:induction false} LoopEnds(rs: ReaderState, log: seq<Message>, onMsg: Handler)
    requires Inv(rs) && !rs.AtEmptyMessage()
    ensures Loop(rs, [], log, onMsg) == Outcome(rs, log, None)
  {
  }

  /** A later call on `data`, skipped once an error has been returned. */
  ghost function Then(o: Outcome, data: bytes, onMsg: Handler): Outcome
    requires o.error.None? ==> Inv(o.rs)
  {
    if o.error.Some? then o else Loop(o.rs, data, o.delivered, onMsg)
  }

  /** A run of calls, one per piece. */
  ghost function Feed(rs: ReaderState, pieces: seq<bytes>, log: seq<Message>, onMsg: Handler): (o: Outcome)
    requires Inv(rs)
    ensures o.error.None? ==> Inv(o.rs)
    ensures o.rs.maxBufferedMsgLen == rs.maxBufferedMsgLen && o.rs.maxChunkStreams == rs.maxChunkStreams
    decreases |pieces|
  {
    if pieces == [] then Outcome(rs, log, None)
    else
      var o := Loop(rs, pieces[0], log, onMsg);
      if o.error.Some? then o else Feed(o.rs, pieces[1..], o.delivered, onMsg)
  }

  // --------------------------------------------------- split independence

  /** A turn that did not run out of input does the same with more input behind it. */
  lemma {:induction false} StepIgnoresTail(rs: ReaderState, a: bytes, b: bytes)
    requires Inv(rs) && (a != [] || rs.AtEmptyMessage())
    ensures IgnoresTail(Step(rs, a), Step(rs, a + b), b)
  {
    match rs.state
    case BasicHeadState => BasicHeadIgnoresTail(rs, a, b);
    case MsgHeadState => MsgHeadIgnoresTail(rs, a, b);
    case ExtendTsState => ExtendTsIgnoresTail(rs, a, b);
    case PayloadState => PayloadIgnoresTail(rs, a, b);
  }

  ghost predicate IgnoresTail(short: StepResult, long: StepResult, b: bytes) {
    && (short.Failed? ==> long == short)
    && (short.Advanced? ==> long == short.(rest := short.rest + b))
  }

  lemma {:induction false} TakeDrop(a: bytes, b: bytes, n: nat)
    requires n <= |a|
    ensures (a + b)[..n] == a[..n] && (a + b)[n..] == a[n..] + b
  {
  }

  lemma {:induction false} BasicHeadIgnoresTail(rs: ReaderState, a: bytes, b: bytes)
    requires a != [] && (rs.headCache == [] || |rs.headCache| < BasicHeadLen(rs.headCache))
    ensures IgnoresTail(StepBasicHead(rs, a), StepBasicHead(rs, a + b), b)
  {
    hide StartChunk;
    var n := BasicHeadLen(if rs.headCache != [] then rs.headCache else a) - |rs.headCache|;
    assert n == BasicHeadLen(if rs.headCache != [] then rs.headCache else a + b) - |rs.headCache|;
    if n <= |a| {
      TakeDrop(a, b, n);
      StartChunkAdvances(rs.(headCache := rs.headCache + a[..n]), a[n..]);
    }
  }

  lemma {:induction false} MsgHeadIgnoresTail(rs: ReaderState, a: bytes, b: bytes)
    requires rs.cur in rs.cks && rs.cks[rs.cur].pkt.basic.fmt <= 2
    requires |rs.cks[rs.cur].hdr| < MsgHeadLen(rs.cks[rs.cur].pkt.basic.fmt)
    ensures IgnoresTail(StepMsgHead(rs, a), StepMsgHead(rs, a + b), b)
  {
    hide DecodeMsgHead, MsgHeadLen;
    var n := MsgHeadLen(rs.cks[rs.cur].pkt.basic.fmt) - |rs.cks[rs.cur].hdr|;
    if n <= |a| {
      TakeDrop(a, b, n);
    }
  }

  lemma {:induction false} ExtendTsIgnoresTail(rs: ReaderState, a: bytes, b: bytes)
    requires rs.cur in rs.cks && |rs.cks[rs.cur].hdr| < 4
    ensures IgnoresTail(StepExtendTs(rs, a), StepExtendTs(rs, a + b), b)
  {
    var n := 4 - |rs.cks[rs.cur].hdr|;
    if n <= |a| {
      TakeDrop(a, b, n);
    }
  }

  lemma {:induction false} PayloadIgnoresTail(rs: ReaderState, a: bytes, b: bytes)
    requires rs.cur in rs.cks
    requires var cs := rs.cks[rs.cur];
             |cs.message| <= cs.pkt.msgHdr.msgLen ==> cs.chunkRead <= NeedLen(cs, rs.chunkSize)
    ensures IgnoresTail(StepPayload(rs, a), StepPayload(rs, a + b), b)
  {
    var cs := rs.cks[rs.cur];
    var n := NeedLen(cs, rs.chunkSize) - cs.chunkRead;
    if 0 <= n <= |a| {
      TakeDrop(a, b, n);
    }
  }

  /** A turn that ran out of input resumes where it stopped. */
  lemma {:induction false} StepResumes(rs: ReaderState, a: bytes, b: bytes)
    requires Inv(rs) && a != [] && b != [] && Step(rs, a).NeedMore?
    requires Inv(Step(rs, a).rs)
    ensures Step(rs, a + b) == Step(Step(rs, a).rs, b)
  {
    hide Held;
    match rs.state
    case BasicHeadState => ResumeBasicHead(rs, a, b);
    case MsgHeadState => ResumeMsgHead(rs, a, b);
    case ExtendTsState => ResumeExtendTs(rs, a, b);
    case PayloadState => ResumePayload(rs, a, b);
  }

  /** Taking `n` bytes of `a + b` after a cache equals taking the rest after the cache plus `a`. */
  lemma {:induction false} CachedPrefix(cache: bytes, a: bytes, b: bytes, length: nat)
    requires |cache| + |a| < length <= |cache| + |a| + |b|
    ensures cache + (a + b)[..length - |cache|] == (cache + a) + b[..length - |cache + a|]
    ensures (a + b)[length - |cache|..] == b[length - |cache + a|..]
  {
  }

  lemma {:induction false} ResumeBasicHead(rs: ReaderState, a: bytes, b: bytes)
    requires a != [] && b != [] && (rs.headCache == [] || |rs.headCache| < BasicHeadLen(rs.headCache))
    requires StepBasicHead(rs, a).NeedMore?
    ensures var rs' := StepBasicHead(rs, a).rs;
            && |rs'.headCache| < BasicHeadLen(rs'.headCache)
            && StepBasicHead(rs, a + b) == StepBasicHead(rs', b)
  {
    hide StartChunk;
    var cache := rs.headCache;
    var length := BasicHeadLen(if cache != [] then cache else a);
    assert BasicHeadLen(if cache != [] then cache else a + b) == length;
    assert BasicHeadLen(cache + a) == length;
    assert length > |cache| + |a| by {
      if length <= |cache| + |a| {
        StartChunkAdvances(rs.(headCache := cache + a[..length - |cache|]), a[length - |cache|..]);
      }
    }
    if length <= |cache| + |a| + |b| {
      CachedPrefix(cache, a, b, length);
    } else {
      assert cache + (a + b) == (cache + a) + b;
    }
  }

  lemma {:induction false} StartChunkAdvances(rs: ReaderState, rest: bytes)
    requires rs.headCache != [] && BasicHeadLen(rs.headCache) <= |rs.headCache|
    ensures !StartChunk(rs, rest).NeedMore?
    ensures forall tail: bytes :: IgnoresTail(StartChunk(rs, rest), StartChunk(rs, rest + tail), tail)
  {
  }

  lemma {:induction false} StoreTwice(cks: map<u32, StreamState>, c: u32, x: StreamState, y: StreamState)
    ensures cks[c := x][c := y] == cks[c := y]
  {
  }

  lemma {:induction false} ResumeMsgHead(rs: ReaderState, a: bytes, b: bytes)
    requires rs.cur in rs.cks && rs.cks[rs.cur].pkt.basic.fmt <= 2
    requires |rs.cks[rs.cur].hdr| < MsgHeadLen(rs.cks[rs.cur].pkt.basic.fmt)
    requires StepMsgHead(rs, a).NeedMore?
    ensures StepMsgHead(rs, a + b) == StepMsgHead(StepMsgHead(rs, a).rs, b)
  {
    hide DecodeMsgHead, MsgHeadLen;
    var cs := rs.cks[rs.cur];
    var length := MsgHeadLen(cs.pkt.basic.fmt);
    var rs' := StepMsgHead(rs, a).rs;
    StoreTwice(rs.cks, rs.cur, rs'.cks[rs.cur], StepMsgHead(rs', b).rs.cks[rs.cur]);
    if length <= |cs.hdr| + |a| + |b| {
      CachedPrefix(cs.hdr, a, b, length);
    } else {
      assert cs.hdr + (a + b) == (cs.hdr + a) + b;
    }
  }

  lemma {:induction false} ResumeExtendTs(rs: ReaderState, a: bytes, b: bytes)
    requires rs.cur in rs.cks && |rs.cks[rs.cur].hdr| < 4 && StepExtendTs(rs, a).NeedMore?
    ensures StepExtendTs(rs, a + b) == StepExtendTs(StepExtendTs(rs, a).rs, b)
  {
    var cs := rs.cks[rs.cur];
    var rs' := StepExtendTs(rs, a).rs;
    StoreTwice(rs.cks, rs.cur, rs'.cks[rs.cur], StepExtendTs(rs', b).rs.cks[rs.cur]);
    if 4 <= |cs.hdr| + |a| + |b| {
      CachedPrefix(cs.hdr, a, b, 4);
    } else {
      assert cs.hdr + (a + b) == (cs.hdr + a) + b;
    }
  }

  lemma {:induction false} ResumePayload(rs: ReaderState, a: bytes, b: bytes)
    requires rs.cur in rs.cks
    requires var cs := rs.cks[rs.cur];
             |cs.message| <= cs.pkt.msgHdr.msgLen ==> cs.chunkRead <= NeedLen(cs, rs.chunkSize)
    requires StepPayload(rs, a).NeedMore?
    ensures var cs := StepPayload(rs, a).rs.cks[rs.cur];
            |cs.message| <= cs.pkt.msgHdr.msgLen && cs.chunkRead <= NeedLen(cs, rs.chunkSize)
    ensures StepPayload(rs, a + b) == StepPayload(StepPayload(rs, a).rs, b)
  {
    var cs := rs.cks[rs.cur];
    var remain := NeedLen(cs, rs.chunkSize) - cs.chunkRead;
    var rs' := StepPayload(rs, a).rs;
    var r := StepPayload(rs', b);
    StoreTwice(rs.cks, rs.cur, rs'.cks[rs.cur], r.rs.cks[rs.cur]);
    assert NeedLen(rs'.cks[rs.cur], rs.chunkSize) == NeedLen(cs, rs.chunkSize);
    if remain <= |a| + |b| {
      CachedPrefix(cs.message, a, b, |cs.message| + remain);
    } else {
      assert cs.message + (a + b) == (cs.message + a) + b;
    }
  }

  /**
   Split independence, errors included: reading `a` and then `b` delivers the
   same messages, ends in the same state and reports the same error as
   reading `a + b` at once.
   */
  lemma {:induction false} SplitIndependence(rs: ReaderState, a: bytes, b: bytes, log: seq<Message>, onMsg: Handler)
    requires Inv(rs)
    ensures Loop(rs, a + b, log, onMsg) == Then(Loop(rs, a, log, onMsg), b, onMsg)
    decreases |a|, if rs.state == PayloadState then 1 else 0
  {
    hide Step, Inv, Loop, Held;
    if a == [] && !rs.AtEmptyMessage() {
      assert a + b == b;
      LoopEnds(rs, log, onMsg);
    } else {
      assert a != [] ==> a + b != [];
      LoopTurn(rs, a, log, onMsg);
      LoopTurn(rs, a + b, log, onMsg);
      StepIgnoresTail(rs, a, b);
      var r := Step(rs, a);
      if r.NeedMore? {
        NeedsMore(rs, a);
        if b == [] {
          assert a + b == a;
          LoopEnds(r.rs, log, onMsg);
        } else {
          StepResumes(rs, a, b);
          LoopTurn(r.rs, b, log, onMsg);
        }
      } else if r.Advanced? && r.emitted.None? {
        SplitIndependence(r.rs, r.rest, b, log, onMsg);
      } else if r.Advanced? && onMsg(log + [r.emitted.value]).Continue? {
        ReactKeepsState(r.rs, onMsg(log + [r.emitted.value]));
        SplitIndependence(React(r.rs, onMsg(log + [r.emitted.value])), r.rest, b, log + [r.emitted.value], onMsg);
      }
    }
  }

  lemma {:induction false} NeedsMore(rs: ReaderState, data: bytes)
    requires Inv(rs) && (data != [] || rs.AtEmptyMessage())
    ensures var r := Step(rs, data); r.NeedMore? ==> data != [] && Inv(r.rs) && !r.rs.AtEmptyMessage()
  {
    hide Step, Inv;
    StepKeepsInv(rs, data);
  }

  lemma {:induction false} ReactKeepsState(rs: ReaderState, answer: Reaction)
    ensures React(rs, answer).state == rs.state
  {
  }

  /** However the input is cut into calls, the outcome is that of one call on all of it. */
  lemma {:induction false} AnySplit(rs: ReaderState, pieces: seq<bytes>, log: seq<Message>, onMsg: Handler)
    requires Inv(rs) && !rs.AtEmptyMessage()
    ensures Feed(rs, pieces, log, onMsg) == Loop(rs, Concat(pieces), log, onMsg)
    decreases |pieces|
  {
    if pieces != [] {
      var o := Loop(rs, pieces[0], log, onMsg);
      SplitIndependence(rs, pieces[0], Concat(pieces[1..]), log, onMsg);
      if o.error.None? {
        AnySplit(o.rs, pieces[1..], o.delivered, onMsg);
      }
    }
  }

  /** The invariant holds from the start and hence, by `Feed`, in every state calls without error reach. */
  lemma {:induction false} Reachable(chunkSize: u32, maxStreams: int, maxBuffered: int, pieces: seq<bytes>, onMsg: Handler)
    ensures Inv(NewReader(chunkSize, maxStreams, maxBuffered))
    ensures var o := Feed(NewReader(chunkSize, maxStreams, maxBuffered), pieces, [], onMsg);
            o.error.None? ==>
              && Inv(o.rs)
              && o.rs.buffered == Held(o.rs.cks, o.rs.cks.Keys)
              && (maxBuffered > 0 ==> o.rs.buffered <= maxBuffered)
              && (maxStreams > 0 ==> |o.rs.cks| <= maxStreams)
              && forall c :: c in o.rs.cks && o.rs.cks[c].chunkRead > 0 ==>
                   c == o.rs.cur && o.rs.state == PayloadState
  {
  }
}
