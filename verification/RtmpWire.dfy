/**
 The chunk headers of RTMP (section 5.3.1 of Adobe's RTMP 1.0 specification):
 basic header, message header and extended timestamp. Bit fields are written
 with div and mod; an `or` of disjoint fields is their sum.
 */
module RtmpWire {
  import opened Bytes
  import opened Wrappers

  const MAX_MESSAGE_LEN := 0xff_ffff
  const MAX_CSID := 65599
  const FIX_CHUNK_SIZE := 128
  const EXT_TS := 0xff_ffff

  datatype Error =
    | InvalidCsid
    | InvalidChunkFmt
    | TooManyChunkStreams
    | BufferedTooMuch
    | LengthOutOfRange
    | HandlerFailed

  datatype BasicHead = BasicHead(fmt: byte, csid: u32)

  datatype MsgHead = MsgHead(timestamp: u32, msgLen: u32, typeId: byte, streamId: u32)
  {
    predicate HasExtendedTs() {
      timestamp >= EXT_TS
    }
  }

  datatype ChunkPacket = ChunkPacket(basic: BasicHead, msgHdr: MsgHead)

  const NO_MSG_HEAD := MsgHead(0, 0, 0, 0)
  const NO_PACKET := ChunkPacket(BasicHead(0, 0), NO_MSG_HEAD)

  datatype Message = Message(timestamp: u32, payload: bytes, typeId: byte, streamId: u32)

  /** Length of the message header of each chunk format. */
  function MsgHeadLen(fmt: byte): nat
    requires fmt <= 3
  {
    if fmt == 0 then 11 else if fmt == 1 then 7 else if fmt == 2 then 3 else 0
  }

  /** Basic header of an id in range; ids below 64, 320 and 65600 take 1, 2 and 3 bytes. */
  function BasicBytes(bh: BasicHead): (b: bytes)
    requires bh.fmt <= 3 && bh.csid <= MAX_CSID
    ensures |b| == if bh.csid < 64 then 1 else if bh.csid < 320 then 2 else 3
  {
    if bh.csid < 64 then [bh.fmt * 64 + bh.csid]
    else if bh.csid < 320 then [bh.fmt * 64, bh.csid - 64]
    else [bh.fmt * 64 + 1, (bh.csid - 64) % 0x100, (bh.csid - 64) / 0x100]
  }

  /** How many bytes the basic header takes, read from its first byte. */
  function BasicHeadLen(data: bytes): (n: nat)
    requires data != []
    ensures 1 <= n <= 3
  {
    if data[0] % 64 == 0 then 2 else if data[0] % 64 == 1 then 3 else 1
  }

  function DecodeBasic(data: bytes): (bh: BasicHead)
    requires data != [] && BasicHeadLen(data) <= |data|
    ensures bh.fmt <= 3
  {
    var low := data[0] % 64;
    var csid: u32 :=
      if low == 0 then data[1] as int + 64
      else if low == 1 then data[2] as int * 256 + data[1] as int + 64
      else low;
    BasicHead(data[0] / 64, csid)
  }

  function TimestampField(h: MsgHead): bytes {
    PutU24(if h.HasExtendedTs() then EXT_TS else h.timestamp)
  }

  function MsgHeadBytes(h: MsgHead, fmt: byte): (b: bytes)
    requires fmt <= 3
    ensures |b| == MsgHeadLen(fmt)
  {
    if fmt == 3 then []
    else
      TimestampField(h)
      + (if fmt <= 1 then PutU24(h.msgLen) + [h.typeId] else [])
      + (if fmt == 0 then PutU32LE(h.streamId) else [])
  }

  function DecodeMsgHead(h: MsgHead, fmt: byte, data: bytes): (h': MsgHead)
    requires fmt <= 2 && |data| >= MsgHeadLen(fmt)
    ensures h'.timestamp <= EXT_TS
    ensures h.msgLen <= MAX_MESSAGE_LEN ==> h'.msgLen <= MAX_MESSAGE_LEN
  {
    var h0 := if fmt == 0 then h.(streamId := U32LE(data[7..])) else h;
    var h1 := if fmt <= 1 then h0.(msgLen := U24(data[3..]), typeId := data[6]) else h0;
    h1.(timestamp := U24(data))
  }

  function ExtTsBytes(h: MsgHead): bytes {
    if h.HasExtendedTs() then PutU32(h.timestamp) else []
  }

  /** The whole chunk header: basic header, message header, extended timestamp. */
  function HeadBytes(p: ChunkPacket): bytes
    requires p.basic.fmt <= 3 && p.basic.csid <= MAX_CSID
  {
    BasicBytes(p.basic) + MsgHeadBytes(p.msgHdr, p.basic.fmt) + ExtTsBytes(p.msgHdr)
  }

  function EncodeHead(p: ChunkPacket): Result<bytes, Error> {
    if p.basic.csid > MAX_CSID then Err(InvalidCsid)
    else if p.basic.fmt > 3 then Err(InvalidChunkFmt)
    else Ok(HeadBytes(p))
  }

  /** Decoding undoes encoding for every id the short forms leave unambiguous. */
  lemma {:induction false} BasicRoundTrip(bh: BasicHead, rest: bytes)
    requires bh.fmt <= 3 && 2 <= bh.csid <= MAX_CSID
    ensures BasicHeadLen(BasicBytes(bh) + rest) == |BasicBytes(bh)|
    ensures BasicHeadLen(BasicBytes(bh)) == |BasicBytes(bh)|
    ensures DecodeBasic(BasicBytes(bh)) == bh
  {
    var b := BasicBytes(bh);
    assert (b + rest)[0] == b[0];
    if bh.csid < 64 {
      assert b[0] % 64 == bh.csid && b[0] / 64 == bh.fmt;
    } else if bh.csid < 320 {
      assert b[0] % 64 == 0 && b[0] / 64 == bh.fmt;
    } else {
      assert b[0] % 64 == 1 && b[0] / 64 == bh.fmt;
    }
  }

  /** What a reader knows of a header after decoding format `fmt` over `prev`. */
  lemma {:induction false} MsgHeadRoundTrip(h: MsgHead, prev: MsgHead, fmt: byte)
    requires fmt <= 2 && h.msgLen <= MAX_MESSAGE_LEN
    ensures var d := DecodeMsgHead(prev, fmt, MsgHeadBytes(h, fmt));
            && d.timestamp == (if h.HasExtendedTs() then EXT_TS else h.timestamp)
            && d.msgLen == (if fmt <= 1 then h.msgLen else prev.msgLen)
            && d.typeId == (if fmt <= 1 then h.typeId else prev.typeId)
            && d.streamId == (if fmt == 0 then h.streamId else prev.streamId)
  {
    var b := MsgHeadBytes(h, fmt);
    var t := if h.HasExtendedTs() then EXT_TS else h.timestamp;
    U24RoundTrip(t, b[3..]);
    assert b == PutU24(t) + b[3..];
    if fmt <= 1 {
      U24RoundTrip(h.msgLen, b[6..]);
      assert b[3..] == PutU24(h.msgLen) + b[6..];
    }
    if fmt == 0 {
      U32LERoundTrip(h.streamId, []);
      assert b[7..] == PutU32LE(h.streamId) + [];
    }
  }
}
