/** The chunk writer of go-rtmp/chunk.go: header compression and chunking of one message. */
module RtmpWriter {
  import opened Bytes
  import opened Wrappers
  import opened RtmpWire

  /** `timestamp` is that of the last message; `current` holds the last header's fields. */
  datatype WriterState = WriterState(csid: u32, timestamp: u32, current: Option<ChunkPacket>, chunkSize: u32)

  function NewWriter(csid: u32, chunkSize: u32): WriterState {
    WriterState(csid, 0, None, chunkSize)
  }

  /** The chunk format of the next message's first chunk. */
  function Format(ws: WriterState, len: nat, typeId: byte, streamId: u32, ts: u32): (fmt: byte)
    ensures fmt <= 3
  {
    if ws.current.None? then 0
    else
      var last := ws.current.value.msgHdr;
      if streamId != last.streamId || ts < ws.timestamp then 0
      else if typeId != last.typeId || last.msgLen != len then 1
      else if ts - ws.timestamp != last.timestamp then 2
      else 3
  }

  /** Format 0 carries the time itself, the others the time since the last message. */
  function Delta(ws: WriterState, fmt: byte, ts: u32): u32
    requires fmt == 0 || ts >= ws.timestamp
  {
    if fmt == 0 then ts else ts - ws.timestamp
  }

  function EffectiveChunkSize(ws: WriterState): (n: u32)
    ensures n > 0
  {
    if ws.chunkSize == 0 then FIX_CHUNK_SIZE else ws.chunkSize
  }

  /** The packet describing the next message. */
  function NextPacket(ws: WriterState, len: nat, typeId: byte, streamId: u32, ts: u32): ChunkPacket {
    var fmt := Format(ws, len, typeId, streamId, ts);
    ChunkPacket(BasicHead(fmt, ws.csid), MsgHead(Delta(ws, fmt, ts), len % TWO_32, typeId, streamId))
  }

  function Continuation(p: ChunkPacket): ChunkPacket {
    p.(basic := p.basic.(fmt := 3))
  }

  /** `data` cut into chunks; every chunk after the first is of format 3. */
  function Chunks(p: ChunkPacket, data: bytes, chunkSize: u32): bytes
    requires p.basic.fmt <= 3 && p.basic.csid <= MAX_CSID && chunkSize > 0
    decreases |data|
  {
    if data == [] then []
    else
      var n := Min(|data|, chunkSize);
      HeadBytes(p) + data[..n] + Chunks(Continuation(p), data[n..], chunkSize)
  }

  function WriteData(ws: WriterState, data: bytes, typeId: byte, streamId: u32, ts: u32): (WriterState, Result<bytes, Error>) {
    if ws.csid > MAX_CSID then (ws, Err(InvalidCsid))
    else
      var p := NextPacket(ws, |data|, typeId, streamId, ts);
      if data == [] then (ws.(current := Some(p), timestamp := ts), Ok([]))
      else
        (ws.(current := Some(Continuation(p)), timestamp := ts), Ok(Chunks(p, data, EffectiveChunkSize(ws))))
  }
}
