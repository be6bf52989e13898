/** A demuxer object that reads a muxed stream to its end. */
module TsReceive {
  import opened Bytes
  import opened Wrappers
  import opened TsWire
  import opened TsMux
  import opened TsDemux
  import opened TsObjects
  import opened TsRoundTrip

  /**
   * A new demuxer reads all packets of a run of writes and flushes its streams: it meets no error,
   * and every audio stream has been reported frame by frame, the last frame by the flush.
   */
  method ReceiveAll(kinds: seq<byte>, frames: seq<Frame>, packets: seq<bytes>) returns (out: seq<Report>, err: Option<Error>)
    requires |kinds| <= 33
    requires Whole(packets) && packets == WriteAll(WithStreams(FRESH, kinds), frames).1
    ensures err == None
    ensures forall k :: 0 <= k < |kinds| && IsAudio(kinds[k]) ==> Received(out, kinds, frames, k)
  {
    hide Run, ReportsOf, PendingOf, WriteAll, WithStreams, Expected, Regular, Received;
    var demuxer := new TsDemuxer();
    AllRead(kinds, frames);
    ghost var r := Run(EMPTY, packets).value;
    err := demuxer.Input(packets);
    assert [] + r.1 == r.1;
    demuxer.Flush();
    out := demuxer.out;
    forall k | 0 <= k < |kinds| && IsAudio(kinds[k])
      ensures Received(out, kinds, frames, k)
    {
      ReceivedAfterFlush(kinds, frames, k, out);
    }
  }

  /** Stream k has been reported exactly the frames written to it. */
  ghost predicate Received(out: seq<Report>, kinds: seq<byte>, frames: seq<Frame>, k: nat)
    requires k < |kinds| <= 33
  {
    var streams := WithStreams(FRESH, kinds).streams;
    && k < |streams| && streams[k].pid == FIRST_STREAM_PID + k
    && ReportsOf(out, FIRST_STREAM_PID + k) == Expected(streams, frames, k)
  }

  lemma {:induction false} ReceivedAfterFlush(kinds: seq<byte>, frames: seq<Frame>, k: nat, out: seq<Report>)
    requires |kinds| <= 33 && k < |kinds| && IsAudio(kinds[k])
    requires Whole(WriteAll(WithStreams(FRESH, kinds), frames).1)
    requires Run(EMPTY, WriteAll(WithStreams(FRESH, kinds), frames).1).Ok?
    requires var r := Run(EMPTY, WriteAll(WithStreams(FRESH, kinds), frames).1).value; var pid := FIRST_STREAM_PID + k;
      ReportsOf(out, pid) == ReportsOf(r.1, pid) + PendingOf(r.0, pid)
    ensures Received(out, kinds, frames, k)
  {
    hide Run, ReportsOf, PendingOf, WriteAll, WithStreams, Expected, Regular;
    AudioRoundTrip(kinds, frames, k);
  }

  lemma {:induction false} AllRead(kinds: seq<byte>, frames: seq<Frame>)
    requires |kinds| <= 33
    ensures Whole(WriteAll(WithStreams(FRESH, kinds), frames).1)
    ensures Run(EMPTY, WriteAll(WithStreams(FRESH, kinds), frames).1).Ok?
  {
    WithStreamsRegular(FRESH, kinds);
    hide Run, WriteAll, Regular;
    RunAccepted(WithStreams(FRESH, kinds), EMPTY, frames);
  }
}
