/** The demuxer's output queue: one offset for the whole file, settled over its reordered tracks. */
module MkvQueue {
  import opened Arithmetic
  import opened Bytes
  import opened Wrappers
  import opened MkvDts
  import opened MkvDtsObjects

  /** A frame as it is handed out. */
  datatype Timed = Timed(pts: int, dts: int)

  /** A frame moved by the offset; its decode time is kept from going below zero. */
  function Moved(pts: int, dts: int, offset: int): Timed {
    Timed(pts + offset, Max(dts + offset, 0))
  }

  /** The track holds the same frames as before, and is measured on them. */
  ghost predicate Settled(r: DtsReorder, was: State, pending: seq<Queued>)
    reads r
  {
    r.pending == pending && r.S() == MeasuredState(was, PtsOf(pending))
  }

  method MeasureTrack(r: DtsReorder) returns (shift: int)
    requires r.Valid()
    modifies r
    ensures r.Valid() && Settled(r, old(r.S()), old(r.pending)) && shift == ShiftIn(r.S())
  {
    hide MeasureNow, ShiftOf, Ascending;
    r.Measure();
    shift := r.Shift();
  }

  lemma {:induction false} TrackSettled(r: DtsReorder, was: State, pending: seq<Queued>, frames: seq<Queued>, p: nat)
    requires p <= |frames| && ReadingAs(was, pending, frames, p) && r.Valid() && Settled(r, was, pending)
    ensures ShiftIn(r.S()) == AskedAt(PtsOf(frames), p)
    ensures frames != [] ==> Holds(r, frames, p, MeasuredAt(PtsOf(frames), p))
  {
    hide Tracks, Dts, MeasureNow, StreamMeasure, MeasuredAt, ShiftOf;
    if frames != [] {
      assert PtsOf(frames[r.emitted..p]) == PtsOf(frames)[r.emitted..p];
      SettledAsks(was, PtsOf(frames), p);
    }
  }

  class PacketQueue {
    /** The reorder buffers of the tracks that have one, in file order. */
    var reorders: seq<DtsReorder>
    var queue: seq<Queued>
    var offset: int
    var offsetKnown: bool

    constructor (reorders: seq<DtsReorder>)
      ensures this.reorders == reorders && queue == [] && offset == 0 && !offsetKnown
    {
      this.reorders, queue, offset, offsetKnown := reorders, [], 0, false;
    }

    ghost predicate Valid()
      reads this, reorders
    {
      && (forall i :: 0 <= i < |reorders| ==> reorders[i].Valid())
      && (forall i, j :: 0 <= i < j < |reorders| ==> reorders[i] != reorders[j])
    }

    /** Measures every track on what it holds and takes the largest shift any of them needs. */
    method SettleOffset()
      requires Valid()
      modifies this`offset, this`offsetKnown, reorders
      ensures Valid() && offsetKnown && offset >= old(offset)
      ensures forall i :: 0 <= i < |reorders| ==>
        Settled(reorders[i], old(reorders[i].S()), old(reorders[i].pending)) && offset >= ShiftIn(reorders[i].S())
      ensures offset == old(offset) || exists i :: 0 <= i < |reorders| && offset == ShiftIn(reorders[i].S())
    {
      hide Settled, ShiftIn, Ascending, Max;
      offsetKnown := true;
      for i := 0 to |reorders|
        invariant Valid() && offsetKnown && offset >= old(offset)
        invariant forall j :: i <= j < |reorders| ==> unchanged(reorders[j])
        invariant forall j :: 0 <= j < i ==>
          Settled(reorders[j], old(reorders[j].S()), old(reorders[j].pending)) && offset >= ShiftIn(reorders[j].S())
        invariant offset == old(offset) || exists j :: 0 <= j < i && offset == ShiftIn(reorders[j].S())
      {
        var shift := MeasureTrack(reorders[i]);
        if shift > offset {
          offset := shift;
        }
      }
    }

    /**
     * Settling a file of which `read[i]` frames of track i have been read: each track is measured
     * on those, and the offset covers what each of them asks for, no more.
     */
    method SettleFile(ghost tracks: seq<seq<Queued>>, ghost read: seq<nat>)
      requires Valid() && |tracks| == |read| == |reorders|
      requires forall i :: 0 <= i < |reorders| ==> read[i] <= |tracks[i]| && Reading(reorders[i], tracks[i], read[i])
      modifies this`offset, this`offsetKnown, reorders
      ensures Valid() && offsetKnown && offset >= old(offset)
      ensures forall i :: 0 <= i < |reorders| ==> offset >= AskedAt(PtsOf(tracks[i]), read[i])
      ensures offset == old(offset) || exists i :: 0 <= i < |reorders| && offset == AskedAt(PtsOf(tracks[i]), read[i])
      ensures forall i :: 0 <= i < |reorders| && tracks[i] != [] ==>
        Holds(reorders[i], tracks[i], read[i], MeasuredAt(PtsOf(tracks[i]), read[i]))
    {
      hide ReadingAs, Settled, ShiftIn, AskedAt, MeasuredAt, Holds;
      SettleOffset();
      forall i | 0 <= i < |reorders|
        ensures ShiftIn(reorders[i].S()) == AskedAt(PtsOf(tracks[i]), read[i])
        ensures tracks[i] != [] ==>
          Holds(reorders[i], tracks[i], read[i], MeasuredAt(PtsOf(tracks[i]), read[i]))
      {
        TrackSettled(reorders[i], old(reorders[i].S()), old(reorders[i].pending), tracks[i], read[i]);
      }
    }

    /** The frame at the head of the queue, once it has its decode time. */
    method Emit() returns (out: Option<Timed>)
      requires offsetKnown
      modifies this`queue
      ensures if old(queue) != [] && old(queue)[0].resolved
        then out == Some(Moved(old(queue)[0].pts, old(queue)[0].dts, offset)) && queue == old(queue)[1..]
        else out == None && queue == old(queue)
    {
      if |queue| > 0 && queue[0].resolved {
        var q := queue[0];
        queue := queue[1..];
        return Some(Timed(q.pts + offset, Max(q.dts + offset, 0)));
      }
      return None;
    }
  }

  /**
   * A file of one reordered track: the frames come out in file order, with decode times that
   * start at zero or later, never go backwards, and keep their distance from the frame's own
   * presentation time; the file is moved no further than that takes.
   */
  lemma {:induction false} TrackMoved(pts: seq<time>, offset: int, n: nat)
    requires n < |pts| && offset == ShiftOf(StreamMeasure(pts))
    ensures var m := StreamMeasure(pts); var out := Moved(pts[n], Dts(pts, m, n), offset);
      && out.dts - out.pts == Dts(pts, m, n) - pts[n]
      && (n > 0 ==> Moved(pts[n - 1], Dts(pts, m, n - 1), offset).dts <= out.dts)
      && (n == 0 && offset > 0 ==> out.dts == 0)
  {
    hide Dts, StreamMeasure, ShiftOf;
    ShiftedNotNegative(pts, offset, n);
    ShiftIsLeast(pts);
    if n > 0 {
      NeverBackwards(pts, StreamMeasure(pts), n - 1, n);
    }
  }

  /** The frame leaves with its decode time as far from its presentation time as it was derived. */
  ghost predicate KeepsDistance(pts: seq<time>, m: Measured, offset: int, n: nat)
    requires n < |pts|
  {
    var out := Moved(pts[n], Dts(pts, m, n), offset);
    out.dts - out.pts == Dts(pts, m, n) - pts[n]
  }

  /** No frame of the track is touched by the clamp to zero. */
  ghost predicate AllKeep(pts: seq<time>, m: Measured, offset: int) {
    forall n: nat | n < |pts| :: KeepsDistance(pts, m, offset, n)
  }

  /**
   * A track of a file whose offset is settled after `settled` of the track's frames: decode times
   * never go backwards, and the clamp to zero leaves every frame alone exactly when the earliest
   * frame of the first window and the offset of the file cover the measured head start.
   */
  lemma {:induction false} EarlyTrackMoved(pts: seq<time>, settled: nat, offset: int)
    requires pts != []
    ensures var m := MeasuredAt(pts, settled);
      && (forall i: nat, j: nat | i <= j < |pts| ::
            Moved(pts[i], Dts(pts, m, i), offset).dts <= Moved(pts[j], Dts(pts, m, j), offset).dts)
      && (AllKeep(pts, m, offset) <==> Times(m.delay, m.step) <= Earliest(pts) + offset)
  {
    hide Dts, MeasuredAt, Times, KeepsDistance, NotNegative, Earliest;
    var m := MeasuredAt(pts, settled);
    CoveredIff(pts, settled, offset);
    forall i: nat, j: nat | i <= j < |pts|
      ensures Dts(pts, m, i) <= Dts(pts, m, j)
    {
      NeverBackwards(pts, m, i, j);
    }
    AllKeepIff(pts, m, offset);
  }

  /**
   * The offset covers what the track asks for, so a track whose earliest frame had been read by
   * then is left alone; where it is the move the track asks for, only such a track is, or one
   * whose earliest frame covers the head start spared.
   */
  lemma {:induction false} AskedTrackMoved(pts: seq<time>, settled: nat, offset: int)
    requires pts != [] && offset >= AskedAt(pts, settled)
    ensures var m := MeasuredAt(pts, settled);
      var spared := (settled > 0 && m.minPts == Earliest(pts)) || Times(m.delay, m.step) <= Earliest(pts);
      (spared ==> AllKeep(pts, m, offset)) && (offset == AskedAt(pts, settled) ==> (AllKeep(pts, m, offset) ==> spared))
  {
    hide Dts, MeasuredAt, Times, AllKeep, NotNegative, Earliest, AskedAt;
    EarlyMeasureIff(pts, settled);
    CoveredIff(pts, settled, AskedAt(pts, settled));
    EarlyTrackMoved(pts, settled, offset);
  }

  lemma {:induction false} AllKeepIff(pts: seq<time>, m: Measured, offset: int)
    ensures AllKeep(pts, m, offset) <==> NotNegative(pts, m, offset)
  {
    hide Dts;
    forall n: nat | n < |pts|
      ensures KeepsDistance(pts, m, offset, n) <==> Dts(pts, m, n) + offset >= 0
    {
    }
  }
}
