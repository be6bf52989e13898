/** The demuxer's reorder buffer, writing decode times into queued frames in place. */
module MkvDtsObjects {
  import opened Arithmetic
  import opened Bytes
  import opened Wrappers
  import opened MkvDts

  /** What the buffer remembers besides the pending frames; the heap is kept smallest first. */
  datatype State = State(heap: seq<int>, emitted: nat, measured: Option<Measured>, last: Option<int>)

  ghost function MeasureNow(s: State, window: seq<int>): Measured
    requires window != []
  {
    if s.measured.Some? then s.measured.value else MeasureOf(window)
  }

  ghost function Resolve(s: State, window: seq<int>): State
    requires window != [] && s.heap != []
  {
    var m := MeasureNow(s, window);
    State(if s.emitted < m.delay then s.heap else s.heap[1..], s.emitted + 1, Some(m),
          Some(Clamped(s.heap[0] - HeadStart(m, s.emitted), window[0], s.last)))
  }

  lemma {:induction false} TailAscends(heap: seq<int>)
    requires Ascending(heap) && heap != []
    ensures Ascending(heap[1..])
  {
  }

  class Queued {
    const pts: time
    var dts: int
    var resolved: bool

    constructor (pts: time)
      ensures this.pts == pts && dts == pts && !resolved
    {
      this.pts, dts, resolved := pts, pts, false;
    }
  }

  function PtsOf(frames: seq<Queued>): (pts: seq<time>)
    ensures |pts| == |frames|
    ensures forall i :: 0 <= i < |pts| ==> pts[i] == frames[i].pts
  {
    seq(|frames|, i requires 0 <= i < |frames| => frames[i].pts)
  }

  class DtsReorder {
    var pending: seq<Queued>
    var heap: seq<int>
    var emitted: nat
    var measured: bool
    var delay: nat
    var step: int
    var minPts: int
    var started: bool
    var lastDts: int

    ghost predicate Valid()
      reads this
    {
      && Ascending(heap) && |pending| <= |heap|
      && (!measured ==> delay == 0 && step == 0)
    }

    ghost function S(): State
      reads this
    {
      State(heap, emitted, if measured then Some(Measured(delay, step, minPts)) else None,
            if started then Some(lastDts) else None)
    }

    constructor ()
      ensures Valid() && pending == [] && S() == State([], 0, None, None)
    {
      pending, heap, emitted, measured, delay, step, minPts, started, lastDts := [], [], 0, false, 0, 0, 0, false, 0;
    }

    /** Runs once, on the frames pending by then. */
    method Measure()
      requires Valid()
      modifies this`measured, this`delay, this`step, this`minPts
      ensures Valid()
      ensures S() == if pending == [] then old(S()) else old(S()).(measured := Some(MeasureNow(old(S()), PtsOf(pending))))
    {
      if measured || |pending| == 0 {
        return;
      }
      measured := true;
      delay, step, minPts := MeasureWindow(PtsOf(pending));
    }

    method Shift() returns (shift: int)
      ensures shift == if measured then ShiftOf(Measured(delay, step, minPts)) else 0
    {
      if !measured {
        return 0;
      }
      shift := Max(Times(delay, step) - minPts, 0);
    }

    /** Gives the oldest pending frame its decode time; the frames behind it are untouched. */
    method ResolveOldest()
      requires Valid() && pending != []
      modifies this, pending[0]
      ensures Valid() && pending == old(pending)[1..]
      ensures S() == Resolve(old(S()), PtsOf(old(pending)))
      ensures old(pending)[0].resolved && Some(old(pending)[0].dts) == S().last
    {
      hide MeasureOf, Times, Ascending;
      Measure();
      TailAscends(heap);
      var q := pending[0];
      pending := pending[1..];
      var dts := heap[0];
      if emitted < delay {
        dts := dts - Times(delay - emitted, step);
      } else {
        heap := heap[1..];
      }
      emitted := emitted + 1;
      var pts := q.pts;
      dts := Min(dts, pts);
      if started && dts <= lastDts {
        dts := Max(Min(lastDts + 1, pts), lastDts);
      }
      started := true;
      lastDts := dts;
      q.dts := dts;
      q.resolved := true;
    }

    method Push(q: Queued)
      requires Valid()
      modifies this, (pending + [q])[0]
      ensures Valid()
      ensures |old(pending)| + 1 < REORDER_WINDOW ==>
        && pending == old(pending) + [q] && S() == old(S()).(heap := Insert(old(heap), q.pts))
        && unchanged((old(pending) + [q])[0])
      ensures |old(pending)| + 1 >= REORDER_WINDOW ==>
        var all := old(pending) + [q];
        && pending == all[1..] && all[0].resolved && Some(all[0].dts) == S().last
        && S() == Resolve(old(S()).(heap := Insert(old(heap), q.pts)), PtsOf(all))
    {
      hide Resolve;
      pending := pending + [q];
      InsertAscends(heap, q.pts);
      heap := Insert(heap, q.pts);
      if |pending| >= REORDER_WINDOW {
        ResolveOldest();
      }
    }
  }

  // ---------------------------------------------------------------------------
  // A whole stream
  // ---------------------------------------------------------------------------

  /** The state after `p` frames have been pushed and `s.emitted` resolved, measured as `m`. */
  ghost predicate Tracks(s: State, pts: seq<int>, p: nat, m: Measured)
    requires p <= |pts|
  {
    && s.emitted <= p && Ascending(s.heap)
    && (s.measured == Some(m) || (s.measured == None && s.emitted == 0 && (pts != [] ==> m == StreamMeasure(pts))))
    && s.last == (if s.emitted == 0 then None else Some(Dts(pts, m, s.emitted - 1)))
    && multiset(s.heap) + Popped(pts, m, s.emitted) == multiset(pts[..p])
  }

  lemma {:induction false} PushTracks(s: State, pts: seq<int>, p: nat, m: Measured)
    requires p < |pts| && Tracks(s, pts, p, m)
    ensures Tracks(s.(heap := Insert(s.heap, pts[p])), pts, p + 1, m)
  {
    hide Popped, Dts, StreamMeasure;
    InsertAscends(s.heap, pts[p]);
    assert pts[..p + 1] == pts[..p] + [pts[p]];
  }

  /** Measuring a track before its window is full fixes its measurement; nothing has been resolved by then. */
  lemma {:induction false} MeasureTracks(s: State, pts: seq<int>, p: nat, m: Measured)
    requires 0 < p <= |pts| && Tracks(s, pts, p, m) && s.emitted == 0
    ensures var now := MeasureNow(s, pts[..p]); Tracks(s.(measured := Some(now)), pts, p, now)
  {
    hide StreamMeasure, MeasureOf;
    assert Popped(pts, m, 0) == multiset{} == Popped(pts, MeasureNow(s, pts[..p]), 0);
  }

  lemma {:induction false} TopIsMin(heap: seq<int>, pushed: multiset<int>, popped: multiset<int>)
    requires Ascending(heap) && heap != [] && multiset(heap) + popped == pushed
    ensures MinOf(pushed - popped) == heap[0]
    ensures multiset(heap[1..]) + (popped + multiset{heap[0]}) == pushed
  {
    assert pushed - popped == multiset(heap);
    assert heap == [heap[0]] + heap[1..];
    assert heap[0] in multiset(heap);
    var x := MinOf(multiset(heap));
    assert x in multiset(heap) && x in heap;
  }

  /** One resolution, at the moment the closed form says it happens. */
  lemma {:induction false} ResolveStep(pts: seq<int>, m: Measured, n: nat, heap: seq<int>)
    requires n < |pts| && Ascending(heap) && heap != []
    requires multiset(heap) + Popped(pts, m, n) == multiset(pts[..SeenAt(|pts|, n)])
    ensures heap[0] - HeadStart(m, n) == Raw(pts, m, n)
    ensures multiset(if n < m.delay then heap else heap[1..]) + Popped(pts, m, n + 1) == multiset(pts[..SeenAt(|pts|, n)])
  {
    TopIsMin(heap, multiset(pts[..SeenAt(|pts|, n)]), Popped(pts, m, n));
  }

  lemma {:induction false} MeasuredNow(s: State, pts: seq<int>, p: nat, m: Measured)
    requires s.emitted < p <= |pts| && p == SeenAt(|pts|, s.emitted) && Tracks(s, pts, p, m)
    ensures MeasureNow(s, pts[s.emitted..p]) == m
  {
    hide Dts, MeasureOf, Popped;
    assert pts[0..p] == pts[..p];
  }

  lemma {:induction false} DtsIs(pts: seq<int>, m: Measured, n: nat)
    requires n < |pts|
    ensures Dts(pts, m, n) == Clamped(Raw(pts, m, n), pts[n], if n == 0 then None else Some(Dts(pts, m, n - 1)))
  {
  }

  lemma {:induction false} ResolveTracks(s: State, pts: seq<int>, p: nat, m: Measured)
    requires s.emitted < p <= |pts| && p == SeenAt(|pts|, s.emitted) && Tracks(s, pts, p, m) && s.heap != []
    ensures Tracks(Resolve(s, pts[s.emitted..p]), pts, p, m)
  {
    hide Popped, StreamMeasure, Raw, HeadStart, MeasureNow, Dts, Clamped, Ascending, SeenAt, Tracks;
    var n := s.emitted;
    var next := if n < m.delay then s.heap else s.heap[1..];
    TracksParts(s, pts, p, m);
    MeasuredNow(s, pts, p, m);
    ResolveStep(pts, m, n, s.heap);
    TailAscends(s.heap);
    DtsIs(pts, m, n);
    assert Resolve(s, pts[n..p]) == State(next, n + 1, Some(m), Some(Dts(pts, m, n)));
    TracksFrom(next, pts, p, m, n);
  }

  lemma {:induction false} TracksParts(s: State, pts: seq<int>, p: nat, m: Measured)
    requires p <= |pts| && Tracks(s, pts, p, m)
    ensures s.emitted <= p && Ascending(s.heap) && multiset(s.heap) + Popped(pts, m, s.emitted) == multiset(pts[..p])
    ensures s.last == if s.emitted == 0 then None else Some(Dts(pts, m, s.emitted - 1))
  {
    hide Popped, Dts, Ascending, StreamMeasure;
  }

  lemma {:induction false} TracksFrom(heap: seq<int>, pts: seq<int>, p: nat, m: Measured, n: nat)
    requires n < p <= |pts| && Ascending(heap) && multiset(heap) + Popped(pts, m, n + 1) == multiset(pts[..p])
    ensures Tracks(State(heap, n + 1, Some(m), Some(Dts(pts, m, n))), pts, p, m)
  {
    hide Popped, Dts, Ascending;
  }

  ghost predicate AllDistinct(frames: seq<Queued>) {
    forall i, j :: 0 <= i < j < |frames| ==> frames[i] != frames[j]
  }

  /** The first `n` frames have been given the decode times of the closed form. */
  ghost predicate Decided(queue: seq<Queued>, n: nat, m: Measured)
    requires n <= |queue|
    reads queue
  {
    forall i :: 0 <= i < n ==> queue[i].resolved && queue[i].dts == Dts(PtsOf(queue), m, i)
  }

  ghost predicate Holds(r: DtsReorder, queue: seq<Queued>, p: nat, m: Measured)
    requires p <= |queue|
    reads r, queue
  {
    && r.Valid() && r.emitted <= p && r.pending == queue[r.emitted..p]
    && Tracks(r.S(), PtsOf(queue), p, m) && Decided(queue, r.emitted, m)
  }

  method PushNext(r: DtsReorder, queue: seq<Queued>, p: nat, ghost m: Measured)
    requires p < |queue| && AllDistinct(queue) && Holds(r, queue, p, m) && r.emitted == Max(0, p + 1 - REORDER_WINDOW)
    modifies r, queue[r.emitted]
    ensures Holds(r, queue, p + 1, m) && r.emitted == Max(0, p + 2 - REORDER_WINDOW)
    ensures r.emitted == 0 ==> r.measured == old(r.measured)
  {
    hide Popped, Insert, Resolve, Tracks, Dts, StreamMeasure;
    ghost var pts, e, s := PtsOf(queue), r.emitted, r.S();
    assert r.pending + [queue[p]] == queue[e..p + 1];
    PushTracks(s, pts, p, m);
    r.Push(queue[p]);
    if |queue[e..p]| + 1 >= REORDER_WINDOW {
      assert PtsOf(queue[e..p + 1]) == pts[e..p + 1];
      ResolveTracks(s.(heap := Insert(s.heap, pts[p])), pts, p + 1, m);
      ResolveIs(s.(heap := Insert(s.heap, pts[p])), pts, p + 1, m);
    }
  }

  lemma {:induction false} ResolveIs(s: State, pts: seq<int>, p: nat, m: Measured)
    requires s.emitted < p <= |pts| && s.heap != [] && Tracks(Resolve(s, pts[s.emitted..p]), pts, p, m)
    ensures Resolve(s, pts[s.emitted..p]).emitted == s.emitted + 1
    ensures Resolve(s, pts[s.emitted..p]).last == Some(Dts(pts, m, s.emitted))
  {
  }

  method ResolveNext(r: DtsReorder, queue: seq<Queued>, ghost m: Measured)
    requires AllDistinct(queue) && Holds(r, queue, |queue|, m) && r.pending != [] && |r.pending| < REORDER_WINDOW
    modifies r, queue[r.emitted]
    ensures Holds(r, queue, |queue|, m) && r.emitted == old(r.emitted) + 1
  {
    hide Popped, Insert, Resolve, Tracks, Dts, StreamMeasure;
    ghost var pts, e, s := PtsOf(queue), r.emitted, r.S();
    assert r.pending == queue[e..|queue|];
    assert PtsOf(queue[e..|queue|]) == pts[e..|queue|];
    r.ResolveOldest();
    ResolveTracks(s, pts, |queue|, m);
    ResolveIs(s, pts, |queue|, m);
  }

  lemma {:induction false} EarlyTracks(s: State, pts: seq<int>, p: nat)
    requires 0 < p <= |pts| && p < REORDER_WINDOW && Tracks(s, pts, p, StreamMeasure(pts))
    requires s.emitted == 0 && s.measured == None
    ensures MeasureNow(s, pts[..p]) == MeasuredAt(pts, p)
    ensures Tracks(s.(measured := Some(MeasureNow(s, pts[..p]))), pts, p, MeasuredAt(pts, p))
  {
    hide MeasureOf, Tracks;
    MeasureTracks(s, pts, p, StreamMeasure(pts));
  }

  /**
   * `p` frames have been pushed before the offset is settled, and flushed too if the file ends
   * there: the track is measured once its first frame is resolved, and not before.
   */
  ghost predicate Reading(r: DtsReorder, queue: seq<Queued>, p: nat)
    requires p <= |queue|
    reads r, queue
  {
    r.Valid() && ReadingAs(r.S(), r.pending, queue, p)
  }

  ghost predicate ReadingAs(s: State, pending: seq<Queued>, queue: seq<Queued>, p: nat)
    requires p <= |queue|
    reads queue
  {
    && s.emitted <= p && pending == queue[s.emitted..p]
    && (queue != [] ==>
         var m := StreamMeasure(PtsOf(queue)); Tracks(s, PtsOf(queue), p, m) && Decided(queue, s.emitted, m))
    && ReadingState(s, |queue|, p)
  }

  ghost predicate ReadingState(s: State, total: nat, p: nat) {
    if s.emitted == 0 then s.measured == None && p < REORDER_WINDOW else p >= REORDER_WINDOW || p == total
  }

  /** A track after it has been measured on what is pending, if anything is. */
  ghost function MeasuredState(s: State, window: seq<int>): State {
    if window == [] then s else s.(measured := Some(MeasureNow(s, window)))
  }

  /** How far a track asks the file to move; nothing while it has not been measured. */
  function ShiftIn(s: State): int {
    if s.measured.Some? then ShiftOf(s.measured.value) else 0
  }

  /** Settling the offset fixes what a track is measured as, and nothing else. */
  lemma {:induction false} SettledAsks(s: State, pts: seq<int>, p: nat)
    requires pts != [] && s.emitted <= p <= |pts|
    requires Tracks(s, pts, p, StreamMeasure(pts)) && ReadingState(s, |pts|, p)
    ensures var t := MeasuredState(s, pts[s.emitted..p]);
      && Tracks(t, pts, p, MeasuredAt(pts, p))
      && ShiftIn(t) == AskedAt(pts, p)
      && (s.emitted > 0 ==> MeasuredAt(pts, p) == StreamMeasure(pts))
  {
    hide Tracks, MeasureOf, StreamMeasure, ShiftOf;
    if s.emitted > 0 {
      AlreadyMeasured(s, pts, p);
    } else if p > 0 {
      assert pts[0..p] == pts[..p];
      EarlyTracks(s, pts, p);
    }
  }

  /** Measuring a track before the offset is settled fixes what it is measured as, and nothing else. */
  method MeasureEarly(r: DtsReorder, queue: seq<Queued>, p: nat)
    requires queue != [] && p <= |queue| && Reading(r, queue, p)
    modifies r
    ensures Holds(r, queue, p, MeasuredAt(PtsOf(queue), p)) && r.emitted == old(r.emitted)
    ensures ShiftIn(r.S()) == AskedAt(PtsOf(queue), p)
  {
    hide Tracks, Dts, MeasureOf, StreamMeasure, MeasuredAt, AskedAt, MeasureNow, ShiftIn;
    ghost var pts, s := PtsOf(queue), r.S();
    assert PtsOf(queue[s.emitted..p]) == pts[s.emitted..p];
    SettledAsks(s, pts, p);
    r.Measure();
  }

  lemma {:induction false} AlreadyMeasured(s: State, pts: seq<int>, p: nat)
    requires pts != [] && p <= |pts| && Tracks(s, pts, p, StreamMeasure(pts)) && s.emitted > 0
    ensures s.measured == Some(StreamMeasure(pts))
  {
  }

  /**
   * A stream pushed and flushed, the offset of the file being settled after `settled` of its
   * frames: every frame gets its decode time, in place.
   */
  method DeriveStream(queue: seq<Queued>, settled: nat)
    requires AllDistinct(queue)
    modifies queue
    ensures queue != [] ==> Decided(queue, |queue|, MeasuredAt(PtsOf(queue), settled))
  {
    hide Tracks, Dts, StreamMeasure;
    var r := new DtsReorder();
    if |queue| == 0 {
      return;
    }
    ghost var m := StreamMeasure(PtsOf(queue));
    assert Tracks(r.S(), PtsOf(queue), 0, m) by {
      EmptyTracks(PtsOf(queue), m);
    }
    for p := 0 to |queue|
      invariant fresh(r) && Holds(r, queue, p, m) && r.emitted == Max(0, p + 1 - REORDER_WINDOW)
      invariant m == if p <= settled then StreamMeasure(PtsOf(queue)) else MeasuredAt(PtsOf(queue), settled)
      invariant p <= settled && r.emitted == 0 ==> !r.measured
    {
      if p == settled {
        MeasureEarly(r, queue, p);
        m := MeasuredAt(PtsOf(queue), p);
      }
      PushNext(r, queue, p, m);
    }
    while |r.pending| > 0
      invariant fresh(r) && Holds(r, queue, |queue|, m) && |r.pending| < REORDER_WINDOW
      decreases |r.pending|
    {
      ResolveNext(r, queue, m);
    }
  }

  lemma {:induction false} EmptyTracks(pts: seq<int>, m: Measured)
    requires pts != [] ==> m == StreamMeasure(pts)
    ensures Tracks(State([], 0, None, None), pts, 0, m)
  {
  }
}
