/**
 * Deriving decode times from presentation times with a bounded window, against the
 * sorted presentation times of the whole stream.
 */
module MkvDts {
  import opened Arithmetic
  import opened Bytes
  import opened Wrappers
  import EsOrder

  const REORDER_WINDOW := 16

  /** Presentation times; below 2^63 so that they survive the signed arithmetic. */
  type time = x: int | 0 <= x < 0x8000_0000_0000_0000

  // ---------------------------------------------------------------------------
  // Order statistics
  // ---------------------------------------------------------------------------

  function Insert(sorted: seq<int>, x: int): (r: seq<int>)
    ensures |r| == |sorted| + 1
  {
    if sorted == [] || x < sorted[0] then [x] + sorted else [sorted[0]] + Insert(sorted[1..], x)
  }

  function Sorted(s: seq<int>): (r: seq<int>)
    ensures |r| == |s|
  {
    if s == [] then [] else Insert(Sorted(s[..|s| - 1]), s[|s| - 1])
  }

  predicate Ascending(s: seq<int>) {
    forall i, j :: 0 <= i < j < |s| ==> s[i] <= s[j]
  }

  /** How many entries are at most v. */
  function CountUpTo(s: seq<int>, v: int): (n: nat)
    ensures n <= |s|
  {
    if s == [] then 0 else CountUpTo(s[..|s| - 1], v) + if s[|s| - 1] <= v then 1 else 0
  }

  lemma {:induction false} InsertIs(sorted: seq<int>, x: int)
    ensures Insert(sorted, x) ==
      if sorted == [] || x < sorted[0] then [x] + sorted else [sorted[0]] + Insert(sorted[1..], x)
  {
  }

  lemma {:induction false} InsertAscends(sorted: seq<int>, x: int)
    requires Ascending(sorted)
    ensures Ascending(Insert(sorted, x)) && multiset(Insert(sorted, x)) == multiset(sorted) + multiset{x}
  {
    hide Insert;
    InsertIs(sorted, x);
    if sorted != [] && x >= sorted[0] {
      var rest := sorted[1..];
      InsertAscends(rest, x);
      assert sorted == [sorted[0]] + rest;
      forall i | 0 <= i < |Insert(rest, x)|
        ensures sorted[0] <= Insert(rest, x)[i]
      {
        assert Insert(rest, x)[i] in multiset(rest) + multiset{x};
      }
    }
  }

  lemma {:induction false} SortedAscends(s: seq<int>)
    ensures Ascending(Sorted(s)) && multiset(Sorted(s)) == multiset(s)
  {
    if s != [] {
      var n := |s| - 1;
      SortedAscends(s[..n]);
      InsertAscends(Sorted(s[..n]), s[n]);
      assert s == s[..n] + [s[n]];
    }
  }

  lemma {:induction false} CountUpToSplit(a: seq<int>, b: seq<int>, v: int)
    ensures CountUpTo(a + b, v) == CountUpTo(a, v) + CountUpTo(b, v)
  {
    if b == [] {
      assert a + b == a;
    } else {
      assert (a + b)[..|a + b| - 1] == a + b[..|b| - 1];
      CountUpToSplit(a, b[..|b| - 1], v);
    }
  }

  function Without(s: seq<int>, k: nat): seq<int>
    requires k < |s|
  {
    s[..k] + s[k + 1..]
  }

  lemma {:induction false} WithoutIs(s: seq<int>, k: nat)
    requires k < |s|
    ensures multiset(s) == multiset(Without(s, k)) + multiset{s[k]}
  {
    assert s == s[..k] + [s[k]] + s[k + 1..];
  }

  lemma {:induction false} CountUpToWithout(s: seq<int>, k: nat, v: int)
    requires k < |s|
    ensures CountUpTo(s, v) == CountUpTo(Without(s, k), v) + if s[k] <= v then 1 else 0
  {
    assert s == s[..k] + ([s[k]] + s[k + 1..]);
    CountUpToSplit(s[..k], [s[k]] + s[k + 1..], v);
    CountUpToSplit([s[k]], s[k + 1..], v);
    CountUpToSplit(s[..k], s[k + 1..], v);
    assert CountUpTo([s[k]], v) == if s[k] <= v then 1 else 0;
  }

  /** Of the values up to v, s holds none more often than t. */
  ghost predicate NoMoreUpTo(s: multiset<int>, t: multiset<int>, v: int) {
    forall x :: x <= v ==> s[x] <= t[x]
  }

  lemma {:induction false} NoMoreLess(s: multiset<int>, t: multiset<int>, x: int, v: int)
    requires NoMoreUpTo(s + multiset{x}, t + multiset{x}, v)
    ensures NoMoreUpTo(s, t, v)
  {
    forall y | y <= v
      ensures s[y] <= t[y]
    {
      assert (s + multiset{x})[y] <= (t + multiset{x})[y];
    }
  }

  /** Counting sees multiplicities only. */
  lemma {:induction false} CountUpToMonotone(s: seq<int>, t: seq<int>, v: int)
    requires NoMoreUpTo(multiset(s), multiset(t), v)
    ensures CountUpTo(s, v) <= CountUpTo(t, v)
  {
    hide Without;
    if s != [] {
      var n := |s| - 1;
      var x := s[n];
      assert multiset(s) == multiset(s[..n]) + multiset{x} by {
        assert s == s[..n] + [x];
      }
      if x <= v {
        assert multiset(s)[x] <= multiset(t)[x];
        assert x in multiset(t);
        var k :| 0 <= k < |t| && t[k] == x;
        WithoutIs(t, k);
        CountUpToWithout(t, k, v);
        NoMoreLess(multiset(s[..n]), multiset(Without(t, k)), x, v);
        CountUpToMonotone(s[..n], Without(t, k), v);
      } else {
        CountUpToMonotone(s[..n], t, v);
      }
    }
  }

  lemma {:induction false} CountUpToSorted(s: seq<int>, v: int)
    ensures CountUpTo(Sorted(s), v) == CountUpTo(s, v)
  {
    SortedAscends(s);
    CountUpToMonotone(s, Sorted(s), v);
    CountUpToMonotone(Sorted(s), s, v);
  }

  lemma {:induction false} CountUpToAscending(s: seq<int>, k: nat, v: int)
    requires Ascending(s) && k < |s|
    ensures s[k] <= v <==> k < CountUpTo(s, v)
  {
    var n := |s| - 1;
    assert s[n] == s[|s| - 1];
    if k < n {
      CountUpToAscending(s[..n], k, v);
      if s[n] <= v {
        AllUpTo(s[..n], v);
      }
    } else if s[n] <= v {
      AllUpTo(s[..n], v);
    }
  }

  lemma {:induction false} AllUpTo(s: seq<int>, v: int)
    requires forall i :: 0 <= i < |s| ==> s[i] <= v
    ensures CountUpTo(s, v) == |s|
  {
    if s != [] {
      AllUpTo(s[..|s| - 1], v);
    }
  }

  /** The k-th smallest entry is at most v exactly when more than k entries are. */
  lemma {:induction false} OrderStatistic(s: seq<int>, k: nat, v: int)
    requires k < |s|
    ensures Sorted(s)[k] <= v <==> k < CountUpTo(s, v)
  {
    SortedAscends(s);
    CountUpToSorted(s, v);
    CountUpToAscending(Sorted(s), k, v);
  }

  /** Entries at most v all lie before position c, so the tail from a holds at most c - a of them. */
  lemma {:induction false} CountTail(s: seq<int>, a: nat, c: nat, v: int)
    requires a <= |s| && forall i :: a <= i < |s| && s[i] <= v ==> i < c
    ensures CountUpTo(s[a..], v) <= Max(0, c - a)
    decreases |s| - a
  {
    if a < |s| {
      CountTail(s, a + 1, c, v);
      assert s[a..] == [s[a]] + s[a + 1..];
      CountUpToSplit([s[a]], s[a + 1..], v);
      assert CountUpTo([s[a]], v) == if s[a] <= v then 1 else 0;
    }
  }

  // ---------------------------------------------------------------------------
  // The smallest of a multiset
  // ---------------------------------------------------------------------------

  ghost predicate IsMin(m: multiset<int>, x: int) {
    x in m && forall y :: y in m ==> x <= y
  }

  lemma {:induction false} MinExists(m: multiset<int>)
    requires m != multiset{}
    ensures exists x :: IsMin(m, x)
    decreases |m|
  {
    assert (forall x :: x !in m) ==> m == multiset{};
    var x :| x in m;
    var rest := m - multiset{x};
    if rest == multiset{} {
      assert m == multiset{x};
      assert IsMin(m, x);
    } else {
      MinExists(rest);
      var y :| IsMin(rest, y);
      assert m == rest + multiset{x};
      assert IsMin(m, if x < y then x else y);
    }
  }

  ghost function MinOf(m: multiset<int>): (x: int)
    ensures m != multiset{} ==> IsMin(m, x)
  {
    if m == multiset{} then 0
    else
      MinExists(m);
      var x :| IsMin(m, x);
      x
  }

  // ---------------------------------------------------------------------------
  // Decode times of a stream
  // ---------------------------------------------------------------------------

  /** What the first window shows: reordering depth, frame spacing and earliest time. */
  datatype Measured = Measured(delay: nat, step: int, minPts: int)

  function PerStep(total: int, n: int): int
    requires n != 0
  {
    total / n
  }

  function KeysFor(pts: seq<int>): (keys: seq<EsOrder.Key>)
    ensures |keys| == |pts|
    ensures forall i :: 0 <= i < |keys| ==> keys[i] == EsOrder.Key(0, pts[i])
  {
    seq(|pts|, i requires 0 <= i < |pts| => EsOrder.Key(0, pts[i]))
  }

  /** The stable presentation rank of frame i. */
  ghost function Rank(pts: seq<int>, i: nat): nat
    requires i < |pts|
  {
    EsOrder.Rank(KeysFor(pts), i)
  }

  /** The most frames any of the first `n` is decoded later than its presentation rank. */
  ghost function MostBehind(window: seq<int>, n: nat): nat
    requires n <= |window|
  {
    if n == 0 then 0 else Max(MostBehind(window, n - 1), n - 1 - Rank(window, n - 1))
  }

  ghost function MeasureOf(window: seq<int>): Measured
    requires window != []
  {
    var n, order := |window|, Sorted(window);
    Measured(MostBehind(window, n), if n > 1 then PerStep(order[n - 1] - order[0], n - 1) else 0, order[0])
  }

  function ShiftOf(m: Measured): int {
    Max(Times(m.delay, m.step) - m.minPts, 0)
  }

  /** How many frames have been pushed when the n-th is resolved. */
  function SeenAt(total: nat, n: nat): nat {
    if n + REORDER_WINDOW < total then n + REORDER_WINDOW else total
  }

  /** The presentation times taken off the heap before frame n is resolved, and those left on it. */
  ghost function Popped(pts: seq<int>, m: Measured, n: nat): multiset<int>
    requires n <= |pts|
    decreases n, 0
  {
    if n == 0 then multiset{}
    else if n - 1 < m.delay then Popped(pts, m, n - 1)
    else Popped(pts, m, n - 1) + multiset{MinOf(Held(pts, m, n - 1))}
  }

  ghost function Held(pts: seq<int>, m: Measured, n: nat): multiset<int>
    requires n <= |pts|
    decreases n, 1
  {
    multiset(pts[..SeenAt(|pts|, n)]) - Popped(pts, m, n)
  }

  /** How far before the first presentation time frame n decodes, for the first frames. */
  function HeadStart(m: Measured, n: nat): int {
    if n < m.delay then Times(m.delay - n, m.step) else 0
  }

  ghost function Raw(pts: seq<int>, m: Measured, n: nat): int
    requires n <= |pts|
  {
    MinOf(Held(pts, m, n)) - HeadStart(m, n)
  }

  /** Never past the presentation time, never backwards, strictly later where there is room. */
  function Clamped(dts: int, pts: int, last: Option<int>): int {
    var d := Min(dts, pts);
    if last.Some? && d <= last.value then Max(Min(last.value + 1, pts), last.value) else d
  }

  ghost function Dts(pts: seq<int>, m: Measured, n: nat): int
    requires n < |pts|
  {
    Clamped(Raw(pts, m, n), pts[n], if n == 0 then None else Some(Dts(pts, m, n - 1)))
  }

  /** The measurement of a stream whose first window is resolved before the offset is settled. */
  ghost function StreamMeasure(pts: seq<int>): Measured
    requires pts != []
  {
    MeasureOf(pts[..SeenAt(|pts|, 0)])
  }

  /**
   * What a track is measured on: its first window, or the `settled` frames read before another
   * track settles the offset.
   */
  ghost function MeasuredAt(pts: seq<int>, settled: nat): Measured
    requires pts != []
  {
    if 0 < settled < SeenAt(|pts|, 0) then MeasureOf(pts[..settled]) else StreamMeasure(pts)
  }

  /** How far a track asks the file to move when the offset is settled; nothing while it has no frames yet. */
  ghost function AskedAt(pts: seq<int>, settled: nat): int {
    if settled == 0 || pts == [] then 0 else ShiftOf(MeasuredAt(pts, settled))
  }

  /** The ideal: the sorted presentation times, `delay` frames late, extended backwards by `step`. */
  function Timeline(pts: seq<int>, m: Measured, n: nat): int
    requires n < |pts|
  {
    if n < m.delay then Sorted(pts)[0] - HeadStart(m, n) else Sorted(pts)[n - m.delay]
  }

  /** Measured values a window can produce. */
  predicate Plausible(m: Measured) {
    m.delay < REORDER_WINDOW && m.step >= 0
  }

  // ---------------------------------------------------------------------------
  // Every run
  // ---------------------------------------------------------------------------

  /** Decode times never go backwards, however the stream was measured. */
  lemma {:induction false} NeverBackwards(pts: seq<int>, m: Measured, i: nat, j: nat)
    requires i <= j < |pts|
    ensures Dts(pts, m, i) <= Dts(pts, m, j)
  {
    hide Raw;
    if i < j {
      NeverBackwards(pts, m, i, j - 1);
    }
  }

  lemma {:induction false} PoppedSize(pts: seq<int>, m: Measured, n: nat)
    requires n <= |pts|
    ensures |Popped(pts, m, n)| <= n
  {
    if n > 0 {
      PoppedSize(pts, m, n - 1);
    }
  }

  lemma {:induction false} HeldNonEmpty(pts: seq<int>, m: Measured, n: nat)
    requires n < |pts|
    ensures Held(pts, m, n) != multiset{}
  {
    hide Popped;
    PoppedSize(pts, m, n);
    var pushed := multiset(pts[..SeenAt(|pts|, n)]);
    assert |pushed| > n;
    assert pushed <= Held(pts, m, n) + Popped(pts, m, n);
    Fewer(pushed, Held(pts, m, n) + Popped(pts, m, n));
  }

  lemma {:induction false} Fewer(a: multiset<int>, b: multiset<int>)
    ensures a <= b ==> |a| <= |b|
  {
    if a <= b {
      assert b == a + (b - a);
    }
  }

  lemma {:induction false} SeenGrows(pts: seq<int>, n: nat)
    requires n < |pts|
    ensures multiset(pts[..SeenAt(|pts|, n)]) <= multiset(pts[..SeenAt(|pts|, n + 1)])
  {
    var a, b := SeenAt(|pts|, n), SeenAt(|pts|, n + 1);
    assert pts[..b] == pts[..a] + pts[a..b];
  }

  /** Nothing is taken off the heap that was not pushed. */
  lemma {:induction false} PoppedWerePushed(pts: seq<int>, m: Measured, n: nat)
    requires n <= |pts|
    ensures Popped(pts, m, n) <= multiset(pts[..SeenAt(|pts|, n)])
  {
    hide SeenAt;
    if n > 0 {
      PoppedWerePushed(pts, m, n - 1);
      HeldNonEmpty(pts, m, n - 1);
      SeenGrows(pts, n - 1);
    }
  }

  lemma {:induction false} MinOfSorted(s: seq<int>)
    requires s != []
    ensures MinOf(multiset(s)) == Sorted(s)[0]
  {
    SortedAscends(s);
    var r := Sorted(s);
    assert multiset(r) != multiset{} by {
      assert r[0] in multiset(r);
    }
    var x := MinOf(multiset(r));
    assert x in multiset(r) && x in r;
    assert r[0] in multiset(r);
  }

  lemma {:induction false} TimesMonotone(a: int, b: int, s: int)
    requires a <= b && 0 <= s
    ensures Times(a, s) <= Times(b, s)
  {
  }

  lemma {:induction false} TimesZero(s: int)
    ensures Times(0, s) == 0 && Times(1, s) == s
  {
  }

  lemma {:induction false} MeasureIsPlausible(window: seq<int>)
    requires window != [] && |window| <= REORDER_WINDOW
    ensures Plausible(MeasureOf(window)) && MeasureOf(window).delay < |window|
    ensures MeasureOf(window).minPts == Sorted(window)[0]
  {
    SortedAscends(window);
    MostBehindSmall(window, |window|);
    var n, order := |window|, Sorted(window);
    if n > 1 {
      assert order[0] <= order[n - 1];
      PerStepNonNegative(order[n - 1] - order[0], n - 1);
    }
  }

  lemma {:induction false} MostBehindSmall(window: seq<int>, n: nat)
    requires n <= |window|
    ensures MostBehind(window, n) < Max(n, 1)
  {
    hide Rank;
    if n > 0 {
      MostBehindSmall(window, n - 1);
    }
  }

  lemma {:induction false} PerStepNonNegative(total: int, n: int)
    requires total >= 0 && n > 0
    ensures 0 <= PerStep(total, n) && Times(PerStep(total, n), n) <= total
  {
    DivMod(total, n);
  }

  /** The first frame decodes `delay` steps before the earliest frame of its window. */
  lemma {:induction false} FirstDts(pts: seq<int>, m: Measured)
    requires pts != [] && Plausible(m)
    ensures Dts(pts, m, 0) == Sorted(pts[..SeenAt(|pts|, 0)])[0] - Times(m.delay, m.step)
  {
    hide Sorted, Times;
    var first := pts[..SeenAt(|pts|, 0)];
    MinOfSorted(first);
    assert Held(pts, m, 0) == multiset(first);
    assert first[0] in multiset(first);
    TimesZero(m.step);
    TimesMonotone(0, m.delay, m.step);
  }

  /**
   * The first decode time plus the shift is zero or later, whatever the order of the
   * frames, and the shift is the smallest that achieves it.
   */
  lemma {:induction false} ShiftIsLeast(pts: seq<int>)
    requires pts != []
    ensures ShiftOf(StreamMeasure(pts)) == Max(0, -Dts(pts, StreamMeasure(pts), 0))
  {
    hide MeasureOf, Sorted, Times, Dts;
    MeasureIsPlausible(pts[..SeenAt(|pts|, 0)]);
    FirstDts(pts, StreamMeasure(pts));
  }

  /** So the demuxer's clamp to zero never acts: the whole run keeps its decode times. */
  lemma {:induction false} ShiftedNotNegative(pts: seq<time>, offset: int, n: nat)
    requires n < |pts| && offset >= ShiftOf(StreamMeasure(pts))
    ensures Max(Dts(pts, StreamMeasure(pts), n) + offset, 0) == Dts(pts, StreamMeasure(pts), n) + offset
  {
    hide StreamMeasure, Dts, ShiftOf;
    ShiftIsLeast(pts);
    NeverBackwards(pts, StreamMeasure(pts), 0, n);
  }

  // ---------------------------------------------------------------------------
  // The window against the sorted stream
  // ---------------------------------------------------------------------------

  /** No frame is shown before its place on the timeline. */
  ghost predicate Reachable(pts: seq<int>, m: Measured) {
    forall n: nat | n < |pts| :: Timeline(pts, m, n) <= pts[n]
  }

  /** By the time place k is due, more than k of the entries up to its time have been pushed. */
  lemma {:induction false} PushedInTime(pts: seq<int>, m: Measured, n: nat, seen: nat)
    requires Reachable(pts, m) && m.delay <= n < |pts| && n < seen <= |pts|
    ensures CountUpTo(pts[..seen], Sorted(pts)[n - m.delay]) > n - m.delay
  {
    hide CountUpTo, Sorted;
    var v := Sorted(pts)[n - m.delay];
    var c := CountUpTo(pts, v);
    OrderStatistic(pts, n - m.delay, v);
    forall i | n + 1 <= i < |pts| && pts[i] <= v
      ensures i < c + m.delay
    {
      assert Timeline(pts, m, i) <= pts[i];
      OrderStatistic(pts, i - m.delay, v);
    }
    CountTail(pts, n + 1, c + m.delay, v);
    PrefixCounts(pts, n + 1, v);
    assert pts[..seen][..n + 1] == pts[..n + 1];
    PrefixCounts(pts[..seen], n + 1, v);
  }

  lemma {:induction false} PrefixCounts(s: seq<int>, n: nat, v: int)
    requires n <= |s|
    ensures CountUpTo(s, v) == CountUpTo(s[..n], v) + CountUpTo(s[n..], v)
  {
    assert s == s[..n] + s[n..];
    CountUpToSplit(s[..n], s[n..], v);
  }

  /** Taking the k smallest entries off part of a stream that holds more than k up to the next leaves that one first. */
  lemma {:induction false} NextOffHeap(all: seq<int>, pushed: seq<int>, k: nat)
    requires k < |all| && multiset(pushed) <= multiset(all)
    requires CountUpTo(pushed, Sorted(all)[k]) > k
    ensures MinOf(multiset(pushed) - multiset(Sorted(all)[..k])) == Sorted(all)[k]
  {
    var order, v := Sorted(all), Sorted(all)[k];
    var gone := order[..k];
    var held := multiset(pushed) - multiset(gone);
    SortedAscends(all);
    forall y | y in held
      ensures y >= v
    {
      RestIsLater(order, k, y, multiset(pushed));
    }
    if !exists y :: y in held && y <= v {
      forall x | x <= v
        ensures multiset(pushed)[x] <= multiset(gone)[x]
      {
        assert x !in held;
      }
      assert NoMoreUpTo(multiset(pushed), multiset(gone), v);
      CountUpToMonotone(pushed, gone, v);
    }
    var y :| y in held && y <= v;
    assert held != multiset{};
  }

  lemma {:induction false} RestIsLater(order: seq<int>, k: nat, y: int, pushed: multiset<int>)
    requires k < |order| && Ascending(order) && pushed <= multiset(order)
    requires y in pushed - multiset(order[..k])
    ensures order[k] <= y
  {
    assert order == order[..k] + order[k..];
    assert y in multiset(order[k..]);
    var i :| 0 <= i < |order[k..]| && order[k..][i] == y;
  }

  lemma {:induction false} TakeMore(order: seq<int>, k: nat)
    requires k < |order|
    ensures multiset(order[..k + 1]) == multiset(order[..k]) + multiset{order[k]}
  {
    assert order[..k + 1] == order[..k] + [order[k]];
  }

  lemma {:induction false} PushedPart(pts: seq<int>, n: nat)
    requires n <= |pts|
    ensures multiset(pts[..n]) <= multiset(pts)
  {
    assert pts == pts[..n] + pts[n..];
  }

  /** What has been taken off the heap are the smallest presentation times of the whole stream. */
  lemma {:induction false} PoppedAreSmallest(pts: seq<int>, m: Measured, n: nat)
    requires Reachable(pts, m) && n <= |pts|
    ensures Popped(pts, m, n) == multiset(Sorted(pts)[..Max(0, n - m.delay)])
  {
    hide Sorted, Held, Reachable, Popped, MinOf;
    PoppedStep(pts, m, n);
    if n > 0 {
      PoppedAreSmallest(pts, m, n - 1);
      if n - 1 >= m.delay {
        HeapTop(pts, m, n - 1);
        TakeMore(Sorted(pts), n - 1 - m.delay);
      }
    }
  }

  lemma {:induction false} PoppedStep(pts: seq<int>, m: Measured, n: nat)
    requires n <= |pts|
    ensures n == 0 ==> Popped(pts, m, n) == multiset{}
    ensures 0 < n <= m.delay ==> Popped(pts, m, n) == Popped(pts, m, n - 1)
    ensures n > m.delay ==> Popped(pts, m, n) == Popped(pts, m, n - 1) + multiset{MinOf(Held(pts, m, n - 1))}
  {
    hide MinOf, Held;
  }

  lemma {:induction false} HeapTop(pts: seq<int>, m: Measured, n: nat)
    requires Reachable(pts, m) && m.delay <= n < |pts|
    requires Popped(pts, m, n) == multiset(Sorted(pts)[..n - m.delay])
    ensures MinOf(Held(pts, m, n)) == Sorted(pts)[n - m.delay]
  {
    hide Popped, Sorted, Reachable;
    var seen := SeenAt(|pts|, n);
    PushedInTime(pts, m, n, seen);
    PushedPart(pts, seen);
    NextOffHeap(pts, pts[..seen], n - m.delay);
  }

  /** The heap of a few frames already holds the earliest time of the stream. */
  lemma {:induction false} HeadTop(pts: seq<int>, m: Measured, n: nat)
    requires Reachable(pts, m) && Plausible(m) && n < m.delay < |pts|
    requires Popped(pts, m, n) == multiset{}
    ensures MinOf(Held(pts, m, n)) == Sorted(pts)[0]
  {
    hide Popped, Sorted, Reachable;
    var seen := SeenAt(|pts|, n);
    PushedInTime(pts, m, m.delay, seen);
    PushedPart(pts, seen);
    NextOffHeap(pts, pts[..seen], 0);
    assert Sorted(pts)[..0] == [];
  }

  /** Where the timeline is reachable, every value proposed for a decode time lies on it. */
  lemma {:induction false} RawIsTimeline(pts: seq<int>, m: Measured, n: nat)
    requires Reachable(pts, m) && Plausible(m) && n < |pts| && m.delay < |pts|
    ensures Raw(pts, m, n) == Timeline(pts, m, n)
  {
    hide Popped, Sorted, Reachable, Held;
    PoppedAreSmallest(pts, m, n);
    if n < m.delay {
      assert Sorted(pts)[..0] == [];
      HeadTop(pts, m, n);
    } else {
      HeapTop(pts, m, n);
    }
  }

  lemma {:induction false} TimelineAscends(pts: seq<int>, m: Measured, n: nat)
    requires Plausible(m) && 0 < n < |pts|
    ensures Timeline(pts, m, n - 1) <= Timeline(pts, m, n)
  {
    SortedAscends(pts);
    hide Sorted, Times;
    if n < m.delay {
      TimesMonotone(m.delay - n, m.delay - n + 1, m.step);
    } else if n == m.delay {
      TimesMonotone(0, 1, m.step);
      assert Times(0, m.step) == 0 by { TimesZero(m.step); }
    }
  }

  /** Every frame decodes at its place on the timeline and never after it is shown. */
  ghost predicate OnTimeline(pts: seq<int>, m: Measured) {
    forall n: nat | n < |pts| :: Dts(pts, m, n) == Timeline(pts, m, n) <= pts[n]
  }

  /** Where two places of the timeline fall together, the later frame is shown right there. */
  ghost predicate NoTieWithRoom(pts: seq<int>, m: Measured) {
    forall n: nat | 0 < n < |pts| :: Timeline(pts, m, n - 1) == Timeline(pts, m, n) ==> pts[n] == Timeline(pts, m, n)
  }

  lemma {:induction false} OnTimelineFrom(pts: seq<int>, m: Measured, n: nat)
    requires Reachable(pts, m) && NoTieWithRoom(pts, m) && Plausible(m) && n < |pts| && m.delay < |pts|
    ensures Dts(pts, m, n) == Timeline(pts, m, n)
  {
    RawIsTimeline(pts, m, n);
    assert Timeline(pts, m, n) <= pts[n];
    hide Raw, Timeline;
    if n > 0 {
      OnTimelineFrom(pts, m, n - 1);
      TimelineAscends(pts, m, n);
    }
  }

  lemma {:induction false} NoTieFrom(pts: seq<int>, m: Measured, n: nat)
    requires OnTimeline(pts, m) && Reachable(pts, m) && Plausible(m) && 0 < n < |pts| && m.delay < |pts|
    requires Timeline(pts, m, n - 1) == Timeline(pts, m, n)
    ensures pts[n] == Timeline(pts, m, n)
  {
    RawIsTimeline(pts, m, n);
    hide Raw, Timeline, Reachable;
    assert Dts(pts, m, n) == Timeline(pts, m, n) <= pts[n];
    assert Dts(pts, m, n - 1) == Timeline(pts, m, n - 1);
  }

  /**
   * The decode times are the sorted presentation times, `delay` frames late, exactly when
   * no frame is shown before its place there and no two places that coincide leave room
   * to spread them.
   */
  lemma {:induction false} OnTimelineIff(pts: seq<int>, m: Measured)
    requires Plausible(m) && m.delay < |pts|
    ensures OnTimeline(pts, m) <==> Reachable(pts, m) && NoTieWithRoom(pts, m)
  {
    hide Timeline, Dts;
    if OnTimeline(pts, m) {
      assert Reachable(pts, m) by {
        forall n: nat | n < |pts|
          ensures Timeline(pts, m, n) <= pts[n]
        {
          assert Dts(pts, m, n) == Timeline(pts, m, n) <= pts[n];
        }
      }
      forall n: nat | 0 < n < |pts| && Timeline(pts, m, n - 1) == Timeline(pts, m, n)
        ensures pts[n] == Timeline(pts, m, n)
      {
        NoTieFrom(pts, m, n);
      }
    } else if Reachable(pts, m) && NoTieWithRoom(pts, m) {
      forall n: nat | n < |pts|
        ensures Dts(pts, m, n) == Timeline(pts, m, n) <= pts[n]
      {
        OnTimelineFrom(pts, m, n);
        assert Timeline(pts, m, n) <= pts[n];
      }
    }
  }

  // ---------------------------------------------------------------------------
  // Distinct presentation times
  // ---------------------------------------------------------------------------

  lemma {:induction false} CountsAgree(pts: seq<int>, v: int)
    ensures EsOrder.CountAfter(KeysFor(pts), EsOrder.Key(0, v)) == |pts| - CountUpTo(pts, v)
    ensures EsOrder.CountBefore(KeysFor(pts), EsOrder.Key(0, v)) == CountUpTo(pts, v - 1)
  {
    if pts != [] {
      var n := |pts| - 1;
      CountsAgree(pts[..n], v);
      assert KeysFor(pts)[..n] == KeysFor(pts[..n]);
    }
  }

  /** Frame i holds the presentation time of its rank. */
  lemma {:induction false} SortedAtRank(pts: seq<int>, i: nat)
    requires i < |pts|
    ensures Rank(pts, i) < |pts| && Sorted(pts)[Rank(pts, i)] == pts[i]
  {
    hide CountUpTo, EsOrder.Rank, Sorted;
    var keys, v := KeysFor(pts), pts[i];
    EsOrder.RankCounts(keys, i);
    EsOrder.RankBounded(keys, i);
    assert keys[..i] == KeysFor(pts[..i]) && keys[i + 1..] == KeysFor(pts[i + 1..]);
    CountsAgree(pts[..i], v);
    CountsAgree(pts[i + 1..], v);
    Around(pts, i, v);
    Around(pts, i, v - 1);
    CountUpToLess(pts[..i], v - 1);
    CountUpToLess(pts[i + 1..], v - 1);
    OrderStatistic(pts, Rank(pts, i), v);
    OrderStatistic(pts, Rank(pts, i), v - 1);
  }

  lemma {:induction false} Around(s: seq<int>, i: nat, v: int)
    requires i < |s|
    ensures CountUpTo(s, v) == CountUpTo(s[..i], v) + (if s[i] <= v then 1 else 0) + CountUpTo(s[i + 1..], v)
  {
    CountUpToWithout(s, i, v);
    CountUpToSplit(s[..i], s[i + 1..], v);
  }

  lemma {:induction false} CountUpToLess(s: seq<int>, v: int)
    ensures CountUpTo(s, v) <= CountUpTo(s, v + 1)
  {
    if s != [] {
      CountUpToLess(s[..|s| - 1], v);
    }
  }

  /** No frame is decoded later than its presentation rank by more than the delay. */
  ghost predicate WithinDelay(pts: seq<int>, m: Measured) {
    forall i: nat | i < |pts| :: i <= Rank(pts, i) + m.delay
  }

  predicate Distinct(s: seq<int>) {
    forall i, j :: 0 <= i < j < |s| ==> s[i] != s[j]
  }

  /** A stream no deeper than measured keeps to its timeline's order. */
  lemma {:induction false} WithinDelayReaches(pts: seq<int>, m: Measured)
    requires Plausible(m) && WithinDelay(pts, m)
    ensures Reachable(pts, m)
  {
    hide Sorted, Rank, Times;
    SortedAscends(pts);
    forall n: nat | n < |pts|
      ensures Timeline(pts, m, n) <= pts[n]
    {
      SortedAtRank(pts, n);
      assert n <= Rank(pts, n) + m.delay;
      if n < m.delay {
        TimesZero(m.step);
        TimesMonotone(0, m.delay - n, m.step);
      }
    }
  }

  lemma {:induction false} DistinctSorted(pts: seq<int>, k: nat)
    requires Distinct(pts) && 0 < k < |pts|
    ensures Sorted(pts)[k - 1] < Sorted(pts)[k]
  {
    hide Sorted, EsOrder.Rank;
    SortedAscends(pts);
    EsOrder.RanksPermute(KeysFor(pts), k - 1);
    EsOrder.RanksPermute(KeysFor(pts), k);
    var i: nat :| i < |pts| && EsOrder.Rank(KeysFor(pts), i) == k - 1;
    var j: nat :| j < |pts| && EsOrder.Rank(KeysFor(pts), j) == k;
    SortedAtRank(pts, i);
    SortedAtRank(pts, j);
  }

  lemma {:induction false} DistinctGap(pts: seq<int>, a: nat, b: nat)
    requires Distinct(pts) && a <= b < |pts|
    ensures Sorted(pts)[b] - Sorted(pts)[a] >= b - a
  {
    hide Sorted;
    if a < b {
      DistinctGap(pts, a, b - 1);
      DistinctSorted(pts, b);
    }
  }

  lemma {:induction false} PerStepPositive(total: int, n: int)
    requires 0 < n <= total
    ensures PerStep(total, n) >= 1
  {
    assert total == (total / n) * n + total % n;
  }

  lemma {:induction false} DistinctStep(window: seq<int>)
    requires Distinct(window) && |window| > 1
    ensures MeasureOf(window).step >= 1
  {
    hide Sorted;
    DistinctGap(window, 0, |window| - 1);
    PerStepPositive(Sorted(window)[|window| - 1] - Sorted(window)[0], |window| - 1);
  }

  lemma {:induction false} DistinctNoTie(pts: seq<int>, m: Measured, n: nat)
    requires Distinct(pts) && Plausible(m) && 0 < n < |pts| && (m.delay > 0 ==> m.step >= 1)
    ensures Timeline(pts, m, n - 1) < Timeline(pts, m, n)
  {
    hide Sorted, Times;
    if n < m.delay {
      TimesStep(m.delay - n, m.step);
    } else if n == m.delay {
      TimesZero(m.step);
    } else {
      DistinctSorted(pts, n - m.delay);
    }
  }

  lemma {:induction false} DistinctNoTies(pts: seq<int>, m: Measured)
    requires Distinct(pts) && Plausible(m) && (m.delay > 0 ==> m.step >= 1)
    ensures NoTieWithRoom(pts, m)
  {
    hide Timeline;
    forall n: nat | 0 < n < |pts|
      ensures Timeline(pts, m, n - 1) != Timeline(pts, m, n)
    {
      DistinctNoTie(pts, m, n);
    }
  }

  lemma {:induction false} DistinctReachesWithin(pts: seq<int>, m: Measured, i: nat)
    requires Distinct(pts) && Reachable(pts, m) && i < |pts|
    ensures i <= Rank(pts, i) + m.delay
  {
    hide Sorted, Rank;
    SortedAtRank(pts, i);
    assert Timeline(pts, m, i) <= pts[i];
    if i > Rank(pts, i) + m.delay {
      DistinctGap(pts, Rank(pts, i), i - m.delay);
    }
  }

  /**
   * With distinct presentation times, the n-th frame decodes at the (n - delay)-th
   * smallest of them, never after it is shown, exactly when no frame is reordered
   * deeper than the first window was.
   */
  lemma {:induction false} DistinctOnTimelineIff(pts: seq<int>)
    requires pts != [] && Distinct(pts)
    ensures OnTimeline(pts, StreamMeasure(pts)) <==> WithinDelay(pts, StreamMeasure(pts))
  {
    hide MeasureOf, OnTimeline, NoTieWithRoom, Timeline, Reachable, Rank;
    var m := StreamMeasure(pts);
    var first := pts[..SeenAt(|pts|, 0)];
    MeasureIsPlausible(first);
    OnTimelineIff(pts, m);
    if m.delay > 0 {
      DistinctStep(first);
    }
    DistinctNoTies(pts, m);
    if Reachable(pts, m) {
      forall i: nat | i < |pts|
        ensures i <= Rank(pts, i) + m.delay
      {
        DistinctReachesWithin(pts, m, i);
      }
    } else if WithinDelay(pts, m) {
      WithinDelayReaches(pts, m);
    }
  }

  // ---------------------------------------------------------------------------
  // Decode times against presentation times
  // ---------------------------------------------------------------------------

  ghost predicate NeverLate(pts: seq<int>, m: Measured) {
    forall n: nat | n < |pts| :: Dts(pts, m, n) <= pts[n]
  }

  /**
   * A time proposed for frame j, moved one tick up for each later frame, is at most v by frame i,
   * or a frame in between is shown so early that spreading the times up from it stays below v.
   */
  predicate Spreads(proposed: int, pts: seq<int>, j: nat, i: nat, v: int)
    requires j <= i < |pts|
  {
    proposed + (i - j) <= v || exists k :: j <= k <= i && pts[k] + (i - k) <= v
  }

  lemma {:induction false} SpreadsStep(proposed: int, pts: seq<int>, j: nat, i: nat, v: int)
    requires j < i < |pts|
    ensures Spreads(proposed, pts, j, i, v) <==> pts[i] <= v || Spreads(proposed, pts, j, i - 1, v - 1)
  {
    if Spreads(proposed, pts, j, i - 1, v - 1) && !(proposed + (i - j) <= v) {
      var k :| j <= k <= i - 1 && pts[k] + (i - 1 - k) <= v - 1;
      assert pts[k] + (i - k) <= v;
    }
    if pts[i] <= v {
      assert pts[i] + (i - i) <= v;
    }
    if Spreads(proposed, pts, j, i, v) && !(proposed + (i - j) <= v) && !(pts[i] <= v) {
      var k :| j <= k <= i && pts[k] + (i - k) <= v;
      assert pts[k] + (i - 1 - k) <= v - 1;
    }
  }

  /** Every time proposed up to frame i spreads below v. */
  ghost predicate AllSpread(pts: seq<int>, m: Measured, i: nat, v: int)
    requires i < |pts|
  {
    forall j: nat | j <= i :: Spreads(Raw(pts, m, j), pts, j, i, v)
  }

  lemma {:induction false} AllSpreadStep(pts: seq<int>, m: Measured, i: nat, v: int)
    requires 0 < i < |pts|
    ensures AllSpread(pts, m, i, v) <==> pts[i] <= v || (Raw(pts, m, i) <= v && AllSpread(pts, m, i - 1, v - 1))
  {
    hide Raw, Spreads;
    forall j: nat | j < i
      ensures Spreads(Raw(pts, m, j), pts, j, i, v) <==> pts[i] <= v || Spreads(Raw(pts, m, j), pts, j, i - 1, v - 1)
    {
      SpreadsStep(Raw(pts, m, j), pts, j, i, v);
    }
    SpreadsHere(Raw(pts, m, i), pts, i, v);
  }

  lemma {:induction false} SpreadsHere(proposed: int, pts: seq<int>, i: nat, v: int)
    requires i < |pts|
    ensures Spreads(proposed, pts, i, i, v) <==> proposed <= v || pts[i] <= v
  {
    if pts[i] <= v {
      assert pts[i] + (i - i) <= v;
    }
  }

  /** Up to the first late frame a decode time is the largest of what was proposed, spread, and no later than it may be. */
  lemma {:induction false} DtsSpreads(pts: seq<int>, m: Measured, i: nat, v: int)
    requires i < |pts|
    requires forall n: nat | n <= i :: Dts(pts, m, n) <= pts[n]
    ensures Dts(pts, m, i) <= v <==> AllSpread(pts, m, i, v)
  {
    hide Raw, Spreads;
    assert Dts(pts, m, i) <= pts[i];
    if i == 0 {
      SpreadsHere(Raw(pts, m, 0), pts, 0, v);
    } else {
      AllSpreadStep(pts, m, i, v);
      DtsSpreads(pts, m, i - 1, v - 1);
      assert Dts(pts, m, i - 1) <= pts[i - 1];
      hide AllSpread;
    }
  }

  /** Only a time already given out can make a frame late. */
  lemma {:induction false} LateIff(pts: seq<int>, m: Measured, n: nat)
    requires n < |pts|
    ensures Dts(pts, m, n) <= pts[n] <==> n == 0 || Dts(pts, m, n - 1) <= pts[n]
  {
    hide Raw;
  }

  lemma {:induction false} NeverLateUpTo(pts: seq<int>, m: Measured, n: nat)
    requires n <= |pts|
    requires forall i: nat | 0 < i < n :: AllSpread(pts, m, i - 1, pts[i])
    ensures forall i: nat | i < n :: Dts(pts, m, i) <= pts[i]
  {
    hide Dts, AllSpread;
    if n > 0 {
      NeverLateUpTo(pts, m, n - 1);
      LateIff(pts, m, n - 1);
      if n > 1 {
        DtsSpreads(pts, m, n - 2, pts[n - 1]);
        assert AllSpread(pts, m, n - 1 - 1, pts[n - 1]);
      }
    }
  }

  /**
   * No decode time passes its presentation time exactly when every time proposed for an earlier
   * frame leaves room for one tick per frame in between, or a frame in between is itself shown
   * early enough to hold the times back.
   */
  lemma {:induction false} NeverLateIff(pts: seq<int>, m: Measured)
    ensures NeverLate(pts, m) <==>
      forall j: nat, n: nat | j < n < |pts| :: Spreads(Raw(pts, m, j), pts, j, n - 1, pts[n])
  {
    hide Raw, Spreads, Dts;
    if forall j: nat, n: nat | j < n < |pts| :: Spreads(Raw(pts, m, j), pts, j, n - 1, pts[n]) {
      forall i: nat | 0 < i < |pts|
        ensures AllSpread(pts, m, i - 1, pts[i])
      {
        forall j: nat | j <= i - 1
          ensures Spreads(Raw(pts, m, j), pts, j, i - 1, pts[i])
        {
        }
      }
      NeverLateUpTo(pts, m, |pts|);
    } else if NeverLate(pts, m) {
      forall j: nat, n: nat | j < n < |pts|
        ensures Spreads(Raw(pts, m, j), pts, j, n - 1, pts[n])
      {
        LateIff(pts, m, n);
        DtsSpreads(pts, m, n - 1, pts[n]);
      }
    }
  }

  /** Where no frame is reordered deeper than measured, the condition is one on the sorted presentation times alone. */
  lemma {:induction false} NeverLateWithinDelay(pts: seq<int>, m: Measured)
    requires Plausible(m) && m.delay < |pts| && WithinDelay(pts, m)
    ensures NeverLate(pts, m) <==>
      forall j: nat, n: nat | j < n < |pts| :: Spreads(Timeline(pts, m, j), pts, j, n - 1, pts[n])
  {
    hide Raw, Timeline, Spreads, NeverLate, Reachable, WithinDelay;
    NeverLateIff(pts, m);
    WithinDelayReaches(pts, m);
    forall j: nat | j < |pts|
      ensures Raw(pts, m, j) == Timeline(pts, m, j)
    {
      RawIsTimeline(pts, m, j);
    }
  }

  /** Distinct presentation times, reordered no deeper than measured, are never decoded late. */
  lemma {:induction false} DistinctNeverLate(pts: seq<int>)
    requires pts != [] && Distinct(pts) && WithinDelay(pts, StreamMeasure(pts))
    ensures NeverLate(pts, StreamMeasure(pts))
  {
    hide WithinDelay, Timeline, Dts, StreamMeasure, Distinct;
    DistinctOnTimelineIff(pts);
  }

  /** Moved by the offset, no decode time of the run is below zero. */
  ghost predicate NotNegative(pts: seq<int>, m: Measured, offset: int) {
    forall n: nat | n < |pts| :: Dts(pts, m, n) + offset >= 0
  }

  lemma {:induction false} NotNegativeIff(pts: seq<int>, m: Measured, offset: int)
    requires pts != []
    ensures NotNegative(pts, m, offset) <==> Dts(pts, m, 0) + offset >= 0
  {
    hide Dts;
    forall i: nat | i < |pts|
      ensures Dts(pts, m, 0) <= Dts(pts, m, i)
    {
      NeverBackwards(pts, m, 0, i);
    }
  }

  /** The earliest frame of the first window. */
  function Earliest(pts: seq<int>): int
    requires pts != []
  {
    Sorted(pts[..SeenAt(|pts|, 0)])[0]
  }

  lemma {:induction false} MeasuredPlausible(pts: seq<int>, settled: nat)
    requires pts != []
    ensures Plausible(MeasuredAt(pts, settled))
  {
    hide MeasureOf;
    MeasureIsPlausible(pts[..if 0 < settled < SeenAt(|pts|, 0) then settled else SeenAt(|pts|, 0)]);
  }

  /**
   * Whatever offset the file is given and whenever it is settled, a track keeps all its decode
   * times at zero or later exactly when its earliest frame and the offset cover the measured head
   * start.
   */
  lemma {:induction false} CoveredIff(pts: seq<time>, settled: nat, offset: int)
    requires pts != []
    ensures var m := MeasuredAt(pts, settled);
      NotNegative(pts, m, offset) <==> Times(m.delay, m.step) <= Earliest(pts) + offset
  {
    hide Sorted, Times, MeasuredAt, Dts, NotNegative;
    var m := MeasuredAt(pts, settled);
    MeasuredPlausible(pts, settled);
    FirstDts(pts, m);
    NotNegativeIff(pts, m, offset);
  }

  /**
   * With the move the track itself asks for: measured early, that holds exactly when no earlier
   * frame turns up later in its window, or the earliest frame covers the head start unmoved; with
   * no frame read by then, exactly when the earliest frame covers it.
   */
  lemma {:induction false} EarlyMeasureIff(pts: seq<time>, settled: nat)
    requires pts != []
    ensures var m := MeasuredAt(pts, settled);
      NotNegative(pts, m, AskedAt(pts, settled))
      <==> (settled > 0 && m.minPts == Earliest(pts)) || Times(m.delay, m.step) <= Earliest(pts)
  {
    hide Times, MeasuredAt, NotNegative, Earliest;
    CoveredIff(pts, settled, AskedAt(pts, settled));
    EarliestMeasured(pts, settled);
  }

  lemma {:induction false} EarliestMeasured(pts: seq<time>, settled: nat)
    requires pts != []
    ensures 0 <= Earliest(pts) <= MeasuredAt(pts, settled).minPts
  {
    hide Sorted, MeasureOf;
    var n := SeenAt(|pts|, 0);
    var k := if 0 < settled < n then settled else n;
    MeasureIsPlausible(pts[..k]);
    MinOfSorted(pts[..n]);
    MinOfSorted(pts[..k]);
    EarlierInLonger(pts, k, n);
    EarliestNotNegative(pts, n);
  }

  lemma {:induction false} EarliestNotNegative(pts: seq<time>, n: nat)
    requires 0 < n <= |pts|
    ensures MinOf(multiset(pts[..n])) >= 0
  {
    var held := multiset(pts[..n]);
    assert pts[..n][0] in held;
    var x := MinOf(held);
    assert x in held && x in pts[..n];
  }

  lemma {:induction false} EarlierInLonger(pts: seq<int>, k: nat, n: nat)
    requires 0 < k <= n <= |pts|
    ensures MinOf(multiset(pts[..n])) <= MinOf(multiset(pts[..k]))
  {
    assert pts[..n] == pts[..k] + pts[k..n];
    assert pts[..k][0] in multiset(pts[..k]);
    assert MinOf(multiset(pts[..k])) in multiset(pts[..n]);
  }

  /** Three frames, each decoded before the one shown ahead of it; the offset is settled after two. */
  const DESCENDING: seq<time> := [100, 60, 20]

  lemma {:induction false} DescendingMeasure()
    ensures MeasureOf(DESCENDING[..2]) == Measured(1, 40, 60)
  {
    var window := DESCENDING[..2];
    var keys := KeysFor(window);
    assert window == [100, 60];
    EsOrder.RankCounts(keys, 1);
    EsOrder.RankCounts(keys, 0);
    assert keys[..1] == [EsOrder.Key(0, 100)];
    assert keys[1..] == [EsOrder.Key(0, 60)];
    MostBehindSmall(window, 1);
    assert Rank(window, 1) == 0;
    assert Sorted(window) == [60, 100] by {
      assert window[..1] == [100];
      assert Sorted([100]) == [100];
    }
    assert PerStep(40, 1) == 40;
  }

  lemma {:induction false} DescendingMin()
    ensures MinOf(multiset(DESCENDING)) == 20
  {
    var held := multiset(DESCENDING);
    assert held == multiset{100, 60, 20};
    assert 20 in held && forall y :: y in held ==> 20 <= y;
    assert held != multiset{};
  }

  /** Such a track does start below zero: its shift is nothing, and its first decode time is negative. */
  lemma {:induction false} EarlyStartsBelow()
    ensures var m := MeasureOf(DESCENDING[..2]);
      ShiftOf(m) == 0 && Dts(DESCENDING, m, 0) == -20
  {
    hide MeasureOf;
    DescendingMeasure();
    DescendingMin();
    var m := Measured(1, 40, 60);
    assert Times(1, 40) == 40;
    assert DESCENDING[..3] == DESCENDING;
    assert Held(DESCENDING, m, 0) == multiset(DESCENDING);
  }

  /** A picture shown after the one decoded behind it; the offset is settled before any of the three is read. */
  const UNREAD: seq<time> := [0, 80, 40]

  lemma {:induction false} UnreadMeasure()
    ensures MeasuredAt(UNREAD, 0) == Measured(1, 40, 0)
  {
    var keys := KeysFor(UNREAD);
    assert UNREAD[..3] == UNREAD;
    EsOrder.RankCounts(keys, 2);
    EsOrder.RankCounts(keys, 1);
    assert keys[..2] == [EsOrder.Key(0, 0), EsOrder.Key(0, 80)] && keys[..2][..1] == [EsOrder.Key(0, 0)];
    assert keys[..1] == [EsOrder.Key(0, 0)] && keys[2..] == [EsOrder.Key(0, 40)] && keys[3..] == [];
    assert keys[2..][..0] == [];
    assert Rank(UNREAD, 2) == 1;
    MostBehindSmall(UNREAD, 2);
    assert Sorted(UNREAD) == [0, 40, 80] by {
      assert UNREAD[..2] == [0, 80] && UNREAD[..2][..1] == [0];
      assert Sorted([0]) == [0];
      assert Sorted([0, 80]) == [0, 80];
    }
    assert PerStep(80, 2) == 40;
  }

  lemma {:induction false} UnreadMin()
    ensures MinOf(multiset(UNREAD)) == 0
  {
    var held := multiset(UNREAD);
    assert held == multiset{0, 80, 40};
    assert 0 in held && forall y :: y in held ==> 0 <= y;
    assert held != multiset{};
  }

  /** A track that asked for nothing because it had not been read starts below zero, with its earliest frame measured. */
  lemma {:induction false} UnreadStartsBelow()
    ensures var m := MeasuredAt(UNREAD, 0);
      AskedAt(UNREAD, 0) == 0 && m.minPts == 0 && Dts(UNREAD, m, 0) == -40
  {
    hide MeasuredAt;
    UnreadMeasure();
    UnreadMin();
    var m := Measured(1, 40, 0);
    assert Times(1, 40) == 40;
    assert UNREAD[..3] == UNREAD;
    assert Held(UNREAD, m, 0) == multiset(UNREAD);
  }

  /** Two frames shown together before the one decoded last. */
  const TIED: seq<time> := [1, 1, 0]

  lemma {:induction false} TiedMeasure()
    ensures StreamMeasure(TIED) == Measured(2, 0, 0)
  {
    var keys := KeysFor(TIED);
    assert TIED[..3] == TIED;
    EsOrder.RankCounts(keys, 2);
    MostBehindSmall(TIED, 3);
    assert Sorted(TIED) == [0, 1, 1] by {
      assert TIED[..2] == [1, 1] && TIED[..2][..1] == [1];
      assert Sorted([1]) == [1];
      assert Sorted([1, 1]) == [1, 1];
    }
    assert keys[..2] == [EsOrder.Key(0, 1), EsOrder.Key(0, 1)];
    assert keys[..2][..1] == [EsOrder.Key(0, 1)];
    assert Rank(TIED, 2) == 0;
    assert PerStep(1, 2) == 0;
  }

  lemma {:induction false} TiedRaw(n: nat)
    requires n < 3
    ensures Raw(TIED, Measured(2, 0, 0), n) == 0
  {
    var m := Measured(2, 0, 0);
    assert TIED[..3] == TIED;
    assert Popped(TIED, m, n) == multiset{};
    hide Popped;
    var held := multiset(TIED);
    assert held == multiset{1, 1, 0};
    assert Held(TIED, m, n) == held;
    assert 0 in held && forall y :: y in held ==> 0 <= y;
    assert held != multiset{};
  }

  /** Tied presentation times do break the promise: the last frame decodes after it is shown. */
  lemma {:induction false} TiedDecodesLate()
    ensures WithinDelay(TIED, StreamMeasure(TIED))
    ensures Dts(TIED, StreamMeasure(TIED), 2) > TIED[2]
  {
    hide StreamMeasure, Rank, Raw;
    TiedMeasure();
    TiedRaw(0);
    TiedRaw(1);
    TiedRaw(2);
    var m := Measured(2, 0, 0);
    assert Dts(TIED, m, 0) == 0;
    assert Dts(TIED, m, 1) == 1;
  }

  // ---------------------------------------------------------------------------
  // The stable sort of the first window
  // ---------------------------------------------------------------------------

  ghost predicate StablyOrders(pts: seq<int>, order: seq<nat>, n: nat)
    requires n <= |pts|
  {
    && |order| == n
    && (forall r :: 0 <= r < n ==> order[r] < n)
    && (forall r, s :: 0 <= r < s < n ==> EsOrder.Precedes(KeysFor(pts), order[r], order[s]))
  }

  /** Insertion sort; any stable sort gives this order. */
  method StableOrder(pts: seq<int>) returns (order: seq<nat>)
    ensures StablyOrders(pts, order, |pts|)
  {
    order := [];
    for i := 0 to |pts|
      invariant StablyOrders(pts, order, i)
    {
      var j := i;
      while j > 0 && pts[order[j - 1]] > pts[i]
        invariant 0 <= j <= i
        invariant forall r :: j <= r < i ==> pts[order[r]] > pts[i]
      {
        j := j - 1;
      }
      InsertedOrders(pts, order, i, j);
      order := order[..j] + [i] + order[j..];
    }
  }

  lemma {:induction false} InsertedOrders(pts: seq<int>, order: seq<nat>, i: nat, j: nat)
    requires i < |pts| && j <= i && StablyOrders(pts, order, i)
    requires forall r :: j <= r < i ==> pts[order[r]] > pts[i]
    requires j > 0 ==> pts[order[j - 1]] <= pts[i]
    ensures StablyOrders(pts, order[..j] + [i] + order[j..], i + 1)
  {
    var next := order[..j] + [i] + order[j..];
    hide Rank, Sorted;
    forall r, s | 0 <= r < s < i + 1
      ensures EsOrder.Precedes(KeysFor(pts), next[r], next[s])
    {
      var r' := if r < j then r else r - 1;
      var s' := if s < j then s else s - 1;
      if r == j {
        assert next[s] == order[s'];
      } else if s == j {
        if r < j - 1 {
          assert EsOrder.Precedes(KeysFor(pts), order[r], order[j - 1]);
        }
      } else {
        assert next[r] == order[r'] && next[s] == order[s'];
        assert EsOrder.Precedes(KeysFor(pts), order[r'], order[s']);
      }
    }
  }

  lemma {:induction false} RankAtLeast(pts: seq<int>, order: seq<nat>, r: nat)
    requires StablyOrders(pts, order, |pts|) && r < |pts|
    ensures r <= Rank(pts, order[r])
  {
    hide EsOrder.Rank, EsOrder.Precedes;
    if r > 0 {
      RankAtLeast(pts, order, r - 1);
      assert EsOrder.Precedes(KeysFor(pts), order[r - 1], order[r]);
      EsOrder.RankOrders(KeysFor(pts), order[r - 1], order[r]);
    }
  }

  lemma {:induction false} RankAtMost(pts: seq<int>, order: seq<nat>, r: nat)
    requires StablyOrders(pts, order, |pts|) && r < |pts|
    ensures Rank(pts, order[r]) <= r
    decreases |pts| - r
  {
    hide EsOrder.Rank, EsOrder.Precedes;
    if r == |pts| - 1 {
      EsOrder.RankBounded(KeysFor(pts), order[r]);
    } else {
      RankAtMost(pts, order, r + 1);
      assert EsOrder.Precedes(KeysFor(pts), order[r], order[r + 1]);
      EsOrder.RankOrders(KeysFor(pts), order[r], order[r + 1]);
    }
  }

  /** The stable order lists the frames by rank, and so by presentation time. */
  lemma {:induction false} OrderIsRank(pts: seq<int>, order: seq<nat>, r: nat)
    requires StablyOrders(pts, order, |pts|) && r < |pts|
    ensures Rank(pts, order[r]) == r && pts[order[r]] == Sorted(pts)[r]
  {
    hide EsOrder.Rank, Sorted;
    RankAtLeast(pts, order, r);
    RankAtMost(pts, order, r);
    SortedAtRank(pts, order[r]);
  }

  lemma {:induction false} BehindBound(window: seq<int>, n: nat, i: nat)
    requires i < n <= |window|
    ensures i - Rank(window, i) <= MostBehind(window, n)
  {
    hide Rank;
    if i < n - 1 {
      BehindBound(window, n - 1, i);
    }
  }

  lemma {:induction false} BehindLeast(window: seq<int>, order: seq<nat>, n: nat, bound: nat)
    requires n <= |window| && StablyOrders(window, order, |window|)
    requires forall r :: 0 <= r < |order| ==> order[r] - r <= bound
    ensures MostBehind(window, n) <= bound
  {
    hide Rank;
    if n > 0 {
      BehindLeast(window, order, n - 1, bound);
      SortedAtRank(window, n - 1);
      var r := Rank(window, n - 1);
      OrderIsRank(window, order, r);
      SameRank(window, order[r], n - 1);
      assert order[r] - r <= bound;
    }
  }

  lemma {:induction false} SameRank(pts: seq<int>, i: nat, j: nat)
    requires i < |pts| && j < |pts| && Rank(pts, i) == Rank(pts, j)
    ensures i == j
  {
    EsOrder.RankOrders(KeysFor(pts), i, j);
  }

  /** Depth, spacing and earliest time of a window, through its stable order. */
  method MeasureWindow(window: seq<int>) returns (delay: nat, step: int, minPts: int)
    requires window != []
    ensures Measured(delay, step, minPts) == MeasureOf(window)
  {
    hide Rank, Sorted, MostBehind, EsOrder.Precedes;
    var n := |window|;
    var order := StableOrder(window);
    delay := 0;
    for rank := 0 to n
      invariant delay <= MostBehind(window, n)
      invariant forall r :: 0 <= r < rank ==> order[r] - r <= delay
    {
      OrderIsRank(window, order, rank);
      BehindBound(window, n, order[rank]);
      delay := Max(delay, order[rank] - rank);
    }
    BehindLeast(window, order, n, delay);
    OrderIsRank(window, order, 0);
    OrderIsRank(window, order, n - 1);
    minPts := window[order[0]];
    step := 0;
    if n > 1 {
      step := PerStep(window[order[n - 1]] - minPts, n - 1);
    }
  }
}
