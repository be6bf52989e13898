/**
 * Placing pictures in presentation order with a window of bounded size, against their
 * rank among all the pictures of the stream.
 */
module EsOrder {
  import opened Bytes

  const LOOKAHEAD := 16

  /** Pictures sort by coded video sequence, then by picture order count. */
  datatype Key = Key(period: int, poc: int) {
    predicate Less(other: Key) {
      if period != other.period then period < other.period else poc < other.poc
    }
  }

  datatype Frame = Frame(data: bytes)

  datatype Picture = Picture(frame: Frame, key: Key)

  datatype OrderedFrame = OrderedFrame(frame: Frame, key: Key, dtsIndex: int, ptsIndex: int)

  function KeysOf(pictures: seq<Picture>): (keys: seq<Key>)
    ensures |keys| == |pictures|
    ensures forall i :: 0 <= i < |keys| ==> keys[i] == pictures[i].key
  {
    seq(|pictures|, i requires 0 <= i < |pictures| => pictures[i].key)
  }

  /** How many of the keys are shown after `key`, and how many before it. */
  function CountAfter(keys: seq<Key>, key: Key): (n: nat)
    ensures n <= |keys|
  {
    if keys == [] then 0
    else CountAfter(keys[..|keys| - 1], key) + if key.Less(keys[|keys| - 1]) then 1 else 0
  }

  function CountBefore(keys: seq<Key>, key: Key): (n: nat)
    ensures n <= |keys|
  {
    if keys == [] then 0
    else CountBefore(keys[..|keys| - 1], key) + if keys[|keys| - 1].Less(key) then 1 else 0
  }

  // ---------------------------------------------------------------------------
  // The rank among all pictures
  // ---------------------------------------------------------------------------

  /** Picture j is shown before picture i; equal keys keep their decode order. */
  predicate Precedes(keys: seq<Key>, j: nat, i: nat)
    requires j < |keys| && i < |keys|
  {
    keys[j].Less(keys[i]) || (!keys[i].Less(keys[j]) && j < i)
  }

  ghost function ShownBefore(keys: seq<Key>, i: nat): set<nat>
    requires i < |keys|
  {
    set j: nat | j < |keys| && Precedes(keys, j, i)
  }

  /** The place of picture i in presentation order. */
  ghost function Rank(keys: seq<Key>, i: nat): nat
    requires i < |keys|
  {
    |ShownBefore(keys, i)|
  }

  /** Two pictures shown in the opposite of their decode order, more than the window apart. */
  predicate FarInverted(keys: seq<Key>, j: nat, i: nat)
    requires j < |keys| && i < |keys|
  {
    j + LOOKAHEAD < i && keys[i].Less(keys[j])
  }

  ghost predicate NoneFarInverted(keys: seq<Key>) {
    forall j: nat, i: nat :: j < |keys| && i < |keys| ==> !FarInverted(keys, j, i)
  }

  // ---------------------------------------------------------------------------
  // The rank seen through the window
  // ---------------------------------------------------------------------------

  /** Frame i of the window, after `emitted` frames the last of which are in the history. */
  function WindowRank(history: seq<Key>, window: seq<Key>, emitted: int, i: nat): int
    requires i < |window|
  {
    emitted + i - CountAfter(history, window[i]) - CountAfter(window[..i], window[i])
    + CountBefore(window[i + 1..], window[i])
  }

  /** The last pictures emitted, of `emitted` in all. */
  function HistoryOf(keys: seq<Key>, emitted: nat): seq<Key>
    requires emitted <= |keys|
  {
    keys[Max(0, emitted - LOOKAHEAD)..emitted]
  }

  function SeenRank(keys: seq<Key>, emitted: nat): int
    requires emitted < |keys|
  {
    WindowRank(HistoryOf(keys, emitted), keys[emitted..], emitted, 0)
  }

  /** The most frames any of the first `n` is decoded ahead of its place. */
  function DelayOf(window: seq<Key>, n: nat): (delay: nat)
    requires n <= |window|
  {
    if n == 0 then 0 else Max(DelayOf(window, n - 1), n - 1 - WindowRank([], window, 0, n - 1))
  }

  /** How much of the stream has been pushed when picture e leaves. */
  function SeenAt(total: nat, e: nat): nat {
    if e + LOOKAHEAD + 1 < total then e + LOOKAHEAD + 1 else total
  }

  function StreamDelay(keys: seq<Key>): nat {
    var first := keys[..SeenAt(|keys|, 0)];
    DelayOf(first, |first|)
  }

  function Resolved(picture: Picture, seen: seq<Key>, e: nat, delay: int): OrderedFrame
    requires e < |seen|
  {
    OrderedFrame(picture.frame, picture.key, e, Max(SeenRank(seen, e) + delay, e))
  }

  /** A whole stream, pushed picture by picture and flushed at its end. */
  function Indexed(pictures: seq<Picture>): (out: seq<OrderedFrame>)
    ensures |out| == |pictures|
  {
    var keys := KeysOf(pictures);
    seq(|pictures|, e requires 0 <= e < |pictures| =>
      Resolved(pictures[e], keys[..SeenAt(|keys|, e)], e, StreamDelay(keys)))
  }

  // ---------------------------------------------------------------------------
  // Counting
  // ---------------------------------------------------------------------------

  lemma {:induction false} CountAfterSplit(a: seq<Key>, b: seq<Key>, key: Key)
    ensures CountAfter(a + b, key) == CountAfter(a, key) + CountAfter(b, key)
  {
    if b == [] {
      assert a + b == a;
    } else {
      var n := |a + b| - 1;
      assert (a + b)[..n] == a + b[..|b| - 1];
      CountAfterSplit(a, b[..|b| - 1], key);
    }
  }

  lemma {:induction false} CountBeforeSplit(a: seq<Key>, b: seq<Key>, key: Key)
    ensures CountBefore(a + b, key) == CountBefore(a, key) + CountBefore(b, key)
  {
    if b == [] {
      assert a + b == a;
    } else {
      var n := |a + b| - 1;
      assert (a + b)[..n] == a + b[..|b| - 1];
      CountBeforeSplit(a, b[..|b| - 1], key);
    }
  }

  lemma {:induction false} CountAfterZero(keys: seq<Key>, key: Key)
    ensures CountAfter(keys, key) == 0 <==> forall k :: k in keys ==> !key.Less(k)
  {
    if keys != [] {
      var n := |keys| - 1;
      CountAfterZero(keys[..n], key);
      assert keys == keys[..n] + [keys[n]];
    }
  }

  lemma {:induction false} CountBeforeZero(keys: seq<Key>, key: Key)
    ensures CountBefore(keys, key) == 0 <==> forall k :: k in keys ==> !k.Less(key)
  {
    if keys != [] {
      var n := |keys| - 1;
      CountBeforeZero(keys[..n], key);
      assert keys == keys[..n] + [keys[n]];
    }
  }

  /** The pictures of a prefix shown before picture i. */
  ghost function ShownBeforeIn(keys: seq<Key>, i: nat, n: nat): set<nat>
    requires i < |keys| && n <= |keys|
  {
    set j: nat | j < n && Precedes(keys, j, i)
  }

  lemma {:induction false} ShownBeforeStep(keys: seq<Key>, i: nat, n: nat)
    requires i < |keys| && n < |keys|
    ensures |ShownBeforeIn(keys, i, n + 1)| == |ShownBeforeIn(keys, i, n)| + if Precedes(keys, n, i) then 1 else 0
  {
    var s, t := ShownBeforeIn(keys, i, n), ShownBeforeIn(keys, i, n + 1);
    if Precedes(keys, n, i) {
      assert t == s + {n};
    } else {
      assert t == s;
    }
  }

  lemma {:induction false} ShownBeforeDecoded(keys: seq<Key>, i: nat, n: nat)
    requires i < |keys| && n <= i
    ensures |ShownBeforeIn(keys, i, n)| == n - CountAfter(keys[..n], keys[i])
  {
    if n > 0 {
      ShownBeforeDecoded(keys, i, n - 1);
      ShownBeforeStep(keys, i, n - 1);
      assert keys[..n][..n - 1] == keys[..n - 1];
    }
  }

  lemma {:induction false} ShownBeforeAll(keys: seq<Key>, i: nat, n: nat)
    requires i < n <= |keys|
    ensures |ShownBeforeIn(keys, i, n)| == i - CountAfter(keys[..i], keys[i]) + CountBefore(keys[i + 1..n], keys[i])
  {
    ShownBeforeStep(keys, i, n - 1);
    if n == i + 1 {
      ShownBeforeDecoded(keys, i, i);
    } else {
      ShownBeforeAll(keys, i, n - 1);
      assert keys[i + 1..n][..n - i - 2] == keys[i + 1..n - 1];
    }
  }

  /** A rank is what the window formula would give with nothing out of sight. */
  lemma {:induction false} RankCounts(keys: seq<Key>, i: nat)
    requires i < |keys|
    ensures Rank(keys, i) == i - CountAfter(keys[..i], keys[i]) + CountBefore(keys[i + 1..], keys[i])
  {
    ShownBeforeAll(keys, i, |keys|);
    assert ShownBeforeIn(keys, i, |keys|) == ShownBefore(keys, i);
    assert keys[i + 1..|keys|] == keys[i + 1..];
  }

  // ---------------------------------------------------------------------------
  // Ranks are a permutation in presentation order
  // ---------------------------------------------------------------------------

  lemma {:induction false} RankIncreases(keys: seq<Key>, j: nat, i: nat)
    requires j < |keys| && i < |keys| && Precedes(keys, j, i)
    ensures Rank(keys, j) < Rank(keys, i)
  {
    var s, t := ShownBefore(keys, j), ShownBefore(keys, i);
    assert j in t && j !in s;
    assert s <= t;
    Smaller(s, t - {j});
    assert s <= t - {j};
  }

  lemma {:induction false} Smaller(s: set<nat>, t: set<nat>)
    ensures s <= t ==> |s| <= |t|
  {
    if s <= t {
      assert t == s + (t - s);
    }
  }

  /** Ranks order pictures exactly as they are shown, and no two pictures share one. */
  lemma {:induction false} RankOrders(keys: seq<Key>, j: nat, i: nat)
    requires j < |keys| && i < |keys|
    ensures Rank(keys, j) < Rank(keys, i) <==> Precedes(keys, j, i)
    ensures Rank(keys, j) == Rank(keys, i) <==> j == i
  {
    if Precedes(keys, j, i) {
      RankIncreases(keys, j, i);
    } else if j != i {
      assert Precedes(keys, i, j);
      RankIncreases(keys, i, j);
    }
  }

  ghost function Below(n: nat): (s: set<nat>)
    ensures |s| == n
    ensures forall j: nat :: j in s <==> j < n
  {
    if n == 0 then {} else Below(n - 1) + {n - 1}
  }

  lemma {:induction false} RankBounded(keys: seq<Key>, i: nat)
    requires i < |keys|
    ensures Rank(keys, i) < |keys|
  {
    var all := Below(|keys|);
    assert i in all;
    Smaller(ShownBefore(keys, i), all - {i});
  }

  ghost function RanksOf(keys: seq<Key>, n: nat): set<nat>
    requires n <= |keys|
  {
    if n == 0 then {} else RanksOf(keys, n - 1) + {Rank(keys, n - 1)}
  }

  lemma {:induction false} RanksOfHas(keys: seq<Key>, n: nat, x: nat)
    requires n <= |keys| && x in RanksOf(keys, n)
    ensures exists i: nat :: i < n && Rank(keys, i) == x
  {
    hide Rank;
    if x == Rank(keys, n - 1) {
      assert n - 1 < n;
    } else {
      RanksOfHas(keys, n - 1, x);
    }
  }

  lemma {:induction false} RanksDistinct(keys: seq<Key>, n: nat)
    requires n <= |keys|
    ensures |RanksOf(keys, n)| == n
  {
    hide Rank;
    if n > 0 {
      RanksDistinct(keys, n - 1);
      if Rank(keys, n - 1) in RanksOf(keys, n - 1) {
        RanksOfHas(keys, n - 1, Rank(keys, n - 1));
        var i: nat :| i < n - 1 && Rank(keys, i) == Rank(keys, n - 1);
        RankOrders(keys, i, n - 1);
      }
    }
  }

  /** Every place of the presentation order is taken, by exactly one picture. */
  lemma {:induction false} RanksPermute(keys: seq<Key>, r: nat)
    requires r < |keys|
    ensures exists i: nat :: i < |keys| && Rank(keys, i) == r
  {
    var n := |keys|;
    hide Rank;
    RanksDistinct(keys, n);
    var ranks := RanksOf(keys, n);
    forall x | x in ranks
      ensures x in Below(n)
    {
      RanksOfHas(keys, n, x);
      var i: nat :| i < n && Rank(keys, i) == x;
      RankBounded(keys, i);
    }
    if r !in ranks {
      Smaller(ranks, Below(n) - {r});
    } else {
      RanksOfHas(keys, n, r);
    }
  }

  // ---------------------------------------------------------------------------
  // The window against the whole stream
  // ---------------------------------------------------------------------------

  /** What the window cannot see of picture e: pictures long gone, and pictures still to come. */
  function FarGone(keys: seq<Key>, e: nat): nat
    requires e < |keys|
  {
    CountAfter(keys[..Max(0, e - LOOKAHEAD)], keys[e])
  }

  function FarAhead(keys: seq<Key>, e: nat): nat
    requires e < |keys|
  {
    CountBefore(keys[SeenAt(|keys|, e)..], keys[e])
  }

  /** The rank used is off by exactly the inversions out of sight. */
  lemma {:induction false} SeenRankError(keys: seq<Key>, e: nat)
    requires e < |keys|
    ensures SeenRank(keys[..SeenAt(|keys|, e)], e) == Rank(keys, e) + FarGone(keys, e) - FarAhead(keys, e)
  {
    hide Rank, CountAfter, CountBefore;
    var n, g, key := SeenAt(|keys|, e), Max(0, e - LOOKAHEAD), keys[e];
    var seen := keys[..n];
    RankCounts(keys, e);
    assert keys[..e] == keys[..g] + keys[g..e];
    CountAfterSplit(keys[..g], keys[g..e], key);
    assert keys[e + 1..] == keys[e + 1..n] + keys[n..];
    CountBeforeSplit(keys[e + 1..n], keys[n..], key);
    assert HistoryOf(seen, e) == keys[g..e];
    assert seen[e..][1..] == keys[e + 1..n];
    assert seen[e..][..0] == [];
  }

  lemma {:induction false} FarGoneZero(keys: seq<Key>, e: nat)
    requires e < |keys|
    ensures FarGone(keys, e) == 0 <==> forall j: nat | j < |keys| :: !FarInverted(keys, j, e)
  {
    var far := keys[..Max(0, e - LOOKAHEAD)];
    CountAfterZero(far, keys[e]);
    if FarGone(keys, e) == 0 {
      forall j: nat | j < |keys|
        ensures !FarInverted(keys, j, e)
      {
        if j + LOOKAHEAD < e {
          assert far[j] in far;
        }
      }
    } else {
      var k :| k in far && keys[e].Less(k);
      var j: nat :| j < |far| && far[j] == k;
      assert FarInverted(keys, j, e);
    }
  }

  lemma {:induction false} FarAheadZero(keys: seq<Key>, e: nat)
    requires e < |keys|
    ensures FarAhead(keys, e) == 0 <==> forall i: nat | i < |keys| :: !FarInverted(keys, e, i)
  {
    var n := SeenAt(|keys|, e);
    var far := keys[n..];
    CountBeforeZero(far, keys[e]);
    if FarAhead(keys, e) == 0 {
      forall i: nat | i < |keys|
        ensures !FarInverted(keys, e, i)
      {
        if e + LOOKAHEAD < i {
          assert far[i - n] in far;
        }
      }
    } else {
      var k :| k in far && k.Less(keys[e]);
      var i: nat :| i < |far| && far[i] == k;
      assert FarInverted(keys, e, n + i);
    }
  }

  ghost predicate SeesRank(keys: seq<Key>, e: nat)
    requires e < |keys|
  {
    SeenRank(keys[..SeenAt(|keys|, e)], e) == Rank(keys, e)
  }

  /** The first picture of a far inversion has nothing gone to make up for what is ahead of it. */
  lemma {:induction false} FirstFarIsMissed(keys: seq<Key>, j: nat, i: nat)
    requires j < |keys| && i < |keys| && FarInverted(keys, j, i)
    ensures exists e: nat :: e < |keys| && !SeesRank(keys, e)
    decreases j
  {
    FarAheadZero(keys, j);
    FarGoneZero(keys, j);
    SeenRankError(keys, j);
    if FarGone(keys, j) != 0 {
      var h: nat :| h < |keys| && FarInverted(keys, h, j);
      FirstFarIsMissed(keys, h, j);
    } else {
      assert !SeesRank(keys, j);
    }
  }

  /**
   * The window finds the true rank of every picture exactly when no two pictures are
   * shown against their decode order from more than the window apart.
   */
  lemma {:induction false} WindowExactIff(keys: seq<Key>)
    ensures (forall e: nat | e < |keys| :: SeesRank(keys, e)) <==> NoneFarInverted(keys)
  {
    if NoneFarInverted(keys) {
      forall e: nat | e < |keys|
        ensures SeesRank(keys, e)
      {
        SeenRankError(keys, e);
        FarGoneZero(keys, e);
        FarAheadZero(keys, e);
      }
    } else {
      var j: nat, i: nat :| j < |keys| && i < |keys| && FarInverted(keys, j, i);
      FirstFarIsMissed(keys, j, i);
    }
  }

  // ---------------------------------------------------------------------------
  // Presentation indexes
  // ---------------------------------------------------------------------------

  lemma {:induction false} DelayCovers(window: seq<Key>, n: nat, i: nat)
    requires i < n <= |window|
    ensures i - WindowRank([], window, 0, i) <= DelayOf(window, n)
  {
    if i < n - 1 {
      DelayCovers(window, n - 1, i);
    }
  }

  lemma {:induction false} DelayReached(window: seq<Key>, n: nat) returns (i: nat)
    requires n <= |window|
    ensures DelayOf(window, n) > 0 ==> i < n && i - WindowRank([], window, 0, i) == DelayOf(window, n)
  {
    if n == 0 {
      i := 0;
    } else if DelayOf(window, n) == DelayOf(window, n - 1) {
      i := DelayReached(window, n - 1);
    } else {
      i := n - 1;
    }
  }

  /** The measured delay covers every picture of the first window, wherever the rest goes. */
  lemma {:induction false} FirstWindowCovered(keys: seq<Key>, i: nat)
    requires i < SeenAt(|keys|, 0)
    ensures i <= Rank(keys, i) + StreamDelay(keys)
  {
    hide Rank, DelayOf, CountBefore, CountAfter;
    var n := SeenAt(|keys|, 0);
    var first := keys[..n];
    DelayCovers(first, n, i);
    RankCounts(keys, i);
    Around(keys, i, n);
    CountBeforeSplit(keys[i + 1..n], keys[n..], keys[i]);
  }

  lemma {:induction false} Around(keys: seq<Key>, i: nat, n: nat)
    requires i < n <= |keys|
    ensures var first := keys[..n];
      && first[i] == keys[i] && first[..i] == keys[..i] && first[i + 1..] == keys[i + 1..n]
      && keys[i + 1..] == keys[i + 1..n] + keys[n..]
  {
  }

  /**
   * Where the window sees true ranks, a picture is shown at its rank plus the delay
   * exactly when the delay covers it; otherwise it is shown as it is decoded.
   */
  lemma {:induction false} ShownAtRank(pictures: seq<Picture>, e: nat)
    requires e < |pictures| && NoneFarInverted(KeysOf(pictures))
    ensures var keys := KeysOf(pictures);
            && (Indexed(pictures)[e].ptsIndex == Rank(keys, e) + StreamDelay(keys)
                <==> e <= Rank(keys, e) + StreamDelay(keys))
            && (Indexed(pictures)[e].ptsIndex == e || e < Rank(keys, e) + StreamDelay(keys))
  {
    hide SeenRank, Rank, StreamDelay;
    var keys := KeysOf(pictures);
    WindowExactIff(keys);
    assert SeesRank(keys, e);
  }

  ghost predicate DelayCoversAll(keys: seq<Key>) {
    forall e: nat | e < |keys| :: e <= Rank(keys, e) + StreamDelay(keys)
  }

  /** Picture e leaves with its place among all pictures of the stream, the measured delay later. */
  ghost predicate AtRank(pictures: seq<Picture>, e: nat)
    requires e < |pictures|
  {
    Indexed(pictures)[e].ptsIndex == Rank(KeysOf(pictures), e) + StreamDelay(KeysOf(pictures))
  }

  /**
   * In any stream, a picture is shown at its rank plus the delay exactly when the delay covers it
   * and what the window cannot see cancels out, or misses towards a clamp that then puts it right.
   */
  lemma {:induction false} AtRankIff(pictures: seq<Picture>, e: nat)
    requires e < |pictures|
    ensures var keys := KeysOf(pictures); var due := Rank(keys, e) + StreamDelay(keys);
      AtRank(pictures, e)
      <==> e <= due && (FarGone(keys, e) == FarAhead(keys, e) || (FarGone(keys, e) < FarAhead(keys, e) && e == due))
  {
    hide SeenRank, Rank, StreamDelay, FarGone, FarAhead;
    SeenRankError(KeysOf(pictures), e);
  }

  /** The last picture of a far inversion has nothing ahead to make up for what is gone. */
  lemma {:induction false} LastFarIsMissed(pictures: seq<Picture>, j: nat, i: nat)
    requires j < |pictures| && i < |pictures| && FarInverted(KeysOf(pictures), j, i)
    ensures exists e: nat :: e < |pictures| && !AtRank(pictures, e)
    decreases |pictures| - i
  {
    hide FarGone, FarAhead, Rank, StreamDelay, AtRank, KeysOf;
    var keys := KeysOf(pictures);
    FarGoneZero(keys, i);
    FarAheadZero(keys, i);
    AtRankIff(pictures, i);
    if FarAhead(keys, i) != 0 {
      var k: nat :| k < |keys| && FarInverted(keys, i, k);
      LastFarIsMissed(pictures, i, k);
    } else {
      assert !AtRank(pictures, i);
    }
  }

  /** Every picture of a stream is exactly when nothing is inverted out of sight and the delay covers all. */
  lemma {:induction false} AllAtRankIff(pictures: seq<Picture>)
    ensures (forall e: nat | e < |pictures| :: AtRank(pictures, e))
      <==> NoneFarInverted(KeysOf(pictures)) && DelayCoversAll(KeysOf(pictures))
  {
    hide Rank, StreamDelay, FarInverted, Indexed, FarGone, FarAhead;
    var keys := KeysOf(pictures);
    if NoneFarInverted(keys) {
      forall e: nat | e < |pictures|
        ensures AtRank(pictures, e) <==> e <= Rank(keys, e) + StreamDelay(keys)
      {
        ShownAtRank(pictures, e);
      }
    } else {
      var j: nat, i: nat :| j < |keys| && i < |keys| && FarInverted(keys, j, i);
      LastFarIsMissed(pictures, j, i);
    }
  }

  /** Then presentation indexes are distinct and sort the pictures as they are shown. */
  lemma {:induction false} ShownInOrder(pictures: seq<Picture>, j: nat, i: nat)
    requires j < |pictures| && i < |pictures|
    requires NoneFarInverted(KeysOf(pictures)) && DelayCoversAll(KeysOf(pictures))
    ensures Indexed(pictures)[j].ptsIndex < Indexed(pictures)[i].ptsIndex <==> Precedes(KeysOf(pictures), j, i)
    ensures Indexed(pictures)[j].ptsIndex == Indexed(pictures)[i].ptsIndex <==> j == i
  {
    hide Rank, StreamDelay, Indexed, Precedes;
    ShownAtRank(pictures, j);
    ShownAtRank(pictures, i);
    RankOrders(KeysOf(pictures), j, i);
  }

  /** A stream no longer than the first window always meets both conditions. */
  lemma {:induction false} ShortStreamShownInOrder(pictures: seq<Picture>, j: nat, i: nat)
    requires j < |pictures| <= LOOKAHEAD + 1 && i < |pictures|
    ensures Indexed(pictures)[j].ptsIndex < Indexed(pictures)[i].ptsIndex <==> Precedes(KeysOf(pictures), j, i)
  {
    var keys := KeysOf(pictures);
    forall e: nat | e < |keys|
      ensures e <= Rank(keys, e) + StreamDelay(keys)
    {
      FirstWindowCovered(keys, e);
    }
    ShownInOrder(pictures, j, i);
  }

  /** Seventeen pictures shown as decoded, then one shown before all of them. */
  function LateLeader(): seq<Key> {
    seq(18, i => if i < 17 then Key(0, i) else Key(0, -1))
  }

  /** A deeper reordering than the window does go wrong: the first picture is placed a frame early. */
  lemma {:induction false} LateLeaderMisplaced()
    ensures !SeesRank(LateLeader(), 0)
  {
    var keys := LateLeader();
    assert FarInverted(keys, 0, 17);
    FarAheadZero(keys, 0);
    SeenRankError(keys, 0);
    assert keys[..0] == [];
  }

  /** The history after one more picture. */
  lemma {:induction false} HistoryStep(keys: seq<Key>, e: nat)
    requires e < |keys|
    ensures var h := HistoryOf(keys, e) + [keys[e]];
            HistoryOf(keys, e + 1) == if |h| > LOOKAHEAD then h[1..] else h
  {
  }

  lemma {:induction false} IndexedAt(pictures: seq<Picture>, n: nat, e: nat)
    requires e < n <= |pictures| && n == SeenAt(|pictures|, e)
    ensures Indexed(pictures)[e] == Resolved(pictures[..n][e], KeysOf(pictures[..n]), e, StreamDelay(KeysOf(pictures)))
  {
    hide StreamDelay, SeenRank;
    assert KeysOf(pictures[..n]) == KeysOf(pictures)[..n];
  }

  lemma {:induction false} OutIs(pictures: seq<Picture>)
    ensures forall i :: 0 <= i < |pictures| ==>
      Indexed(pictures)[i].frame == pictures[i].frame && Indexed(pictures)[i].dtsIndex == i && Indexed(pictures)[i].ptsIndex >= i
  {
  }

  lemma {:induction false} DelayAt(pictures: seq<Picture>, n: nat)
    requires n == SeenAt(|pictures|, 0)
    ensures StreamDelay(KeysOf(pictures)) == DelayOf(KeysOf(pictures[..n]), n)
  {
    hide DelayOf;
    assert KeysOf(pictures[..n]) == KeysOf(pictures)[..n];
  }

  lemma {:induction false} HistoryNone(keys: seq<Key>)
    ensures HistoryOf(keys, 0) == []
  {
  }

  lemma {:induction false} DelayStep(window: seq<Key>, n: nat)
    requires n <= |window|
    ensures DelayOf(window, n) == if n == 0 then 0 else Max(DelayOf(window, n - 1), n - 1 - WindowRank([], window, 0, n - 1))
  {
  }

  /** The pictures flushed at the end complete the list. */
  lemma {:induction false} RestIs(pictures: seq<Picture>, rest: seq<OrderedFrame>, k: nat)
    requires k <= |pictures| && |rest| == |pictures| - k
    requires forall i :: 0 <= i < |rest| ==> rest[i] == Resolved(pictures[k + i], KeysOf(pictures), k + i, StreamDelay(KeysOf(pictures)))
    requires forall e :: k <= e < |pictures| ==> |pictures| == SeenAt(|pictures|, e)
    ensures |Indexed(pictures)| == |pictures| && Indexed(pictures)[..k] + rest == Indexed(pictures)
  {
    hide Resolved, KeysOf, StreamDelay, Indexed;
    IndexedLength(pictures);
    assert pictures[..|pictures|] == pictures;
    forall e | k <= e < |pictures|
      ensures rest[e - k] == Indexed(pictures)[e]
    {
      IndexedAt(pictures, |pictures|, e);
      assert rest[e - k] == Resolved(pictures[k + (e - k)], KeysOf(pictures), k + (e - k), StreamDelay(KeysOf(pictures)));
    }
    assert rest == Indexed(pictures)[k..];
  }

  lemma {:induction false} IndexedLength(pictures: seq<Picture>)
    ensures |Indexed(pictures)| == |pictures|
  {
  }

  // ---------------------------------------------------------------------------
  // The orderer
  // ---------------------------------------------------------------------------

  class Orderer {
    var window: seq<Picture>
    var history: seq<Key>
    var emitted: nat
    var delay: nat
    var measured: bool
    /** Every picture ever pushed. */
    ghost var pushed: seq<Picture>

    ghost predicate Valid()
      reads this
    {
      && emitted <= |pushed|
      && window == pushed[emitted..]
      && history == HistoryOf(KeysOf(pushed), emitted)
      && |window| <= LOOKAHEAD
      && (!measured ==> emitted == 0 && delay == 0)
    }

    /** As `Valid`, with the window allowed one picture more while it is being shifted. */
    ghost predicate Holding()
      reads this
    {
      && emitted <= |pushed|
      && window == pushed[emitted..]
      && history == HistoryOf(KeysOf(pushed), emitted)
      && (!measured ==> emitted == 0 && delay == 0)
    }

    constructor ()
      ensures Valid() && pushed == [] && !measured
    {
      window, history, emitted, delay, measured, pushed := [], [], 0, 0, false, [];
    }

    method RankOf(i: nat) returns (r: int)
      requires i < |window|
      ensures r == WindowRank(history, KeysOf(window), emitted, i)
    {
      var key := window[i].key;
      ghost var keys := KeysOf(window);
      r := emitted + i;
      for h := 0 to |history|
        invariant r == emitted + i - CountAfter(history[..h], key)
      {
        assert history[..h + 1][..h] == history[..h];
        if key.Less(history[h]) {
          r := r - 1;
        }
      }
      assert history[..|history|] == history;
      ghost var base := r;
      for j := 0 to |window|
        invariant j <= i ==> r == base - CountAfter(keys[..j], key)
        invariant j > i ==> r == base - CountAfter(keys[..i], key) + CountBefore(keys[i + 1..j], key)
      {
        assert keys[..j + 1][..j] == keys[..j];
        if j > i {
          assert keys[i + 1..j + 1][..j - i - 1] == keys[i + 1..j];
        }
        if j < i && key.Less(window[j].key) {
          r := r - 1;
        } else if j > i && window[j].key.Less(key) {
          r := r + 1;
        }
      }
      assert keys[i + 1..|keys|] == keys[i + 1..];
    }

    method Measure()
      requires Holding() && !measured
      modifies this`measured, this`delay
      ensures measured && delay == DelayOf(KeysOf(pushed), |pushed|)
    {
      hide WindowRank, DelayOf, HistoryOf;
      assert window == pushed;
      HistoryNone(KeysOf(pushed));
      DelayStep(KeysOf(pushed), 0);
      measured := true;
      for i := 0 to |window|
        invariant measured && delay == DelayOf(KeysOf(pushed), i)
      {
        DelayStep(KeysOf(pushed), i + 1);
        var r := RankOf(i);
        delay := Max(delay, i - r);
      }
    }

    method Resolve() returns (f: OrderedFrame)
      requires Holding() && window != []
      modifies this
      ensures Holding() && measured && pushed == old(pushed) && emitted == old(emitted) + 1
      ensures delay == if old(measured) then old(delay) else DelayOf(KeysOf(pushed), |pushed|)
      ensures f == Resolved(pushed[old(emitted)], KeysOf(pushed), old(emitted), delay)
    {
      hide WindowRank, DelayOf, HistoryOf;
      ghost var keys := KeysOf(pushed);
      if !measured {
        assert KeysOf(window) == keys;
        Measure();
      }
      var first := window[0];
      var r := RankOf(0);
      assert KeysOf(window) == keys[emitted..];
      f := OrderedFrame(first.frame, first.key, emitted, Max(r + delay, emitted));
      HistoryStep(keys, emitted);
      window := window[1..];
      history := history + [first.key];
      if |history| > LOOKAHEAD {
        history := history[1..];
      }
      emitted := emitted + 1;
    }

    method Push(frame: Frame, key: Key) returns (out: seq<OrderedFrame>)
      requires Valid()
      modifies this
      ensures Valid() && pushed == old(pushed) + [Picture(frame, key)]
      ensures |old(window)| < LOOKAHEAD ==> out == [] && emitted == old(emitted) && measured == old(measured) && delay == old(delay)
      ensures |old(window)| == LOOKAHEAD ==>
        && emitted == old(emitted) + 1 && measured
        && delay == (if old(measured) then old(delay) else DelayOf(KeysOf(pushed), |pushed|))
        && out == [Resolved(pushed[old(emitted)], KeysOf(pushed), old(emitted), delay)]
    {
      pushed := pushed + [Picture(frame, key)];
      window := window + [Picture(frame, key)];
      assert HistoryOf(KeysOf(pushed), emitted) == HistoryOf(KeysOf(old(pushed)), emitted);
      if |window| <= LOOKAHEAD {
        return [];
      }
      var f := Resolve();
      return [f];
    }

    method Flush() returns (out: seq<OrderedFrame>)
      requires Valid()
      modifies this
      ensures Valid() && pushed == old(pushed) && window == [] && emitted == |pushed|
      ensures old(emitted) == |pushed| ==> delay == old(delay) && measured == old(measured)
      ensures old(emitted) < |pushed| ==>
        delay == if old(measured) then old(delay) else DelayOf(KeysOf(pushed), |pushed|)
      ensures |out| == |pushed| - old(emitted)
      ensures forall i :: 0 <= i < |out| ==>
        out[i] == Resolved(pushed[old(emitted) + i], KeysOf(pushed), old(emitted) + i, delay)
    {
      hide Resolved, HistoryOf, DelayOf;
      out := [];
      while |window| > 0
        invariant Valid() && pushed == old(pushed) && |out| == emitted - old(emitted)
        invariant out == [] ==> delay == old(delay) && measured == old(measured)
        invariant out != [] ==>
          measured && delay == if old(measured) then old(delay) else DelayOf(KeysOf(pushed), |pushed|)
        invariant forall i :: 0 <= i < |out| ==>
          out[i] == Resolved(pushed[old(emitted) + i], KeysOf(pushed), old(emitted) + i, delay)
        decreases |window|
      {
        var f := Resolve();
        out := out + [f];
      }
    }
  }

  /** A stream through a new orderer: pictures leave once, in decode order, never shown before decoding. */
  method OrderStream(pictures: seq<Picture>) returns (out: seq<OrderedFrame>)
    ensures out == Indexed(pictures)
    ensures forall i :: 0 <= i < |out| ==>
      out[i].frame == pictures[i].frame && out[i].dtsIndex == i && out[i].ptsIndex >= i
  {
    hide Resolved, HistoryOf, KeysOf, Indexed, DelayOf, StreamDelay;
    ghost var keys := KeysOf(pictures);
    var o := new Orderer();
    out := [];
    for n := 0 to |pictures|
      invariant fresh(o) && o.Valid() && o.pushed == pictures[..n]
      invariant |out| == o.emitted == Max(0, n - LOOKAHEAD)
      invariant o.measured <==> o.emitted > 0
      invariant o.measured ==> o.delay == StreamDelay(keys)
      invariant out == Indexed(pictures)[..|out|]
    {
      var more := o.Push(pictures[n].frame, pictures[n].key);
      assert o.pushed == pictures[..n + 1];
      if n >= LOOKAHEAD {
        IndexedAt(pictures, n + 1, n - LOOKAHEAD);
        if n == LOOKAHEAD {
          DelayAt(pictures, n + 1);
        }
      }
      out := out + more;
    }
    assert pictures[..|pictures|] == pictures;
    var rest := o.Flush();
    if |pictures| <= LOOKAHEAD {
      DelayAt(pictures, |pictures|);
    }
    RestIs(pictures, rest, |out|);
    out := out + rest;
    OutIs(pictures);
  }
}
