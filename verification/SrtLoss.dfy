/** SRT sequence numbers and the loss lists of its NAK reports. */
module SrtLoss {
  import opened Bytes

  const SEQ_MOD: int := 0x8000_0000
  const SEQ_HALF: int := 0x4000_0000
  const MAX_LOSS_RANGE := 0x1_0000

  type seq31 = x: int | 0 <= x < 0x8000_0000
  type i32 = x: int | -0x8000_0000 <= x < 0x8000_0000

  // ---------------------------------------------------------------------------
  // Sequence numbers
  // ---------------------------------------------------------------------------

  function SeqAdd(s: u32, n: i32): seq31 {
    (s as int + n) % SEQ_MOD
  }

  function SeqNext(s: u32): seq31 {
    (s as int + 1) % SEQ_MOD
  }

  /** b - a, the short way round. */
  function SeqDiff(a: u32, b: u32): i32 {
    var d := (b as int - a as int) % SEQ_MOD;
    if d >= SEQ_HALF then d - SEQ_MOD else d
  }

  predicate SeqLess(a: u32, b: u32) {
    SeqDiff(a, b) > 0
  }

  /** A difference added comes back, exactly while it is less than half way round. */
  lemma {:induction false} DiffOfSumIff(a: u32, n: i32)
    ensures SeqDiff(a, SeqAdd(a, n)) == n <==> -SEQ_HALF <= n < SEQ_HALF
  {
    var m := (a as int + n) % SEQ_MOD;
    var q := (a as int + n) / SEQ_MOD;
    assert a as int + n == q * SEQ_MOD + m;
    WrapOnce(m - a as int, n, -q);
  }

  lemma {:induction false} WrapOnce(x: int, n: int, q: int)
    requires x == n + q * SEQ_MOD
    ensures x % SEQ_MOD == n % SEQ_MOD
  {
  }

  lemma {:induction false} SumOfDiff(a: u32, b: seq31)
    ensures SeqAdd(a, SeqDiff(a, b)) == b
  {
    var d := (b as int - a as int) % SEQ_MOD;
    var q := (b as int - a as int) / SEQ_MOD;
    assert b as int - a as int == q * SEQ_MOD + d;
    WrapOnce(a as int + d, b, -q);
    WrapOnce(a as int + d - SEQ_MOD, b, -q - 1);
  }

  /** Of two different numbers one comes first, unless they are exactly half way round from each other. */
  lemma {:induction false} LessIsTotal(a: seq31, b: seq31)
    ensures a != b && SeqDiff(a, b) != -SEQ_HALF ==> (SeqLess(a, b) <==> !SeqLess(b, a))
    ensures !(SeqLess(a, b) && SeqLess(b, a))
  {
  }

  // ---------------------------------------------------------------------------
  // Loss lists
  // ---------------------------------------------------------------------------

  /** How many numbers from the first on follow each other. */
  function RunLength(seqs: seq<seq31>): (n: nat)
    requires seqs != []
    ensures 1 <= n <= |seqs|
  {
    if |seqs| > 1 && seqs[1] == SeqNext(seqs[0]) then 1 + RunLength(seqs[1..]) else 1
  }

  /** A single number, or the ends of a range with the top bit set on the first. */
  function RunBytes(first: seq31, last: seq31, n: nat): bytes {
    if n == 1 then PutU32(first) else PutU32(first + SEQ_MOD) + PutU32(last)
  }

  function EncodeLossList(seqs: seq<seq31>): bytes
    decreases |seqs|
  {
    if seqs == [] then []
    else
      var n := RunLength(seqs);
      RunBytes(seqs[0], seqs[n - 1], n) + EncodeLossList(seqs[n..])
  }

  function CountUp(start: seq31, n: nat): (s: seq<seq31>)
    ensures |s| == n
    decreases n
  {
    if n == 0 then [] else [start] + CountUp(SeqNext(start), n - 1)
  }

  /** What a range names: nothing when it runs backwards or is absurdly long. */
  function RangeOf(start: seq31, end: seq31): seq<seq31> {
    var n := SeqDiff(start, end);
    if n < 0 || n > MAX_LOSS_RANGE then [] else CountUp(start, n + 1)
  }

  function DecodeLossList(b: bytes): seq<seq31>
    decreases |b|
  {
    if |b| < 4 then []
    else
      var v := U32(b);
      if v < SEQ_MOD then [v] + DecodeLossList(b[4..])
      else if |b| < 8 then []
      else RangeOf(v % SEQ_MOD, U32(b[4..]) % SEQ_MOD) + DecodeLossList(b[8..])
  }

  lemma {:induction false} RunCounts(seqs: seq<seq31>)
    requires seqs != []
    ensures var n := RunLength(seqs); seqs[..n] == CountUp(seqs[0], n)
    decreases |seqs|
  {
    var n := RunLength(seqs);
    if n > 1 {
      RunCounts(seqs[1..]);
      assert seqs[..n] == [seqs[0]] + seqs[1..][..n - 1];
    } else {
      assert CountUp(SeqNext(seqs[0]), 0) == [];
      assert seqs[..1] == [seqs[0]];
    }
  }

  lemma {:induction false} CountUpAt(start: seq31, n: nat, i: nat)
    requires i < n
    ensures CountUp(start, n)[i] == (start + i) % SEQ_MOD
    decreases n
  {
    if i > 0 {
      CountUpAt(SeqNext(start), n - 1, i - 1);
      var q := (start as int + 1) / SEQ_MOD;
      assert start as int + 1 == q * SEQ_MOD + SeqNext(start);
      WrapOnce(SeqNext(start) + (i - 1), start as int + i, -q);
    }
  }

  /** How far the ends of a run of n numbers seem to be apart. */
  lemma {:induction false} EndsApart(start: seq31, n: nat)
    requires n > 0
    ensures var d := (n - 1) % SEQ_MOD;
      SeqDiff(start, CountUp(start, n)[n - 1]) == if d >= SEQ_HALF then d - SEQ_MOD else d
  {
    hide CountUp;
    CountUpAt(start, n, n - 1);
    DiffAround(start, n - 1);
  }

  lemma {:induction false} DiffAround(start: seq31, k: nat)
    ensures var d := k % SEQ_MOD;
      SeqDiff(start, (start + k) % SEQ_MOD) == if d >= SEQ_HALF then d - SEQ_MOD else d
  {
    var last := (start as int + k) % SEQ_MOD;
    var q := (start as int + k) / SEQ_MOD;
    assert start as int + k == q * SEQ_MOD + last;
    WrapOnce(last - start as int, k, -q);
  }

  /** A run short enough to be believed is named in full; any longer one loses numbers. */
  lemma {:induction false} RangeNames(start: seq31, n: nat)
    requires n > 0
    ensures var r := RangeOf(start, CountUp(start, n)[n - 1]);
      if n <= MAX_LOSS_RANGE + 1 then r == CountUp(start, n) else |r| < n
  {
    hide CountUp, SeqDiff;
    EndsApart(start, n);
    var d := (n - 1) % SEQ_MOD;
    assert d <= n - 1;
    if n <= MAX_LOSS_RANGE + 1 {
      assert d == n - 1;
    }
  }

  lemma {:induction false} DecodeSingle(v: seq31, rest: bytes)
    ensures DecodeLossList(PutU32(v) + rest) == [v] + DecodeLossList(rest)
  {
    hide PutU32, U32;
    U32RoundTrip(v, rest);
    var b := PutU32(v) + rest;
    assert b[4..] == rest;
  }

  lemma {:induction false} DecodeRange(first: seq31, last: seq31, rest: bytes)
    ensures DecodeLossList(PutU32(first + SEQ_MOD) + PutU32(last) + rest) == RangeOf(first, last) + DecodeLossList(rest)
  {
    hide PutU32, U32, RangeOf;
    var b := PutU32(first + SEQ_MOD) + (PutU32(last) + rest);
    assert PutU32(first + SEQ_MOD) + PutU32(last) + rest == b;
    U32RoundTrip(first + SEQ_MOD, PutU32(last) + rest);
    U32RoundTrip(last, rest);
    assert b[4..] == PutU32(last) + rest;
    assert b[8..] == rest;
    assert (first + SEQ_MOD) % SEQ_MOD == first && last % SEQ_MOD == last;
  }

  /** What decoding makes of one encoded run. */
  function RunDecoded(seqs: seq<seq31>): seq<seq31>
    requires seqs != []
  {
    var n := RunLength(seqs);
    if n == 1 then [seqs[0]] else RangeOf(seqs[0], seqs[n - 1])
  }

  lemma {:induction false} DecodeRuns(seqs: seq<seq31>)
    requires seqs != []
    ensures DecodeLossList(EncodeLossList(seqs)) == RunDecoded(seqs) + DecodeLossList(EncodeLossList(seqs[RunLength(seqs)..]))
  {
    hide PutU32, RangeOf, DecodeLossList;
    var n := RunLength(seqs);
    var rest := EncodeLossList(seqs[n..]);
    if n == 1 {
      DecodeSingle(seqs[0], rest);
    } else {
      DecodeRange(seqs[0], seqs[n - 1], rest);
    }
  }

  /** Every run of consecutive numbers is at most as long as a decoder believes. */
  predicate RunsShort(seqs: seq<seq31>)
    decreases |seqs|
  {
    seqs != [] ==> RunLength(seqs) <= MAX_LOSS_RANGE + 1 && RunsShort(seqs[RunLength(seqs)..])
  }

  lemma {:induction false} RunNamed(seqs: seq<seq31>)
    requires seqs != []
    ensures var n := RunLength(seqs);
      if n <= MAX_LOSS_RANGE + 1 then RunDecoded(seqs) == seqs[..n] else |RunDecoded(seqs)| < n
  {
    hide RangeOf, CountUp, RunLength;
    var n := RunLength(seqs);
    RunCounts(seqs);
    RangeNames(seqs[0], n);
    assert seqs[..n][n - 1] == seqs[n - 1];
    if n == 1 {
      assert seqs[..1] == [seqs[0]];
    }
  }

  /** The list a receiver of the encoded list sees. */
  function Seen(seqs: seq<seq31>): seq<seq31> {
    DecodeLossList(EncodeLossList(seqs))
  }

  lemma {:induction false} SeenRun(seqs: seq<seq31>)
    requires seqs != []
    ensures var n := RunLength(seqs); Seen(seqs) == RunDecoded(seqs) + Seen(seqs[n..])
    ensures var n := RunLength(seqs);
      if n <= MAX_LOSS_RANGE + 1 then RunDecoded(seqs) == seqs[..n] else |RunDecoded(seqs)| < n
    ensures RunsShort(seqs) <==> RunLength(seqs) <= MAX_LOSS_RANGE + 1 && RunsShort(seqs[RunLength(seqs)..])
  {
    hide DecodeLossList, RunDecoded, RunLength, EncodeLossList;
    DecodeRuns(seqs);
    RunNamed(seqs);
  }

  lemma {:induction false} NeverMore(seqs: seq<seq31>)
    ensures |Seen(seqs)| <= |seqs|
    ensures RunsShort(seqs) ==> Seen(seqs) == seqs
    ensures !RunsShort(seqs) ==> |Seen(seqs)| < |seqs|
    decreases |seqs|
  {
    hide Seen, RunDecoded, RunLength, RunsShort;
    if seqs == [] {
      NothingLost();
    } else {
      var n := RunLength(seqs);
      SeenRun(seqs);
      NeverMore(seqs[n..]);
      JoinRun(seqs, n, RunDecoded(seqs), Seen(seqs[n..]), n <= MAX_LOSS_RANGE + 1);
    }
  }

  /** A first run that is whole or short of something, and a rest that is. */
  lemma {:induction false} JoinRun<T>(s: seq<T>, n: nat, run: seq<T>, rest: seq<T>, whole: bool)
    requires n <= |s| && |rest| <= |s| - n && (if whole then run == s[..n] else |run| < n)
    ensures |run + rest| <= |s| && (whole && rest == s[n..] ==> run + rest == s)
    ensures !whole || |rest| < |s| - n ==> |run + rest| < |s|
  {
    assert s == s[..n] + s[n..];
  }

  lemma {:induction false} NothingLost()
    ensures Seen([]) == [] && RunsShort([])
  {
  }

  /** A loss list survives, wrapping runs included, exactly when no run is longer than 65537 numbers. */
  lemma {:induction false} LossListIff(seqs: seq<seq31>)
    ensures DecodeLossList(EncodeLossList(seqs)) == seqs <==> RunsShort(seqs)
  {
    NeverMore(seqs);
  }

  // ---------------------------------------------------------------------------
  // The loops
  // ---------------------------------------------------------------------------

  method Encode(seqs: seq<seq31>) returns (out: bytes)
    ensures out == EncodeLossList(seqs)
  {
    hide PutU32, RunLength, RunBytes, EncodeLossList;
    out := [];
    var i := 0;
    assert seqs[0..] == seqs && [] + EncodeLossList(seqs) == EncodeLossList(seqs);
    while i < |seqs|
      invariant 0 <= i <= |seqs| && out + EncodeLossList(seqs[i..]) == EncodeLossList(seqs)
    {
      var j := EndOfRun(seqs, i);
      ghost var n := RunLength(seqs[i..]);
      EncodeStep(seqs[i..], out);
      assert seqs[i..][n..] == seqs[j + 1..];
      RunBytesIs(seqs[i], seqs[j], n);
      if j == i {
        out := out + PutU32(seqs[i]);
      } else {
        out := out + PutU32(seqs[i] + SEQ_MOD);
        out := out + PutU32(seqs[j]);
      }
      i := j + 1;
    }
    assert seqs[i..] == [] && out + [] == out;
    EncodeNothing();
  }

  lemma {:induction false} EncodeNothing()
    ensures EncodeLossList([]) == []
  {
  }

  method EndOfRun(seqs: seq<seq31>, i: nat) returns (j: nat)
    requires i < |seqs|
    ensures i <= j < |seqs| && j - i + 1 == RunLength(seqs[i..])
  {
    j := i;
    while j + 1 < |seqs| && seqs[j + 1] == SeqNext(seqs[j])
      invariant i <= j < |seqs| && RunLength(seqs[i..]) == j - i + RunLength(seqs[j..])
    {
      assert seqs[j..][1..] == seqs[j + 1..];
      j := j + 1;
    }
  }

  lemma {:induction false} RunBytesIs(first: seq31, last: seq31, n: nat)
    ensures RunBytes(first, last, n) == if n == 1 then PutU32(first) else PutU32(first + SEQ_MOD) + PutU32(last)
  {
  }

  lemma {:induction false} EncodeStep(seqs: seq<seq31>, out: bytes)
    requires seqs != []
    ensures var n := RunLength(seqs);
      out + EncodeLossList(seqs) == (out + RunBytes(seqs[0], seqs[n - 1], n)) + EncodeLossList(seqs[n..])
  {
    hide RunBytes;
  }

  method Decode(b0: bytes) returns (seqs: seq<seq31>)
    ensures seqs == DecodeLossList(b0)
  {
    hide U32, RangeOf;
    var b := b0;
    seqs := [];
    assert [] + DecodeLossList(b0) == DecodeLossList(b0);
    while |b| >= 4
      invariant seqs + DecodeLossList(b) == DecodeLossList(b0)
      decreases |b|
    {
      DecodeStep(b, seqs);
      var v := U32(b);
      b := b[4..];
      if v < SEQ_MOD {
        seqs := seqs + [v];
        continue;
      }
      if |b| < 4 {
        return seqs;
      }
      var start, end := v % SEQ_MOD, U32(b) % SEQ_MOD;
      b := b[4..];
      var range := CountRange(start, end);
      seqs := seqs + range;
    }
    assert seqs + [] == seqs;
  }

  lemma {:induction false} DecodeStep(b: bytes, seqs: seq<seq31>)
    requires |b| >= 4
    ensures seqs + DecodeLossList(b) ==
      if U32(b) < SEQ_MOD then (seqs + [U32(b)]) + DecodeLossList(b[4..])
      else if |b| < 8 then seqs
      else (seqs + RangeOf(U32(b) % SEQ_MOD, U32(b[4..]) % SEQ_MOD)) + DecodeLossList(b[4..][4..])
  {
    DecodeLossIs(b);
    hide U32, RangeOf, DecodeLossList;
    if U32(b) < SEQ_MOD {
      assert seqs + ([U32(b)] + DecodeLossList(b[4..])) == (seqs + [U32(b)]) + DecodeLossList(b[4..]);
    } else if |b| < 8 {
      assert seqs + [] == seqs;
    } else {
      var range := RangeOf(U32(b) % SEQ_MOD, U32(b[4..]) % SEQ_MOD);
      assert b[4..][4..] == b[8..];
      assert seqs + (range + DecodeLossList(b[8..])) == (seqs + range) + DecodeLossList(b[8..]);
    }
  }

  lemma {:induction false} DecodeLossIs(b: bytes)
    requires |b| >= 4
    ensures DecodeLossList(b) ==
      if U32(b) < SEQ_MOD then [U32(b)] + DecodeLossList(b[4..])
      else if |b| < 8 then []
      else RangeOf(U32(b) % SEQ_MOD, U32(b[4..]) % SEQ_MOD) + DecodeLossList(b[8..])
  {
    hide U32, RangeOf;
  }

  method CountRange(start: seq31, end: seq31) returns (s: seq<seq31>)
    ensures s == RangeOf(start, end)
  {
    var n := SeqDiff(start, end);
    if n < 0 || n > MAX_LOSS_RANGE {
      return [];
    }
    s := [];
    var v, i := start, 0;
    assert [] + CountUp(start, n + 1) == CountUp(start, n + 1);
    while i <= n
      invariant 0 <= i <= n + 1 && s + CountUp(v, n + 1 - i) == CountUp(start, n + 1)
    {
      assert s + ([v] + CountUp(SeqNext(v), n - i)) == (s + [v]) + CountUp(SeqNext(v), n - i);
      s := s + [v];
      v, i := SeqNext(v), i + 1;
    }
    assert s + [] == s;
  }
}
