/** NAL units between start codes, in a stream read in pieces, and behind length prefixes. */
module NalFraming {
  import opened Bytes
  import opened Wrappers

  // ---------------------------------------------------------------------------
  // Start codes
  // ---------------------------------------------------------------------------

  predicate CodeAt(b: bytes, i: nat) {
    i + 3 <= |b| && b[i] == 0 && b[i + 1] == 0 && b[i + 2] == 1
  }

  /** The first 00 00 01 at or after i, or the length of the buffer. */
  function FirstCode(b: bytes, i: nat): (k: nat)
    requires i <= |b|
    ensures i <= k <= |b| && (k < |b| ==> CodeAt(b, k))
    ensures forall j :: i <= j < k ==> !CodeAt(b, j)
    decreases |b| - i
  {
    if i == |b| || CodeAt(b, i) then i else FirstCode(b, i + 1)
  }

  datatype Code = Code(at: nat, size: nat)

  /** A zero before the three bytes belongs to the code, unless it lies before the search. */
  function FindStartCode(b: bytes, offset: nat): Option<Code> {
    if offset >= |b| then None
    else
      var k := FirstCode(b, offset);
      if k == |b| then None
      else if k > offset && b[k - 1] == 0 then Some(Code(k - 1, 4))
      else Some(Code(k, 3))
  }

  lemma {:induction false} FirstCodeIs(b: bytes, i: nat, k: nat)
    requires i <= k < |b| && CodeAt(b, k) && forall j :: i <= j < k ==> !CodeAt(b, j)
    ensures FirstCode(b, i) == k
  {
  }

  lemma {:induction false} FirstCodeNone(b: bytes, i: nat)
    requires i <= |b| && forall j :: i <= j < |b| ==> !CodeAt(b, j)
    ensures FirstCode(b, i) == |b|
  {
  }

  /** The units after a start code found at `c`; empty ones are passed over. */
  function SplitFrom(b: bytes, c: Code): seq<bytes>
    requires c.at + c.size <= |b| && c.size > 0
    decreases |b| - c.at
  {
    var body := c.at + c.size;
    var next := FindStartCode(b, body);
    if next.None? then if body < |b| then [b[body..]] else []
    else (if body < next.value.at then [b[body..next.value.at]] else []) + SplitFrom(b, next.value)
  }

  function SplitFrame(b: bytes): seq<bytes> {
    var c := FindStartCode(b, 0);
    if c.None? then [] else SplitFrom(b, c.value)
  }

  predicate Clean(nal: bytes) {
    forall i :: 0 <= i < |nal| ==> !CodeAt(nal, i)
  }

  const START: bytes := [0, 0, 0, 1]

  function Join(nals: seq<bytes>): bytes {
    if nals == [] then [] else START + nals[0] + Join(nals[1..])
  }

  predicate AllClean(nals: seq<bytes>) {
    forall i :: 0 <= i < |nals| ==> nals[i] != [] && Clean(nals[i])
  }

  /** What comes after a unit in a joined stream: nothing, or another start code. */
  predicate Follows(rest: bytes) {
    rest == [] || (|rest| >= 4 && rest[..4] == START)
  }

  lemma {:induction false} JoinFollows(nals: seq<bytes>)
    ensures Follows(Join(nals))
  {
    if nals != [] {
      assert Join(nals)[..4] == START;
    }
  }

  lemma {:induction false} JoinEmpty(nals: seq<bytes>)
    ensures Join(nals) == [] ==> nals == []
  {
  }

  /** Within a clean unit there is no code; right behind it stands the next. */
  lemma {:induction false} NoCodeInside(before: bytes, nal: bytes, rest: bytes, j: nat)
    requires nal != [] && Clean(nal) && Follows(rest) && |before| <= j <= |before| + |nal|
    ensures !CodeAt(before + nal + rest, j)
  {
    var b, i := before + nal + rest, j - |before|;
    if i + 3 <= |nal| {
      assert b[j] == nal[i] && b[j + 1] == nal[i + 1] && b[j + 2] == nal[i + 2];
      assert !CodeAt(nal, i);
    } else if rest != [] {
      assert b[j + 2] == rest[..4][i + 2 - |nal|] == 0;
    }
  }

  lemma {:induction false} NextAfter(before: bytes, nal: bytes, rest: bytes)
    requires nal != [] && Clean(nal) && Follows(rest)
    ensures var b := before + nal + rest;
      FindStartCode(b, |before|) == if rest == [] then None else Some(Code(|before| + |nal|, 4))
  {
    var b, n := before + nal + rest, |before| + |nal|;
    forall j | |before| <= j <= n
      ensures !CodeAt(b, j)
    {
      NoCodeInside(before, nal, rest, j);
    }
    if rest == [] {
      FirstCodeNone(b, |before|);
    } else {
      assert b[n..n + 4] == rest[..4] == START;
      assert b[n] == 0 && b[n + 1] == 0 && b[n + 2] == 0 && b[n + 3] == 1;
      assert CodeAt(b, n + 1);
      FirstCodeIs(b, |before|, n + 1);
    }
  }

  lemma {:induction false} SplitIs(b: bytes, c: Code)
    requires c.at + c.size <= |b| && c.size > 0
    ensures var body := c.at + c.size; var next := FindStartCode(b, body);
      && (next.Some? ==> next.value.at + next.value.size <= |b| && next.value.size > 0 && body <= next.value.at)
      && SplitFrom(b, c) ==
        if next.None? then if body < |b| then [b[body..]] else []
        else (if body < next.value.at then [b[body..next.value.at]] else []) + SplitFrom(b, next.value)
  {
    hide FirstCode;
  }

  lemma {:induction false} SplitJoined(before: bytes, nals: seq<bytes>)
    requires AllClean(nals) && nals != []
    ensures |before| + 4 <= |before + Join(nals)| && SplitFrom(before + Join(nals), Code(|before|, 4)) == nals
    decreases |nals|
  {
    hide Clean, FindStartCode, Follows, SplitFrom, Join;
    var nal, rest := nals[0], Join(nals[1..]);
    var b := before + Join(nals);
    JoinIs(nals);
    Regroup(before, nal, rest);
    JoinFollows(nals[1..]);
    assert nal != [] && Clean(nal);
    NextAfter(before + START, nal, rest);
    SplitIs(b, Code(|before|, 4));
    JoinEmpty(nals[1..]);
    if rest == [] {
      assert nals == [nal];
    } else {
      SplitJoined(before + START + nal, nals[1..]);
      assert nals == [nal] + nals[1..];
    }
  }

  lemma {:induction false} JoinIs(nals: seq<bytes>)
    requires nals != []
    ensures Join(nals) == START + nals[0] + Join(nals[1..])
    ensures nals[1..] == [] ==> Join(nals[1..]) == []
  {
  }

  lemma {:induction false} Regroup(before: bytes, nal: bytes, rest: bytes)
    ensures var b := before + (START + nal + rest); var body := |before| + 4;
      && b == (before + START) + nal + rest && b == (before + START + nal) + rest
      && b[body..body + |nal|] == nal && (rest == [] ==> b[body..] == nal)
  {
  }

  lemma {:induction false} CleanConcat(a: seq<bytes>, b: seq<bytes>)
    requires AllClean(a) && AllClean(b)
    ensures AllClean(a + b)
  {
  }

  /** No unit handed out ever holds a start code. */
  lemma {:induction false} PiecesClean(b: bytes, c: Code)
    requires c.at + c.size <= |b| && c.size > 0
    ensures AllClean(SplitFrom(b, c))
    decreases |b| - c.at
  {
    hide Clean, FindStartCode, SplitFrom, AllClean;
    var body := c.at + c.size;
    var next := FindStartCode(b, body);
    SplitIs(b, c);
    PieceClean(b, body);
    if next.Some? {
      PiecesClean(b, next.value);
      OneClean(b[body..next.value.at]);
      CleanConcat(if body < next.value.at then [b[body..next.value.at]] else [], SplitFrom(b, next.value));
    } else {
      assert b[body..|b|] == b[body..];
      OneClean(b[body..]);
    }
  }

  lemma {:induction false} OneClean(piece: bytes)
    requires Clean(piece)
    ensures AllClean([]) && (piece != [] ==> AllClean([piece]))
  {
    hide Clean;
  }

  lemma {:induction false} PieceClean(b: bytes, body: nat)
    requires body <= |b|
    ensures Clean(b[body..if FindStartCode(b, body).Some? then FindStartCode(b, body).value.at else |b|])
  {
    var next := FindStartCode(b, body);
    var end := if next.Some? then next.value.at else |b|;
    var piece := b[body..end];
    if body < |b| {
      forall i | 0 <= i < |piece|
        ensures !CodeAt(piece, i)
      {
        if i + 3 <= |piece| {
          assert body + i < FirstCode(b, body);
          assert !CodeAt(b, body + i);
          assert piece[i] == b[body + i] && piece[i + 1] == b[body + i + 1] && piece[i + 2] == b[body + i + 2];
        }
      }
    }
  }

  /** Units joined with four byte start codes come apart again exactly when none is empty or holds a start code. */
  lemma {:induction false} SplitJoinIff(nals: seq<bytes>)
    ensures SplitFrame(Join(nals)) == nals <==> AllClean(nals)
  {
    hide Clean;
    var b := Join(nals);
    if AllClean(nals) {
      if nals != [] {
        FirstStart(nals);
        SplitJoined([], nals);
        assert [] + b == b;
      }
    } else if FindStartCode(b, 0).Some? {
      PiecesClean(b, FindStartCode(b, 0).value);
    }
  }

  lemma {:induction false} FirstStart(nals: seq<bytes>)
    requires nals != []
    ensures FindStartCode(Join(nals), 0) == Some(Code(0, 4))
  {
    var b := Join(nals);
    assert b[..4] == START;
    assert b[0] == 0 && b[1] == 0 && b[2] == 0 && b[3] == 1;
    assert !CodeAt(b, 0) && CodeAt(b, 1);
    FirstCodeIs(b, 0, 1);
  }

  // ---------------------------------------------------------------------------
  // A stream read in pieces
  // ---------------------------------------------------------------------------

  /** Zeros behind a unit belong to no unit. */
  function Trimmed(nal: bytes): (t: bytes)
    ensures |t| <= |nal| && t == nal[..|t|] && (t != [] ==> t[|t| - 1] != 0)
  {
    if nal == [] || nal[|nal| - 1] != 0 then
      assert nal[..|nal|] == nal;
      nal
    else
      var t := Trimmed(nal[..|nal| - 1]);
      assert nal[..|nal| - 1][..|t|] == nal[..|t|];
      t
  }

  /** The next unit of a whole stream, and the stream from the start code behind it. */
  function NextNal(b: bytes): Option<(bytes, bytes)>
    decreases |b|
  {
    var start := FindStartCode(b, 0);
    if start.None? then None
    else
      var body := start.value.at + start.value.size;
      var end := FindStartCode(b, body);
      if end.None? then
        var nal := Trimmed(b[body..]);
        if nal == [] then None else Some((nal, []))
      else
        var nal, rest := Trimmed(b[body..end.value.at]), b[end.value.at..];
        if nal == [] then NextNal(rest) else Some((nal, rest))
  }

  lemma {:induction false} CodeFits(b: bytes, offset: nat)
    ensures FindStartCode(b, offset).Some? ==>
      var c := FindStartCode(b, offset).value; offset <= c.at && c.at + c.size <= |b| && 3 <= c.size
  {
    hide FirstCode;
  }

  lemma {:induction false} NextNalShrinks(b: bytes)
    ensures NextNal(b).Some? ==> |NextNal(b).value.1| < |b| && NextNal(b).value.0 != []
    decreases |b|
  {
    hide Trimmed, FindStartCode;
    var start := FindStartCode(b, 0);
    if start.Some? {
      CodeFits(b, 0);
      var body := start.value.at + start.value.size;
      var end := FindStartCode(b, body);
      CodeFits(b, body);
      if end.Some? {
        NextNalShrinks(b[end.value.at..]);
      }
    }
  }

  function ScanAll(b: bytes): seq<bytes>
    decreases |b|
  {
    var one := NextNal(b);
    NextNalShrinks(b);
    if one.None? then [] else [one.value.0] + ScanAll(one.value.1)
  }

  predicate Untrailed(nals: seq<bytes>) {
    forall i :: 0 <= i < |nals| ==> nals[i] != [] && nals[i][|nals[i]| - 1] != 0
  }

  lemma {:induction false} TrimmedNothing(nal: bytes)
    requires nal != [] && nal[|nal| - 1] != 0
    ensures Trimmed(nal) == nal
  {
  }

  lemma {:induction false} NextJoined(nals: seq<bytes>)
    requires AllClean(nals) && Untrailed(nals) && nals != []
    ensures NextNal(Join(nals)) == Some((nals[0], Join(nals[1..])))
  {
    hide FirstCode, Clean, FindStartCode, Trimmed;
    var b, rest := Join(nals), Join(nals[1..]);
    FirstStart(nals);
    JoinFollows(nals[1..]);
    assert b == START + nals[0] + rest;
    assert nals[0] != [] && Clean(nals[0]);
    NextAfter(START, nals[0], rest);
    TrimmedNothing(nals[0]);
    if rest == [] {
      assert b[4..] == nals[0];
    } else {
      assert b[4..4 + |nals[0]|] == nals[0] && b[4 + |nals[0]|..] == rest;
    }
  }

  lemma {:induction false} ScanJoined(nals: seq<bytes>)
    requires AllClean(nals) && Untrailed(nals)
    ensures ScanAll(Join(nals)) == nals
    decreases |nals|
  {
    hide NextNal, Clean;
    if nals == [] {
      NothingNext();
    } else {
      NextJoined(nals);
      ScanJoined(nals[1..]);
      assert nals == [nals[0]] + nals[1..];
    }
  }

  lemma {:induction false} NothingNext()
    ensures NextNal([]) == None
  {
  }

  /** A trimmed piece of the stream: no start code inside, no zero at its end. */
  lemma {:induction false} NextNalClean(b: bytes)
    ensures NextNal(b).Some? ==> var nal := NextNal(b).value.0; nal != [] && nal[|nal| - 1] != 0 && Clean(nal)
    decreases |b|
  {
    hide FirstCode, Trimmed, Clean, FindStartCode;
    var start := FindStartCode(b, 0);
    if start.Some? {
      CodeFits(b, 0);
      var body := start.value.at + start.value.size;
      var end := FindStartCode(b, body);
      CodeFits(b, body);
      PieceClean(b, body);
      if end.Some? {
        CleanPrefix(b[body..end.value.at], Trimmed(b[body..end.value.at]));
        NextNalClean(b[end.value.at..]);
      } else {
        assert b[body..|b|] == b[body..];
        CleanPrefix(b[body..], Trimmed(b[body..]));
      }
    }
  }

  lemma {:induction false} CleanPrefix(nal: bytes, t: bytes)
    requires Clean(nal) && |t| <= |nal| && t == nal[..|t|]
    ensures Clean(t)
  {
    forall i | 0 <= i < |t|
      ensures !CodeAt(t, i)
    {
      assert !CodeAt(nal, i);
    }
  }

  lemma {:induction false} ScannedClean(b: bytes)
    ensures AllClean(ScanAll(b)) && Untrailed(ScanAll(b))
    decreases |b|
  {
    hide NextNal, Clean;
    NextNalClean(b);
    NextNalShrinks(b);
    if NextNal(b).Some? {
      ScannedClean(NextNal(b).value.1);
    }
  }

  /** A scanned stream gives its units exactly when none is empty, holds a start code or ends in a zero. */
  lemma {:induction false} ScanJoinIff(nals: seq<bytes>)
    ensures ScanAll(Join(nals)) == nals <==> AllClean(nals) && Untrailed(nals)
  {
    hide ScanAll, Join;
    if AllClean(nals) && Untrailed(nals) {
      ScanJoined(nals);
    } else {
      ScannedClean(Join(nals));
    }
  }

  // ---------------------------------------------------------------------------
  // Length prefixes
  // ---------------------------------------------------------------------------

  /** Delimiters and parameter sets are left out. */
  predicate Dropped(nal: bytes, h265: bool)
    requires nal != []
  {
    if h265 then var t := nal[0] as int / 2 % 0x40; t == 32 || t == 33 || t == 34 || t == 35
    else var t := nal[0] as int % 0x20; t == 7 || t == 8 || t == 9
  }

  /** The units of a random access picture. */
  predicate Random(nal: bytes, h265: bool)
    requires nal != []
  {
    if h265 then 16 <= nal[0] as int / 2 % 0x40 <= 21 else nal[0] as int % 0x20 == 5
  }

  predicate NoneEmpty(nals: seq<bytes>) {
    forall i :: 0 <= i < |nals| ==> nals[i] != []
  }

  function Kept(nals: seq<bytes>, h265: bool): (k: seq<bytes>)
    requires NoneEmpty(nals)
    ensures NoneEmpty(k)
  {
    if nals == [] then []
    else (if Dropped(nals[0], h265) then [] else [nals[0]]) + Kept(nals[1..], h265)
  }

  function Prefixed(nals: seq<bytes>): bytes {
    if nals == [] then [] else PutU32(|nals[0]| % TWO_32) + nals[0] + Prefixed(nals[1..])
  }

  lemma {:induction false} SplitNoneEmpty(b: bytes)
    ensures NoneEmpty(SplitFrame(b))
  {
    hide Clean;
    if FindStartCode(b, 0).Some? {
      PiecesClean(b, FindStartCode(b, 0).value);
    }
  }

  function AnnexBToLengthPrefixed(au: bytes, h265: bool): bytes {
    SplitNoneEmpty(au);
    Prefixed(Kept(SplitFrame(au), h265))
  }

  function BigEndian(b: bytes): nat {
    if b == [] then 0 else BigEndian(b[..|b| - 1]) * 0x100 + b[|b| - 1] as int
  }

  function LengthPrefixedToAnnexB(block: bytes, nalLen: nat): Option<bytes>
    requires nalLen > 0
    decreases |block|
  {
    if block == [] then Some([])
    else if |block| < nalLen then None
    else
      var n, rest := BigEndian(block[..nalLen]), block[nalLen..];
      if n > |rest| then None
      else
        var more := LengthPrefixedToAnnexB(rest[n..], nalLen);
        if more.None? then None else Some(START + rest[..n] + more.value)
  }

  predicate Short(nals: seq<bytes>) {
    forall i :: 0 <= i < |nals| ==> |nals[i]| < TWO_32
  }

  lemma {:induction false} FourBytes(v: u32)
    ensures BigEndian(PutU32(v)) == v
  {
    var b := PutU32(v);
    U32RoundTrip(v, []);
    assert b + [] == b;
    assert b[..3][..2] == b[..2] && b[..2][..1] == b[..1] && b[..1][..0] == [];
    assert BigEndian(b[..1]) == b[0];
    assert BigEndian(b[..2]) == b[0] as int * 0x100 + b[1] as int;
    assert BigEndian(b[..3]) == (b[0] as int * 0x100 + b[1] as int) * 0x100 + b[2] as int;
  }

  lemma {:induction false} PrefixRoundTrip(nals: seq<bytes>)
    requires Short(nals)
    ensures LengthPrefixedToAnnexB(Prefixed(nals), 4) == Some(Join(nals))
    decreases |nals|
  {
    hide BigEndian, PutU32;
    if nals != [] {
      var n, more := |nals[0]|, Prefixed(nals[1..]);
      assert n < TWO_32;
      var block := Prefixed(nals);
      assert block == PutU32(n) + (nals[0] + more);
      FourBytes(n);
      assert block[..4] == PutU32(n) && block[4..] == nals[0] + more;
      assert (nals[0] + more)[..n] == nals[0] && (nals[0] + more)[n..] == more;
      PrefixRoundTrip(nals[1..]);
    }
  }

  lemma {:induction false} KeptShort(nals: seq<bytes>, h265: bool)
    requires NoneEmpty(nals) && Short(nals)
    ensures Short(Kept(nals, h265))
  {
    if nals != [] {
      KeptShort(nals[1..], h265);
    }
  }

  /** Whatever the access unit, going to length prefixes and back joins the units that are kept. */
  lemma {:induction false} ThereAndBack(au: bytes, h265: bool)
    requires Short(SplitFrame(au))
    ensures NoneEmpty(SplitFrame(au))
    ensures LengthPrefixedToAnnexB(AnnexBToLengthPrefixed(au, h265), 4) == Some(Join(Kept(SplitFrame(au), h265)))
  {
    SplitNoneEmpty(au);
    KeptShort(SplitFrame(au), h265);
    PrefixRoundTrip(Kept(SplitFrame(au), h265));
  }

  lemma {:induction false} KeptAll(nals: seq<bytes>, h265: bool)
    requires NoneEmpty(nals)
    ensures |Kept(nals, h265)| <= |nals|
    ensures Kept(nals, h265) == nals <==> forall i :: 0 <= i < |nals| ==> !Dropped(nals[i], h265)
  {
    hide Dropped;
    if nals != [] {
      KeptAll(nals[1..], h265);
      if !Dropped(nals[0], h265) {
        assert Kept(nals, h265)[1..] == Kept(nals[1..], h265);
      }
    }
  }

  /** An access unit of well formed units comes back as it was exactly when nothing in it is left out. */
  lemma {:induction false} ThereAndBackIff(nals: seq<bytes>, h265: bool)
    requires AllClean(nals) && Short(nals)
    ensures LengthPrefixedToAnnexB(AnnexBToLengthPrefixed(Join(nals), h265), 4) == Some(Join(nals))
      <==> forall i :: 0 <= i < |nals| ==> !Dropped(nals[i], h265)
  {
    hide SplitFrame, Kept, LengthPrefixedToAnnexB, AnnexBToLengthPrefixed, Join, Dropped, Clean;
    SplitJoinIff(nals);
    ThereAndBack(Join(nals), h265);
    KeptAll(nals, h265);
    if Join(Kept(nals, h265)) == Join(nals) {
      KeptClean(nals, h265);
      SplitJoinIff(Kept(nals, h265));
    }
  }

  lemma {:induction false} KeptClean(nals: seq<bytes>, h265: bool)
    requires AllClean(nals) && NoneEmpty(nals)
    ensures AllClean(Kept(nals, h265))
  {
    hide Clean, Dropped;
    if nals != [] {
      KeptClean(nals[1..], h265);
    }
  }
}
