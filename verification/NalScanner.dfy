/** Cutting an Annex-B stream into NAL units as its bytes arrive, and the loops over a whole buffer. */
module NalScanner {
  import opened Bytes
  import opened Wrappers
  import opened NalFraming

  const MAX_NALU := 64 * 0x10_0000

  /** How many bytes one read asks for. */
  const READ_SIZE := 64 * 0x400

  lemma {:induction false} FirstCodeMore(b: bytes, more: bytes, i: nat)
    requires i <= |b| && FirstCode(b, i) < |b|
    ensures FirstCode(b + more, i) == FirstCode(b, i)
  {
    var k := FirstCode(b, i);
    assert CodeAt(b + more, k);
    forall j | i <= j < k
      ensures !CodeAt(b + more, j)
    {
      assert !CodeAt(b, j);
    }
    FirstCodeIs(b + more, i, k);
  }

  /** A start code found stays where it is when more bytes arrive. */
  lemma {:induction false} CodeStays(b: bytes, more: bytes, offset: nat)
    requires FindStartCode(b, offset).Some?
    ensures FindStartCode(b + more, offset) == FindStartCode(b, offset)
  {
    FirstCodeMore(b, more, offset);
  }

  lemma {:induction false} WholeUnit(b: bytes, more: bytes)
    requires FindStartCode(b, 0).Some?
    requires var s := FindStartCode(b, 0).value; FindStartCode(b, s.at + s.size).Some?
    ensures var s := FindStartCode(b, 0).value; var end := FindStartCode(b, s.at + s.size).value;
      var nal := Trimmed(b[s.at + s.size..end.at]);
      NextNal(b + more) == if nal == [] then NextNal(b[end.at..] + more) else Some((nal, b[end.at..] + more))
  {
    hide FindStartCode, Trimmed, NextNal;
    var s := FindStartCode(b, 0).value;
    var body := s.at + s.size;
    var end := FindStartCode(b, body).value;
    CodeFits(b, 0);
    CodeFits(b, body);
    CodeStays(b, more, 0);
    CodeStays(b, more, body);
    Within(b, more, body, end.at);
    NextIs(b + more);
  }

  lemma {:induction false} Within(b: bytes, more: bytes, i: nat, j: nat)
    requires i <= j <= |b|
    ensures (b + more)[i..j] == b[i..j] && (b + more)[j..] == b[j..] + more
  {
  }

  lemma {:induction false} NextIs(b: bytes)
    requires FindStartCode(b, 0).Some?
    requires var s := FindStartCode(b, 0).value; FindStartCode(b, s.at + s.size).Some?
    ensures var s := FindStartCode(b, 0).value; var end := FindStartCode(b, s.at + s.size).value;
      && s.at + s.size <= end.at <= |b|
      && var nal := Trimmed(b[s.at + s.size..end.at]);
         NextNal(b) == if nal == [] then NextNal(b[end.at..]) else Some((nal, b[end.at..]))
  {
    hide FindStartCode, Trimmed;
    var s := FindStartCode(b, 0).value;
    CodeFits(b, 0);
    CodeFits(b, s.at + s.size);
  }

  /** A unit and the start codes on both sides of it. */
  predicate WholeUnitIn(b: bytes) {
    var start := FindStartCode(b, 0);
    start.Some? && FindStartCode(b, start.value.at + start.value.size).Some?
  }

  /** Where the start code behind the first unit lies. */
  function UnitEnd(b: bytes): (end: nat)
    requires WholeUnitIn(b)
    ensures 0 < end < |b|
  {
    var start := FindStartCode(b, 0);
    CodeFits(b, 0);
    var body := start.value.at + start.value.size;
    CodeFits(b, body);
    FindStartCode(b, body).value.at
  }

  /** There is nothing but zeros between the two start codes. */
  predicate UnitEmpty(b: bytes)
    requires WholeUnitIn(b)
  {
    var start := FindStartCode(b, 0).value;
    CodeFits(b, 0);
    CodeFits(b, start.at + start.size);
    Trimmed(b[start.at + start.size..UnitEnd(b)]) == []
  }

  /**
   * The next unit does not end within the first `cap` bytes, which the stream does hold: no start
   * code, or no second one, is complete there. Empty units are passed over.
   */
  predicate Unended(b: bytes, cap: nat)
    decreases |b|
  {
    |b| >= cap && (WholeUnitIn(b[..cap]) ==> UnitEmpty(b[..cap]) && Unended(b[UnitEnd(b[..cap])..], cap))
  }

  /** Some unit of the stream does not. */
  predicate SomeUnended(b: bytes, cap: nat)
    decreases |b|
  {
    NextNalShrinks(b);
    Unended(b, cap) || (NextNal(b).Some? && SomeUnended(NextNal(b).value.1, cap))
  }

  lemma {:induction false} UnitStays(b: bytes, more: bytes)
    requires WholeUnitIn(b)
    ensures WholeUnitIn(b + more) && UnitEnd(b + more) == UnitEnd(b) && UnitEmpty(b + more) == UnitEmpty(b)
  {
    hide FirstCode, FindStartCode, Trimmed;
    var s := FindStartCode(b, 0).value;
    CodeFits(b, 0);
    CodeFits(b, s.at + s.size);
    CodeStays(b, more, 0);
    CodeStays(b, more, s.at + s.size);
    assert (b + more)[s.at + s.size..UnitEnd(b)] == b[s.at + s.size..UnitEnd(b)];
  }

  /** A unit found in both of two prefixes of a stream is the same. */
  lemma {:induction false} UnitInPrefix(b: bytes, n: nat)
    requires n <= |b| && WholeUnitIn(b[..n])
    ensures WholeUnitIn(b) && UnitEnd(b) == UnitEnd(b[..n]) && UnitEmpty(b) == UnitEmpty(b[..n])
  {
    hide WholeUnitIn, UnitEnd, UnitEmpty;
    UnitStays(b[..n], b[n..]);
    assert b[..n] + b[n..] == b;
  }

  lemma {:induction false} UnendedIs(b: bytes, cap: nat)
    ensures Unended(b, cap) <==>
      |b| >= cap && (WholeUnitIn(b[..cap]) ==> UnitEmpty(b[..cap]) && Unended(b[UnitEnd(b[..cap])..], cap))
  {
  }

  /** What a unit in the buffer tells about the stream behind the buffer. */
  lemma {:induction false} UnendedBehind(b: bytes, n: nat, cap: nat)
    requires n <= |b| && WholeUnitIn(b[..n])
    ensures WholeUnitIn(b) && 0 < UnitEnd(b) <= n
    ensures UnitEmpty(b) && Unended(b[UnitEnd(b)..], cap) ==> Unended(b, cap)
    ensures n <= cap && Unended(b, cap) ==> UnitEmpty(b) && Unended(b[UnitEnd(b)..], cap)
  {
    hide WholeUnitIn, UnitEnd, UnitEmpty, Unended;
    UnitInPrefix(b, n);
    UnendedIs(b, cap);
    UnendedIs(b[UnitEnd(b)..], cap);
    if |b| >= cap {
      if WholeUnitIn(b[..cap]) {
        UnitInPrefix(b, cap);
      } else if n <= cap {
        assert b[..cap][..n] == b[..n];
        UnitInPrefix(b[..cap], n);
      }
    }
  }

  /** A full buffer without a whole unit. */
  lemma {:induction false} UnendedNow(b: bytes, n: nat, cap: nat)
    requires cap <= n <= |b| && !WholeUnitIn(b[..n])
    ensures Unended(b, cap)
  {
    hide WholeUnitIn, UnitEnd, UnitEmpty;
    if WholeUnitIn(b[..cap]) {
      assert b[..n][..cap] == b[..cap];
      UnitInPrefix(b[..n], cap);
    }
  }

  class NalScanner {
    /** What the reader will still return, read by read. */
    var source: seq<bytes>
    var buf: bytes
    var eof: bool

    ghost predicate Valid()
      reads this
    {
      eof ==> source == []
    }

    /** All bytes not handed out yet. */
    ghost function Rest(): bytes
      reads this
    {
      buf + Concat(source)
    }

    /** No more is buffered than the cap and one read allow. */
    ghost predicate Small()
      reads this
    {
      |buf| <= MAX_NALU + READ_SIZE && SmallReads(source)
    }

    constructor (source: seq<bytes>)
      ensures Valid() && Rest() == Concat(source) && (SmallReads(source) ==> Small())
    {
      this.source, buf, eof := source, [], false;
    }

    method Read()
      requires Valid()
      modifies this
      ensures Valid() && Rest() == old(Rest())
      ensures if old(source) == [] then eof && source == [] else eof == old(eof) && source == old(source)[1..]
      ensures old(Small()) && |old(buf)| <= MAX_NALU ==> Small()
    {
      if |source| == 0 {
        eof := true;
      } else {
        assert buf + (source[0] + Concat(source[1..])) == (buf + source[0]) + Concat(source[1..]);
        buf := buf + source[0];
        source := source[1..];
      }
    }

    /**
     * The next unit: whatever the reads, the one the whole stream holds next; None once it is used
     * up. The scan stops only at a unit that does not end within the cap, and does stop at one that
     * does not end within the cap and one read.
     */
    method Next() returns (nal: Option<bytes>, tooLarge: bool)
      requires Valid()
      modifies this
      ensures Valid() && (old(Small()) ==> Small())
      ensures tooLarge ==> Unended(old(Rest()), MAX_NALU + 1)
      ensures old(Small()) && Unended(old(Rest()), MAX_NALU + READ_SIZE + 1) ==> tooLarge
      ensures !tooLarge ==> var n := NextNal(old(Rest()));
        if n.None? then nal == None else nal == Some(n.value.0) && Rest() == n.value.1
    {
      hide FindStartCode, Trimmed, NextNal, Unended;
      ghost var whole := NextNal(Rest());
      while true
        invariant Valid() && NextNal(Rest()) == whole && (old(Small()) ==> Small())
        invariant Unended(Rest(), MAX_NALU + 1) ==> Unended(old(Rest()), MAX_NALU + 1)
        invariant old(Small()) && Unended(old(Rest()), MAX_NALU + READ_SIZE + 1) ==> Unended(Rest(), MAX_NALU + READ_SIZE + 1)
        decreases |source|, !eof, |buf|
      {
        assert Rest()[..|buf|] == buf;
        var start := FindStartCode(buf, 0);
        if start.Some? {
          CodeFits(buf, 0);
          var body := start.value.at + start.value.size;
          var end := FindStartCode(buf, body);
          if end.Some? {
            CodeFits(buf, body);
            WholeUnit(buf, Concat(source));
            UnitStays(buf, Concat(source));
            UnendedBehind(Rest(), |buf|, MAX_NALU + 1);
            UnendedBehind(Rest(), |buf|, MAX_NALU + READ_SIZE + 1);
            assert Rest()[end.value.at..] == buf[end.value.at..] + Concat(source);
            var unit := Trimmed(buf[body..end.value.at]);
            buf := buf[end.value.at..];
            if |unit| > 0 {
              return Some(unit), false;
            }
            continue;
          }
          if eof {
            LastUnit(buf);
            assert Rest() == buf;
            UnendedShort(buf, MAX_NALU + READ_SIZE + 1);
            var unit := Trimmed(buf[body..]);
            buf := [];
            assert [] + Concat(source) == [];
            if |unit| > 0 {
              return Some(unit), false;
            }
            return None, false;
          }
        } else if eof {
          LastUnit(buf);
          assert Rest() == buf;
          UnendedShort(buf, MAX_NALU + READ_SIZE + 1);
          return None, false;
        }
        if |buf| > MAX_NALU {
          UnendedNow(Rest(), |buf|, MAX_NALU + 1);
          return None, true;
        }
        Read();
      }
      return None, false;
    }
  }

  lemma {:induction false} UnendedShort(b: bytes, cap: nat)
    ensures Unended(b, cap) ==> |b| >= cap
  {
  }

  predicate SmallReads(source: seq<bytes>) {
    forall i :: 0 <= i < |source| ==> |source[i]| <= READ_SIZE
  }

  lemma {:induction false} LastUnit(b: bytes)
    ensures FindStartCode(b, 0).None? ==> NextNal(b) == None
    ensures FindStartCode(b, 0).Some? ==>
      var s := FindStartCode(b, 0).value; var body := s.at + s.size;
      body <= |b| && (FindStartCode(b, body).None? ==>
        NextNal(b) == var nal := Trimmed(b[body..]); if nal == [] then None else Some((nal, [])))
  {
    hide FirstCode, Trimmed;
    CodeFits(b, 0);
  }

  /** Units that end within the cap, the start codes on both sides included. */
  predicate WithinCap(nals: seq<bytes>) {
    forall i :: 0 <= i < |nals| ==> |nals[i]| <= MAX_NALU - 7
  }

  lemma {:induction false} OneUnit(nal: bytes)
    requires nal != [] && Clean(nal) && nal[|nal| - 1] != 0
    ensures WholeUnitIn(START + nal + START) && !UnitEmpty(START + nal + START)
  {
    hide FirstCode, Clean, FindStartCode, Trimmed, UnitEnd;
    var b := START + nal + START;
    assert Join([nal]) == START + nal by {
      assert [nal][1..] == [] && START + nal + [] == START + nal;
    }
    FirstStart([nal]);
    CodeStays(START + nal, START, 0);
    NextAfter(START, nal, START);
    assert b[4..4 + |nal|] == nal;
    TrimmedNothing(nal);
    UnitEndIs(b);
  }

  lemma {:induction false} UnitEndIs(b: bytes)
    requires WholeUnitIn(b)
    ensures var s := FindStartCode(b, 0).value; UnitEnd(b) == FindStartCode(b, s.at + s.size).value.at
  {
  }

  lemma {:induction false} JoinedUnit(nals: seq<bytes>)
    requires AllClean(nals) && Untrailed(nals) && |nals| > 1
    ensures var n := 8 + |nals[0]|;
      n <= |Join(nals)| && WholeUnitIn(Join(nals)[..n]) && !UnitEmpty(Join(nals)[..n])
  {
    hide Clean, WholeUnitIn, UnitEmpty, Join;
    var nal, next := nals[0], nals[1..];
    JoinIs(nals);
    JoinIs(next);
    var b, rest := START + nal + START, next[0] + Join(next[1..]);
    assert START + nal + (START + next[0] + Join(next[1..])) == b + rest;
    assert Join(nals)[..8 + |nal|] == b;
    assert nal != [] && Clean(nal);
    OneUnit(nal);
  }

  /** A joined stream of such units has none that goes on too long. */
  lemma {:induction false} JoinedEnds(nals: seq<bytes>)
    requires AllClean(nals) && Untrailed(nals) && WithinCap(nals)
    ensures !SomeUnended(Join(nals), MAX_NALU + 1)
    decreases |nals|
  {
    hide NextNal, Clean, Unended, WholeUnitIn, UnitEmpty, UnitEnd;
    var b := Join(nals);
    UnendedShort(b, MAX_NALU + 1);
    NextNalShrinks(b);
    if nals == [] {
      NothingNext();
    } else {
      NextJoined(nals);
      JoinedEnds(nals[1..]);
      JoinIs(nals);
      if |nals| > 1 {
        var n := 8 + |nals[0]|;
        JoinedUnit(nals);
        UnitInPrefix(b, n);
        UnendedBehind(b, n, MAX_NALU + 1);
      } else {
        assert nals[1..] == [];
      }
    }
  }

  /**
   * All units of a stream, however it is read. The scan stops only at a unit that goes on beyond
   * the cap, so units within it all come back, however long the stream.
   */
  method ScanStream(source: seq<bytes>) returns (nals: seq<bytes>, tooLarge: bool)
    ensures tooLarge ==> SomeUnended(Concat(source), MAX_NALU + 1)
    ensures SmallReads(source) && SomeUnended(Concat(source), MAX_NALU + READ_SIZE + 1) ==> tooLarge
    ensures !tooLarge ==> nals == ScanAll(Concat(source))
    ensures forall units ::
      (Concat(source) == Join(units) && AllClean(units) && Untrailed(units) && WithinCap(units) ==>
        !tooLarge && nals == units)
  {
    hide NextNal, Unended, SomeUnended, Clean;
    var s := new NalScanner(source);
    nals, tooLarge := [], false;
    ghost var all := ScanAll(s.Rest());
    assert [] + all == all;
    while !tooLarge
      invariant fresh(s) && s.Valid() && (SmallReads(source) ==> s.Small())
      invariant !tooLarge ==> nals + ScanAll(s.Rest()) == all
      invariant SomeUnended(s.Rest(), MAX_NALU + 1) || tooLarge ==> SomeUnended(Concat(source), MAX_NALU + 1)
      invariant SmallReads(source) && SomeUnended(Concat(source), MAX_NALU + READ_SIZE + 1) ==>
        SomeUnended(s.Rest(), MAX_NALU + READ_SIZE + 1) || tooLarge
      decreases !tooLarge, |s.Rest()|
    {
      ghost var was := s.Rest();
      NextNalShrinks(was);
      ScanStep(nals, was);
      SomeUnendedIs(was, MAX_NALU + 1);
      SomeUnendedIs(was, MAX_NALU + READ_SIZE + 1);
      var nal, large := s.Next();
      if large {
        tooLarge := true;
      } else if nal.None? {
        break;
      } else {
        nals := nals + [nal.value];
      }
    }
    forall units | Concat(source) == Join(units) && AllClean(units) && Untrailed(units) && WithinCap(units)
      ensures !tooLarge && ScanAll(Concat(source)) == units
    {
      JoinedEnds(units);
      ScanJoined(units);
    }
  }

  lemma {:induction false} SomeUnendedIs(b: bytes, cap: nat)
    ensures SomeUnended(b, cap) <==> Unended(b, cap) || (NextNal(b).Some? && SomeUnended(NextNal(b).value.1, cap))
  {
  }

  lemma {:induction false} ScanStep(nals: seq<bytes>, b: bytes)
    ensures var n := NextNal(b);
      nals + ScanAll(b) == if n.None? then nals else (nals + [n.value.0]) + ScanAll(n.value.1)
  {
    hide NextNal;
    NextNalShrinks(b);
  }

  /** The units of a buffer, start code by start code. */
  method SplitLoop(frames: bytes) returns (nals: seq<bytes>)
    ensures nals == SplitFrame(frames)
  {
    hide FindStartCode;
    nals := [];
    var code := FindStartCode(frames, 0);
    CodeFits(frames, 0);
    ghost var all := SplitFrame(frames);
    if code.Some? {
      assert [] + SplitFrom(frames, code.value) == all;
    }
    while code.Some?
      invariant code.Some? ==> code.value.at + code.value.size <= |frames| && 3 <= code.value.size
      invariant all == nals + if code.Some? then SplitFrom(frames, code.value) else []
      decreases if code.Some? then |frames| - code.value.at else -1
    {
      var body := code.value.at + code.value.size;
      var next := FindStartCode(frames, body);
      CodeFits(frames, body);
      SplitStep(frames, code.value, nals);
      if next.None? {
        if body < |frames| {
          nals := nals + [frames[body..]];
        }
        break;
      }
      if body < next.value.at {
        nals := nals + [frames[body..next.value.at]];
      }
      code := next;
    }
  }

  lemma {:induction false} SplitStep(b: bytes, c: Code, nals: seq<bytes>)
    requires c.at + c.size <= |b| && c.size > 0
    ensures var body := c.at + c.size; var next := FindStartCode(b, body);
      next.Some? ==> next.value.at + next.value.size <= |b| && next.value.size > 0 && body <= next.value.at
    ensures var body := c.at + c.size; var next := FindStartCode(b, body);
      nals + SplitFrom(b, c) ==
        if next.None? then if body < |b| then nals + [b[body..]] else nals
        else (if body < next.value.at then nals + [b[body..next.value.at]] else nals) + SplitFrom(b, next.value)
  {
    hide FindStartCode, SplitFrom;
    SplitIs(b, c);
    var body := c.at + c.size;
    var next := FindStartCode(b, body);
    if next.None? {
      assert nals + [] == nals;
    } else {
      var one := if body < next.value.at then [b[body..next.value.at]] else [];
      assert nals + (one + SplitFrom(b, next.value)) == (nals + one) + SplitFrom(b, next.value);
      assert nals + [] == nals;
    }
  }
}
