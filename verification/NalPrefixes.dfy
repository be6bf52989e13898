/** Turning an access unit into length prefixed units and back, unit by unit. */
module NalPrefixes {
  import opened Bytes
  import opened Wrappers
  import opened NalFraming
  import NalScanner

  /** Also tells whether the access unit is a random access point. */
  method PutPrefixes(au: bytes, h265: bool) returns (out: bytes, key: bool)
    ensures out == AnnexBToLengthPrefixed(au, h265)
    ensures NoneEmpty(SplitFrame(au))
    ensures key <==> exists i :: 0 <= i < |SplitFrame(au)| && Random(SplitFrame(au)[i], h265)
  {
    hide SplitFrame, Prefixed, Kept, PutU32, Dropped, Random;
    SplitNoneEmpty(au);
    var nals := NalScanner.SplitLoop(au);
    out, key := [], false;
    assert nals[0..] == nals;
    for i := 0 to |nals|
      invariant out + Prefixed(Kept(nals[i..], h265)) == Prefixed(Kept(nals, h265))
      invariant key <==> exists j :: 0 <= j < i && Random(nals[j], h265)
    {
      var nal := nals[i];
      KeptStep(nals[i..], h265, out);
      assert nals[i..][1..] == nals[i + 1..];
      if Dropped(nal, h265) {
        NotBoth(nal, h265);
        continue;
      }
      if Random(nal, h265) {
        key := true;
      }
      out := out + PutU32(|nal| % TWO_32);
      out := out + nal;
    }
    KeptNone(h265);
    assert nals[|nals|..] == [] && out + [] == out;
  }

  lemma {:induction false} NotBoth(nal: bytes, h265: bool)
    requires nal != []
    ensures !(Dropped(nal, h265) && Random(nal, h265))
  {
  }

  lemma {:induction false} KeptNone(h265: bool)
    ensures Prefixed(Kept([], h265)) == []
  {
  }

  lemma {:induction false} KeptStep(nals: seq<bytes>, h265: bool, before: bytes)
    requires NoneEmpty(nals) && nals != []
    ensures before + Prefixed(Kept(nals, h265))
            == (if Dropped(nals[0], h265) then before else before + PutU32(|nals[0]| % TWO_32) + nals[0]) + Prefixed(Kept(nals[1..], h265))
  {
    hide PutU32, Dropped;
    var rest := Kept(nals[1..], h265);
    if Dropped(nals[0], h265) {
      assert [] + rest == rest;
    } else {
      assert ([nals[0]] + rest)[1..] == rest;
    }
  }

  /** Nothing is returned for a block cut short inside a length or a unit. */
  method GetAnnexB(block0: bytes, nalLen: nat) returns (r: Option<bytes>)
    requires nalLen > 0
    ensures r == LengthPrefixedToAnnexB(block0, nalLen)
  {
    hide BigEndian, LengthPrefixedToAnnexB;
    var out, block := [], block0;
    ghost var all := LengthPrefixedToAnnexB(block0, nalLen);
    AfterNothing(all);
    while |block| > 0
      invariant all == After(out, LengthPrefixedToAnnexB(block, nalLen))
      decreases |block|
    {
      BlockStep(out, block, nalLen);
      if |block| < nalLen {
        return None;
      }
      var n := GetLength(block[..nalLen]);
      block := block[nalLen..];
      if n > |block| {
        return None;
      }
      out := out + START;
      out := out + block[..n];
      block := block[n..];
    }
    BlockNone(out, nalLen);
    return Some(out);
  }

  method GetLength(b: bytes) returns (n: nat)
    ensures n == BigEndian(b)
  {
    n := 0;
    for i := 0 to |b|
      invariant n == BigEndian(b[..i])
    {
      assert b[..i + 1][..i] == b[..i];
      n := n * 0x100 + b[i] as int;
    }
    assert b[..|b|] == b;
  }

  ghost function After(out: bytes, r: Option<bytes>): Option<bytes> {
    if r.None? then None else Some(out + r.value)
  }

  lemma {:induction false} AfterNothing(r: Option<bytes>)
    ensures After([], r) == r
  {
    assert r.Some? ==> [] + r.value == r.value;
  }

  lemma {:induction false} BlockNone(out: bytes, nalLen: nat)
    requires nalLen > 0
    ensures After(out, LengthPrefixedToAnnexB([], nalLen)) == Some(out)
  {
    assert out + [] == out;
  }

  lemma {:induction false} BlockStep(out: bytes, block: bytes, nalLen: nat)
    requires nalLen > 0 && block != []
    ensures After(out, LengthPrefixedToAnnexB(block, nalLen)) ==
      if |block| < nalLen then None
      else
        var n, rest := BigEndian(block[..nalLen]), block[nalLen..];
        if n > |rest| then None else After(out + START + rest[..n], LengthPrefixedToAnnexB(rest[n..], nalLen))
  {
    hide BigEndian;
    if |block| >= nalLen {
      var n, rest := BigEndian(block[..nalLen]), block[nalLen..];
      if n <= |rest| && LengthPrefixedToAnnexB(rest[n..], nalLen).Some? {
        var more := LengthPrefixedToAnnexB(rest[n..], nalLen).value;
        assert out + (START + rest[..n] + more) == (out + START + rest[..n]) + more;
      }
    }
  }
}
