/** Cutting with the repaired search, which finds the leftmost code of its window: which units come back. */
module LeftmostCut {
  import opened Frames
  import opened StartCodeScan
  import opened NalSplitter
  import opened RoundTrip

  /** The NAL units from octet `start`, the first one behind a code, to the end. */
  function LeftmostFrom(d: seq<byte>, start: nat): (r: seq<seq<byte>>)
    requires start <= |d|
    ensures |r| > 0
    decreases |d| - start
  {
    match Leftmost(d, start)
    case None => [d[start..]]
    case Some(c) => [d[start..c.pos]] + LeftmostFrom(d, c.pos + c.length)
  }

  function LeftmostSplit(d: seq<byte>): seq<seq<byte>> {
    match Leftmost(d, 0)
    case None => []
    case Some(c) => LeftmostFrom(d, c.pos + c.length)
  }

  lemma UnfoldLeftmost(d: seq<byte>, start: nat)
    requires start <= |d|
    ensures Leftmost(d, start) == None ==> LeftmostFrom(d, start) == [d[start..]]
    ensures Leftmost(d, start).Some? ==>
              var c := Leftmost(d, start).value;
              c.pos + c.length <= |d| && LeftmostFrom(d, start) == [d[start..c.pos]] + LeftmostFrom(d, c.pos + c.length)
  {
    hide Leftmost;
  }

  /** The units with the last one fused to the one before it if its code lies outside the window. */
  function LastFused(units: seq<Unit>): (r: seq<seq<byte>>)
    requires |units| > 0
    ensures |r| == |units| <==> |units| == 1 || LastSeen(units)
    ensures |r| <= |units|
    decreases |units|
  {
    if |units| == 1 then [units[0].nal]
    else if |units| == 2 && !LastSeen(units) then [units[0].nal + (CodeOctets(CodeLength(units[1])) + units[1].nal)]
    else [units[0].nal] + LastFused(units[1..])
  }

  lemma {:induction false} LastFusedIff(units: seq<Unit>)
    requires |units| > 0
    ensures |NalsOf(units)| == |units|
    ensures LastFused(units) == NalsOf(units) <==> |units| == 1 || LastSeen(units)
    decreases |units|
  {
    if |units| == 1 {
      assert NalsOf(units[1..]) == [];
    } else {
      LastFusedIff(units[1..]);
    }
  }

  lemma {:induction false} LeftmostUnits(d: seq<byte>, start: nat, units: seq<Unit>)
    requires Framable(units) && EndsIn(d, start, units[0].nal + Encode(units[1..]))
    ensures start <= |d| && LeftmostFrom(d, start) == LastFused(units)
    decreases |units|
  {
    hide *;
    Heads(units);
    LastFusedHead(units);
    if |units| == 1 {
      NoLeftmostInLast(d, start, units[0].nal);
      TailOf(d, start, units[0].nal);
      UnfoldLeftmost(d, start);
    } else if |units| == 2 && !LastSeen(units) {
      LastOutsideWindow(d, start, units);
      UnfoldLeftmost(d, start);
    } else {
      var b := Boundary(d, start, units);
      LeftmostUnits(d, b + CodeLength(units[1]), units[1..]);
      UnfoldLeftmost(d, start);
    }
  }

  lemma LastFusedHead(units: seq<Unit>)
    requires |units| > 0
    ensures |units| == 1 ==> LastFused(units) == [units[0].nal]
    ensures |units| == 2 && !LastSeen(units) ==>
              LastFused(units) == [units[0].nal + (CodeOctets(CodeLength(units[1])) + units[1].nal)]
    ensures |units| > 1 && !(|units| == 2 && !LastSeen(units))
            ==> LastFused(units) == [units[0].nal] + LastFused(units[1..])
  {
    hide LastSeen;
  }

  lemma NoLeftmostInLast(d: seq<byte>, start: nat, nal: seq<byte>)
    requires EndsIn(d, start, nal) && TripleFree(nal)
    ensures start <= |d| && Leftmost(d, start) == None
  {
    var r := Leftmost(d, start);
    if r.Some? {
      NoTripleInside(d, start, nal, r.value.pos + (if r.value.length == 4 then 1 else 0));
    }
  }

  lemma LastOutsideWindow(d: seq<byte>, start: nat, units: seq<Unit>)
    requires Framable(units) && |units| == 2 && !LastSeen(units) && EndsIn(d, start, units[0].nal + Encode(units[1..]))
    ensures start <= |d| && Leftmost(d, start) == None
    ensures d[start..] == units[0].nal + (CodeOctets(CodeLength(units[1])) + units[1].nal)
  {
    hide Leftmost;
    var u := units[1];
    var code := CodeOctets(CodeLength(u));
    Heads(units[1..]);
    var b := start + |units[0].nal|;
    assert EndsIn(d, start, units[0].nal + (code + u.nal));
    Cut(d, start, units[0].nal, code, u.nal);
    assert d[b + 0] == code[0] && d[b + 1] == code[1] && d[b + 2] == code[2];
    var r := Leftmost(d, start);
    if r.Some? {
      NoCodeInside(d, start, units[0].nal, r.value.pos);
    }
    TailOf(d, start, units[0].nal + (code + u.nal));
  }

  lemma LeftmostGives(units: seq<Unit>)
    requires Framable(units)
    ensures LeftmostSplit(Encode(units)) == if |units| == 1 && !LastSeen(units) then [] else LastFused(units)
  {
    hide *;
    Heads(units);
    EncodeLength(units);
    if |units| == 1 && !LastSeen(units) {
      NothingLeftmost(Encode(units));
    } else {
      FirstCode(Encode(units), units[0], units[0].nal + Encode(units[1..]));
      LeftmostUnits(Encode(units), CodeLength(units[0]), units);
      SplitLeftmost(Encode(units));
    }
  }

  lemma SplitLeftmost(d: seq<byte>)
    ensures Leftmost(d, 0).Some? ==>
              var c := Leftmost(d, 0).value;
              c.pos + c.length <= |d| && LeftmostSplit(d) == LeftmostFrom(d, c.pos + c.length)
  {
    hide Leftmost;
  }

  lemma NothingLeftmost(d: seq<byte>)
    requires |d| < 5
    ensures LeftmostSplit(d) == []
  {
  }

  /** With the repaired search, triple-free units behind any mixture of codes come back unchanged if and only if no
      short code stands behind a zero octet and the last code lies inside the window. */
  lemma LeftmostRoundTripIff(units: seq<Unit>)
    requires |units| > 0 && AllTripleFree(units)
    ensures LeftmostSplit(Encode(units)) == NalsOf(units) <==> Distinct(units) && LastSeen(units)
  {
    hide *;
    NormalEncodesTheSame(units);
    NormalIsFramable(units);
    NormalIff(units);
    LeftmostGives(Normal(units));
    LastFusedIff(Normal(units));
    DistinctAlone(units);
  }
}
