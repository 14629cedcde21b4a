/** Framing a list of NAL units with start codes and cutting the result up again. */
module RoundTrip {
  import opened Frames
  import opened StartCodeScan
  import opened NalSplitter

  /** A NAL unit behind a code of four octets (`long`) or of three. */
  datatype Unit = Unit(long: bool, nal: seq<byte>)

  function CodeLength(u: Unit): nat {
    if u.long then 4 else 3
  }

  function Encode(units: seq<Unit>): seq<byte> {
    if units == [] then []
    else CodeOctets(CodeLength(units[0])) + (units[0].nal + Encode(units[1..]))
  }

  function NalsOf(units: seq<Unit>): (r: seq<seq<byte>>) {
    if units == [] then [] else [units[0].nal] + NalsOf(units[1..])
  }

  /** Section 7.4.1 of ITU-T Rec. H.264: no 00 00 01 inside a NAL unit. */
  ghost predicate TripleFree(nal: seq<byte>) {
    forall i: nat :: !Code3At(nal, i)
  }

  lemma PrefixIsTripleFree(nal: seq<byte>, n: nat)
    requires n <= |nal| && TripleFree(nal)
    ensures TripleFree(nal[..n])
  {
    forall i: nat ensures !Code3At(nal[..n], i) {
      assert !Code3At(nal, i);
    }
  }

  /** A short code must not be read as a long one because of a zero octet in front of it. */
  predicate EndsNonZero(nal: seq<byte>) {
    nal == [] || nal[|nal| - 1] != 0
  }

  ghost predicate AllTripleFree(units: seq<Unit>) {
    forall k :: 0 <= k < |units| ==> TripleFree(units[k].nal)
  }

  /** No short code is read as a long one. */
  predicate Distinct(units: seq<Unit>)
    decreases |units|
  {
    |units| > 1 ==> (units[1].long || EndsNonZero(units[0].nal)) && Distinct(units[1..])
  }

  ghost predicate Framable(units: seq<Unit>) {
    |units| > 0 && AllTripleFree(units) && Distinct(units)
  }

  /** The last code lies inside the search window. */
  predicate LastSeen(units: seq<Unit>) {
    |units| > 0 && |units[|units| - 1].nal| + CodeLength(units[|units| - 1]) >= 5
  }

  const SHORT_CODE_AND_MORE: seq<byte> := [0, 0, 1, 0xFF, 0xFF]

  /** A search that starts at the unit's first octet jumps over the short code behind the unit. */
  predicate JumpedOver(nal: seq<byte>) {
    HitsBlindSpot(nal + SHORT_CODE_AND_MORE, 0)
  }

  /** No code between two units is jumped over. */
  predicate Sighted(units: seq<Unit>)
    decreases |units|
  {
    |units| > 1 ==> (units[1].long || !JumpedOver(units[0].nal)) && Sighted(units[1..])
  }

  lemma EncodeLength(units: seq<Unit>)
    requires |units| > 0
    ensures |units| > 1 || LastSeen(units) <==> |Encode(units)| >= 5
  {
    if |units| > 1 {
      assert Encode(units[1..]) == CodeOctets(CodeLength(units[1])) + (units[1].nal + Encode(units[1..][1..]));
    } else {
      assert Encode(units[1..]) == [];
    }
  }

  // ----- what the two searches see between two units

  lemma NoTripleInside(d: seq<byte>, start: nat, nal: seq<byte>, i: nat)
    requires IsAt(d, start, nal) && TripleFree(nal)
    requires start <= i && i + 3 <= start + |nal|
    ensures !Code3At(d, i)
  {
    assert !Code3At(nal, i - start);
  }

  lemma NoCodeInside(d: seq<byte>, start: nat, nal: seq<byte>, k: nat)
    requires IsAt(d, start, nal) && TripleFree(nal)
    requires var b := start + |nal|;
             && start <= k < b && b + 3 <= |d|
             && d[b] == 0 && d[b + 1] == 0
             && (d[b + 2] == 0 || EndsNonZero(nal))
    ensures !CodeAt(d, k)
  {
    var b := start + |nal|;
    if k + 3 <= b {
      NoTripleInside(d, start, nal, k);
    }
    if k + 4 <= b {
      NoTripleInside(d, start, nal, k + 1);
    }
    assert EndsNonZero(nal) && nal != [] ==> d[b - 1] != 0;
  }

  lemma CodeFound(d: seq<byte>, b: nat, u: Unit)
    requires b + 4 < |d| && IsAt(d, b, CodeOctets(CodeLength(u)))
    ensures d[b] == 0 && d[b + 1] == 0 && (u.long || d[b + 2] == 1) && (u.long ==> d[b + 2] == 0 && Code4At(d, b))
    ensures Leftmost(d, b) == Some(StartCode(b, CodeLength(u)))
    ensures Scan(d, b) == Some(StartCode(b, CodeLength(u)))
  {
    var c := CodeOctets(CodeLength(u));
    assert d[b + 0] == c[0] && d[b + 1] == c[1] && d[b + 2] == c[2] && (u.long ==> d[b + 3] == c[3]);
  }

  /** The only code between the start of a unit and the next boundary is the one at the boundary. */
  lemma LeftmostIsBoundary(d: seq<byte>, start: nat, nal: seq<byte>, u: Unit)
    requires TripleFree(nal) && (u.long || EndsNonZero(nal))
    requires start + |nal| + 4 < |d| && IsAt(d, start, nal)
    requires IsAt(d, start + |nal|, CodeOctets(CodeLength(u)))
    ensures Leftmost(d, start) == Some(StartCode(start + |nal|, CodeLength(u)))
    ensures u.long ==> Code4At(d, start + |nal|)
  {
    hide Leftmost;
    hide Scan;
    var b := start + |nal|;
    CodeFound(d, b, u);
    forall k: nat | start <= k < b && k + 4 < |d| ensures !CodeAt(d, k) {
      NoCodeInside(d, start, nal, k);
    }
    LeftmostSkips(d, start, b);
  }

  lemma NoCodeInLast(d: seq<byte>, start: nat, nal: seq<byte>)
    requires EndsIn(d, start, nal) && TripleFree(nal)
    ensures Scan(d, start) == None
  {
    var r := Scan(d, start);
    if r.Some? {
      NoTripleInside(d, start, nal, r.value.pos + (if r.value.length == 4 then 1 else 0));
    }
  }

  /** A long code that is the leftmost code is what the search reports. */
  lemma LongCodeIsReported(d: seq<byte>, start: nat, b: nat)
    requires start <= b && b + 4 < |d| && Code4At(d, b)
    requires Leftmost(d, start) == Some(StartCode(b, 4))
    ensures Scan(d, start) == Some(StartCode(b, 4))
  {
    if b < ScanLimit(d, start) {
      NothingElseSkipped(d, start, b);
    } else {
      assert Scan(d, start).Some? && CodeAt(d, Scan(d, start).value.pos);
    }
  }

  // ----- three- and four-octet codes mixed

  lemma Heads(units: seq<Unit>)
    requires Framable(units)
    ensures |units| > 0 && TripleFree(units[0].nal)
    ensures Encode(units) == CodeOctets(CodeLength(units[0])) + (units[0].nal + Encode(units[1..]))
    ensures |CodeOctets(CodeLength(units[0]))| == CodeLength(units[0])
    ensures |units| == 1 ==> units[0].nal + Encode(units[1..]) == units[0].nal
    ensures |units| > 1 ==>
              && units[1..][0] == units[1] && Framable(units[1..]) && (units[1].long || EndsNonZero(units[0].nal))
              && LastSeen(units[1..]) == LastSeen(units)
  {
    hide TripleFree;
  }

  /** Where the first of several units ends and what stands there. */
  lemma Boundary(d: seq<byte>, start: nat, units: seq<Unit>) returns (b: nat)
    requires Framable(units) && |units| > 1 && EndsIn(d, start, units[0].nal + Encode(units[1..]))
    requires |units| > 2 || LastSeen(units)
    ensures b == start + |units[0].nal| && b + 4 < |d|
    ensures Leftmost(d, start) == Some(StartCode(b, CodeLength(units[1])))
    ensures units[1].long ==> Code4At(d, b)
    ensures d[start..b] == units[0].nal
    ensures EndsIn(d, b + CodeLength(units[1]), units[1].nal + Encode(units[1..][1..]))
  {
    hide *;
    b := start + |units[0].nal|;
    Heads(units);
    Heads(units[1..]);
    EncodeLength(units[1..]);
    var tail := units[1].nal + Encode(units[1..][1..]);
    Cut(d, start, units[0].nal, CodeOctets(CodeLength(units[1])), tail);
    EndsAt(d, b + CodeLength(units[1]), tail);
    LeftmostIsBoundary(d, start, units[0].nal, units[1]);
    SliceOf(d, start, units[0].nal);
  }

  lemma EndsAt(d: seq<byte>, s: nat, piece: seq<byte>)
    requires EndsIn(d, s, piece)
    ensures s + |piece| == |d|
  {
  }

  lemma TailOf(d: seq<byte>, start: nat, nal: seq<byte>)
    requires EndsIn(d, start, nal)
    ensures d[start..] == nal
  {
  }

  lemma FirstCode(d: seq<byte>, u: Unit, tail: seq<byte>)
    requires d == CodeOctets(CodeLength(u)) + tail && |d| >= 5
    ensures Scan(d, 0) == Leftmost(d, 0) == Some(StartCode(0, CodeLength(u))) && EndsIn(d, CodeLength(u), tail)
    ensures Split(d) == NalsFrom(d, CodeLength(u))
  {
    hide Scan;
    hide Leftmost;
    assert EndsIn(d, 0, CodeOctets(CodeLength(u)) + tail);
    Cut2(d, 0, CodeOctets(CodeLength(u)), tail);
    CodeFound(d, 0, u);
  }

  // ----- which codes are jumped over

  /** Two searches see the same as long as they look at the same octets. */
  lemma {:induction false} SameHits(d: seq<byte>, p: nat, e: seq<byte>, q: nat, piece: seq<byte>)
    requires |piece| >= 3 && IsAt(d, p, piece) && IsAt(e, q, piece)
    requires Leftmost(d, p) == Some(StartCode(p + |piece| - 3, 3))
    requires Leftmost(e, q) == Some(StartCode(q + |piece| - 3, 3))
    ensures HitsBlindSpot(d, p) <==> HitsBlindSpot(e, q)
    decreases |piece|
  {
    if |piece| > 3 {
      assert !CodeAt(d, p) && !CodeAt(e, q);
      assert piece[0] == d[p + 0] == e[q + 0] && piece[1] == d[p + 1] == e[q + 1];
      assert piece[2] == d[p + 2] == e[q + 2] && piece[3] == d[p + 3] == e[q + 3];
      assert BlindSpot(d, p) <==> BlindSpot(e, q);
      if !BlindSpot(d, p) {
        JumpIsSafe(d, p);
        JumpIsSafe(e, q);
        var n := Advance(d, p);
        assert Advance(e, q) == n;
        PieceRest(d, p, piece, n);
        PieceRest(e, q, piece, n);
        SameHits(d, p + n, e, q + n, piece[n..]);
      }
    }
  }

  lemma PieceRest(d: seq<byte>, p: nat, piece: seq<byte>, n: nat)
    requires IsAt(d, p, piece) && n <= |piece|
    ensures IsAt(d, p + n, piece[n..])
  {
    forall i | 0 <= i < |piece| - n ensures d[p + n + i] == piece[n..][i] {
      assert d[p + (n + i)] == piece[n + i];
    }
  }

  /** Whether a code is jumped over depends on the unit in front of it alone. */
  lemma HitIsLocal(d: seq<byte>, start: nat, nal: seq<byte>, u: Unit)
    requires TripleFree(nal) && (u.long || EndsNonZero(nal))
    requires start + |nal| + 4 < |d| && IsAt(d, start, nal)
    requires IsAt(d, start + |nal|, CodeOctets(CodeLength(u)))
    ensures HitsBlindSpot(d, start) <==> !u.long && JumpedOver(nal)
  {
    hide *;
    LeftmostIsBoundary(d, start, nal, u);
    Lengths(u);
    if u.long {
      LongCodeIsReported(d, start, start + |nal|);
      ScanIsLeftmostIff(d, start);
    } else {
      var e, code := nal + SHORT_CODE_AND_MORE, CodeOctets(CodeLength(u));
      BehindUnit(nal);
      LeftmostIsBoundary(e, 0, nal, u);
      Joined(d, start, nal, code);
      Joined(e, 0, nal, code);
      SameHits(d, start, e, 0, nal + code);
      JumpedOverMeans(nal);
    }
  }

  lemma Lengths(u: Unit)
    ensures CodeLength(u) == |CodeOctets(CodeLength(u))| == if u.long then 4 else 3
  {
  }

  lemma JumpedOverMeans(nal: seq<byte>)
    ensures JumpedOver(nal) <==> HitsBlindSpot(nal + SHORT_CODE_AND_MORE, 0)
  {
    hide HitsBlindSpot;
  }

  lemma BehindUnit(nal: seq<byte>)
    ensures var e := nal + SHORT_CODE_AND_MORE;
            |e| == |nal| + 5 && IsAt(e, 0, nal) && IsAt(e, |nal|, CodeOctets(3))
  {
  }

  lemma Joined(d: seq<byte>, s: nat, head: seq<byte>, tail: seq<byte>)
    requires IsAt(d, s, head) && IsAt(d, s + |head|, tail)
    ensures IsAt(d, s, head + tail)
  {
    forall i | 0 <= i < |head + tail| ensures d[s + i] == (head + tail)[i] {
      if i >= |head| {
        assert d[s + |head| + (i - |head|)] == tail[i - |head|];
      }
    }
  }

  /** A search that jumps over the next code stands right behind it afterwards. */
  lemma {:induction false} JumpResumesBehind(d: seq<byte>, start: nat, b: nat)
    requires HitsBlindSpot(d, start)
    requires Leftmost(d, start).Some? && Leftmost(d, start).value.pos == b
    ensures Code3At(d, b) && Scan(d, start) == Scan(d, b + 3)
    decreases |d| - start
  {
    if BlindSpot(d, start) {
      assert Leftmost(d, start) == Leftmost(d, start + 1);
    } else {
      JumpIsSafe(d, start);
      JumpResumesBehind(d, start + Advance(d, start), b);
    }
  }

  // ----- what cutting gives

  /** The code behind the first unit goes unseen: it is jumped over, or it is the last and outside the window. */
  predicate Unseen(units: seq<Unit>)
    requires |units| > 1
  {
    (!units[1].long && JumpedOver(units[0].nal)) || (|units| == 2 && !LastSeen(units))
  }

  /** The units with each one fused to the next whose code goes unseen. */
  function Fused(units: seq<Unit>): (r: seq<seq<byte>>)
    requires |units| > 0
    ensures 0 < |r| <= |units|
    ensures |r| == |units| <==> Sighted(units) && (|units| > 1 ==> LastSeen(units))
    decreases |units|
  {
    if |units| == 1 then [units[0].nal]
    else
      var rest := Fused(units[1..]);
      if Unseen(units) then [units[0].nal + (CodeOctets(CodeLength(units[1])) + rest[0])] + rest[1..]
      else [units[0].nal] + rest
  }

  lemma {:induction false} FusedIff(units: seq<Unit>)
    requires |units| > 0
    ensures |NalsOf(units)| == |units|
    ensures Fused(units) == NalsOf(units) <==> Sighted(units) && (|units| > 1 ==> LastSeen(units))
    decreases |units|
  {
    hide JumpedOver;
    if |units| == 1 {
      assert NalsOf(units[1..]) == [];
    } else {
      FusedIff(units[1..]);
    }
  }

  lemma FusedStep(d: seq<byte>, start: nat, b: nat)
    requires start <= b && b + 3 <= |d| && Code3At(d, b) && Scan(d, start) == Scan(d, b + 3)
    ensures var rest := NalsFrom(d, b + 3);
            NalsFrom(d, start) == [d[start..b] + (CodeOctets(3) + rest[0])] + rest[1..]
  {
    hide *;
    Unfold(d, start);
    Unfold(d, b + 3);
    match Scan(d, start)
    case None =>
      GlueShort(d, start, b, |d|);
      ToEnd(d, start);
      ToEnd(d, b + 3);
      OnlyOne(d[b + 3..]);
    case Some(c) =>
      assert b + 3 <= c.pos && Genuine(d, c);
      GenuineBounds(d, c);
      GlueShort(d, start, b, c.pos);
      OneAndRest(d[b + 3..c.pos], NalsFrom(d, c.pos + c.length));
  }

  lemma GlueShort(d: seq<byte>, start: nat, b: nat, end: nat)
    requires start <= b && Code3At(d, b) && b + 3 <= end <= |d|
    ensures d[start..end] == d[start..b] + (CodeOctets(3) + d[b + 3..end])
  {
    assert d[b..b + 3] == CodeOctets(3);
    assert d[start..end] == d[start..b] + (d[b..b + 3] + d[b + 3..end]);
  }

  lemma ToEnd(d: seq<byte>, i: nat)
    requires i <= |d|
    ensures d[i..] == d[i..|d|]
  {
  }

  lemma OnlyOne(x: seq<byte>)
    ensures [x][1..] == [] && forall y: seq<byte> :: [y] + [] == [y]
  {
  }

  lemma OneAndRest(x: seq<byte>, rest: seq<seq<byte>>)
    ensures ([x] + rest)[0] == x && ([x] + rest)[1..] == rest
  {
  }

  lemma {:induction false} UnitsFuse(d: seq<byte>, start: nat, units: seq<Unit>)
    requires Framable(units) && EndsIn(d, start, units[0].nal + Encode(units[1..]))
    ensures start <= |d| && NalsFrom(d, start) == Fused(units)
    decreases |units|
  {
    hide *;
    Heads(units);
    if |units| == 1 {
      OneUnit(d, start, units);
    } else if |units| == 2 && !LastSeen(units) {
      LastGoesUnseen(d, start, units);
    } else {
      var b := Boundary(d, start, units);
      UnitsFuse(d, b + CodeLength(units[1]), units[1..]);
      BoundaryHit(d, start, units);
      FuseHere(d, start, units, b);
    }
  }

  lemma OneUnit(d: seq<byte>, start: nat, units: seq<Unit>)
    requires |units| == 1 && TripleFree(units[0].nal) && EndsIn(d, start, units[0].nal)
    ensures start <= |d| && NalsFrom(d, start) == Fused(units)
  {
    assert start <= |d| && Fused(units) == [units[0].nal];
    hide *;
    NoCodeInLast(d, start, units[0].nal);
    TailOf(d, start, units[0].nal);
    Unfold(d, start);
  }

  /** The window ends in front of the last code, so the last unit is not cut off. */
  lemma LastGoesUnseen(d: seq<byte>, start: nat, units: seq<Unit>)
    requires Framable(units) && |units| == 2 && !LastSeen(units) && EndsIn(d, start, units[0].nal + Encode(units[1..]))
    ensures start <= |d| && NalsFrom(d, start) == Fused(units)
  {
    hide Scan;
    hide HitsBlindSpot;
    hide NalsFrom;
    var u := units[1];
    var code := CodeOctets(CodeLength(u));
    Heads(units[1..]);
    var b := start + |units[0].nal|;
    assert EndsIn(d, start, units[0].nal + (code + u.nal));
    Cut(d, start, units[0].nal, code, u.nal);
    assert d[b + 0] == code[0] && d[b + 1] == code[1] && d[b + 2] == code[2];
    var r := Scan(d, start);
    if r.Some? {
      NoCodeInside(d, start, units[0].nal, r.value.pos);
    }
    Unfold(d, start);
    TailOf(d, start, units[0].nal + (code + u.nal));
    assert Fused(units[1..]) == [u.nal];
    OnlyOne(u.nal);
  }

  lemma BoundaryHit(d: seq<byte>, start: nat, units: seq<Unit>)
    requires Framable(units) && |units| > 1 && EndsIn(d, start, units[0].nal + Encode(units[1..]))
    requires start + |units[0].nal| + 4 < |d|
    ensures HitsBlindSpot(d, start) <==> !units[1].long && JumpedOver(units[0].nal)
  {
    hide *;
    Heads(units);
    Heads(units[1..]);
    Cut(d, start, units[0].nal, CodeOctets(CodeLength(units[1])), units[1].nal + Encode(units[1..][1..]));
    HitIsLocal(d, start, units[0].nal, units[1]);
  }

  /** The first unit is fused to what follows exactly when the code behind it is jumped over. */
  lemma FuseHere(d: seq<byte>, start: nat, units: seq<Unit>, b: nat)
    requires |units| > 1 && b == start + |units[0].nal| && b + 4 < |d| && d[start..b] == units[0].nal
    requires |units| > 2 || LastSeen(units)
    requires Leftmost(d, start) == Some(StartCode(b, CodeLength(units[1])))
    requires units[1].long ==> Code4At(d, b)
    requires NalsFrom(d, b + CodeLength(units[1])) == Fused(units[1..])
    requires HitsBlindSpot(d, start) <==> !units[1].long && JumpedOver(units[0].nal)
    ensures NalsFrom(d, start) == Fused(units)
  {
    hide *;
    FusedHead(units);
    if HitsBlindSpot(d, start) {
      JumpResumesBehind(d, start, b);
      ShortCode(d, b, units[1]);
      FusedStep(d, start, b);
    } else {
      ScanIsLeftmostIff(d, start);
      Unfold(d, start);
    }
  }

  lemma FusedHead(units: seq<Unit>)
    requires |units| > 1 && (|units| > 2 || LastSeen(units))
    ensures !units[1].long && JumpedOver(units[0].nal) ==>
              var rest := Fused(units[1..]);
              Fused(units) == [units[0].nal + (CodeOctets(CodeLength(units[1])) + rest[0])] + rest[1..]
    ensures !(!units[1].long && JumpedOver(units[0].nal)) ==> Fused(units) == [units[0].nal] + Fused(units[1..])
  {
    hide JumpedOver;
    hide LastSeen;
  }

  lemma ShortCode(d: seq<byte>, b: nat, u: Unit)
    requires Code3At(d, b) && (u.long ==> Code4At(d, b))
    ensures CodeLength(u) == 3 && b + 3 <= |d|
  {
  }

  lemma FramableFuses(units: seq<Unit>)
    requires Framable(units)
    ensures Split(Encode(units)) == if |units| == 1 && !LastSeen(units) then [] else Fused(units)
  {
    hide *;
    Heads(units);
    EncodeLength(units);
    if |units| == 1 && !LastSeen(units) {
      NothingInside(Encode(units));
    } else {
      FirstCode(Encode(units), units[0], units[0].nal + Encode(units[1..]));
      UnitsFuse(Encode(units), CodeLength(units[0]), units);
    }
  }

  lemma NothingInside(d: seq<byte>)
    requires |d| < 5
    ensures Split(d) == []
  {
  }

  // ----- a zero octet in front of a short code

  /** The same octets with every short code behind a zero octet read as the long code it looks like. */
  function Normal(units: seq<Unit>): (r: seq<Unit>)
    ensures |r| == |units| && (units != [] ==> r[0].long == units[0].long)
    decreases |units|
  {
    if |units| <= 1 then units
    else if units[1].long || EndsNonZero(units[0].nal) then [units[0]] + Normal(units[1..])
    else
      var n := |units[0].nal| - 1;
      [Unit(units[0].long, units[0].nal[..n])] + Normal([Unit(true, units[1].nal)] + units[2..])
  }

  lemma {:induction false} NormalEncodesTheSame(units: seq<Unit>)
    ensures Encode(Normal(units)) == Encode(units)
    decreases |units|
  {
    if |units| > 1 {
      if units[1].long || EndsNonZero(units[0].nal) {
        NormalEncodesTheSame(units[1..]);
      } else {
        var rest := [Unit(true, units[1].nal)] + units[2..];
        NormalEncodesTheSame(rest);
        ZeroMoves(units);
      }
    }
  }

  lemma ZeroMoves(units: seq<Unit>)
    requires |units| > 1 && !units[1].long && !EndsNonZero(units[0].nal)
    ensures var rest := [Unit(true, units[1].nal)] + units[2..];
            units[0].nal + Encode(units[1..]) == units[0].nal[..|units[0].nal| - 1] + Encode(rest)
  {
    var nal, rest := units[0].nal, [Unit(true, units[1].nal)] + units[2..];
    var n := |nal| - 1;
    var tail := units[1].nal + Encode(units[2..]);
    assert units[1..][1..] == units[2..] && rest[1..] == units[2..];
    assert Encode(units[1..]) == CodeOctets(3) + tail;
    assert Encode(rest) == CodeOctets(4) + tail;
    assert nal == nal[..n] + [0];
    assert CodeOctets(4) == [0] + CodeOctets(3);
    assert (nal[..n] + [0]) + (CodeOctets(3) + tail) == nal[..n] + (([0] + CodeOctets(3)) + tail);
  }

  lemma {:induction false} NormalIsFramable(units: seq<Unit>)
    requires |units| > 0 && AllTripleFree(units)
    ensures Framable(Normal(units))
    decreases |units|
  {
    hide TripleFree;
    if |units| > 1 {
      if units[1].long || EndsNonZero(units[0].nal) {
        NormalIsFramable(units[1..]);
      } else {
        PrefixIsTripleFree(units[0].nal, |units[0].nal| - 1);
        NormalIsFramable([Unit(true, units[1].nal)] + units[2..]);
      }
      assert Normal(units)[1..][0].long ==> Normal(units)[1].long;
    }
  }

  lemma {:induction false} NormalIff(units: seq<Unit>)
    ensures Distinct(units) ==> Normal(units) == units
    ensures |NalsOf(units)| == |units| == |NalsOf(Normal(units))|
    ensures NalsOf(Normal(units)) == NalsOf(units) ==> Distinct(units)
    decreases |units|
  {
    if |units| > 1 {
      if units[1].long || EndsNonZero(units[0].nal) {
        NormalIff(units[1..]);
        assert NalsOf(units)[1..] == NalsOf(units[1..]) && NalsOf(Normal(units))[1..] == NalsOf(Normal(units[1..]));
      } else {
        NormalIff([Unit(true, units[1].nal)] + units[2..]);
        FusedIff(units);
        assert NalsOf(Normal(units))[0] != NalsOf(units)[0];
      }
    } else if |units| == 1 {
      FusedIff(units);
    }
  }

  /** What cutting gives for any triple-free units and any mixture of codes: a zero octet in front of a short code is
      taken for part of the code; each unit whose code is then jumped over, and the last one if its code lies
      outside the window, is fused, code and all, to the unit before it; and nothing else happens. */
  lemma SplitFuses(units: seq<Unit>)
    requires |units| > 0 && AllTripleFree(units)
    ensures Split(Encode(units)) == if |units| == 1 && !LastSeen(units) then [] else Fused(Normal(units))
    ensures Distinct(units) ==> Normal(units) == units
    ensures |Split(Encode(units))| <= |units| == |NalsOf(units)|
  {
    hide *;
    NormalEncodesTheSame(units);
    NormalIsFramable(units);
    NormalIff(units);
    DistinctAlone(units);
    FramableFuses(Normal(units));
  }

  /** Triple-free units behind any mixture of three- and four-octet codes come back unchanged if and only if no
      short code stands behind a zero octet, the last code lies inside the window, and no short code is jumped
      over by a search that starts at the unit before it. */
  lemma MixedRoundTripIff(units: seq<Unit>)
    requires |units| > 0 && AllTripleFree(units)
    ensures Split(Encode(units)) == NalsOf(units) <==> Distinct(units) && LastSeen(units) && Sighted(units)
  {
    hide *;
    SplitFuses(units);
    NormalIff(units);
    FusedIff(Normal(units));
    DistinctAlone(units);
  }

  lemma DistinctAlone(units: seq<Unit>)
    ensures Distinct(units) || |units| > 1
  {
  }

  // ----- four-octet codes only, as the frame extractor writes them

  const START_CODE: seq<byte> := [0, 0, 0, 1]

  function Framed(nals: seq<seq<byte>>): seq<byte> {
    if nals == [] then [] else START_CODE + (nals[0] + Framed(nals[1..]))
  }

  lemma {:induction false} FramedAppend(a: seq<seq<byte>>, b: seq<seq<byte>>)
    ensures Framed(a + b) == Framed(a) + Framed(b)
  {
    if a == [] {
      EmptyLeft(b);
      EmptyLeft(Framed(b));
    } else {
      assert (a + b)[1..] == a[1..] + b;
      FramedAppend(a[1..], b);
      Assoc(a[0], Framed(a[1..]), Framed(b));
      Assoc(START_CODE, a[0] + Framed(a[1..]), Framed(b));
    }
  }

  function Long(nals: seq<seq<byte>>): (r: seq<Unit>)
    ensures |r| == |nals| && forall k :: 0 <= k < |r| ==> r[k] == Unit(true, nals[k])
  {
    if nals == [] then [] else [Unit(true, nals[0])] + Long(nals[1..])
  }

  lemma {:induction false} FramedIsEncode(nals: seq<seq<byte>>)
    ensures Encode(Long(nals)) == Framed(nals) && NalsOf(Long(nals)) == nals
  {
    if nals != [] {
      LongHead(nals);
      FramedIsEncode(nals[1..]);
    }
  }

  lemma {:induction false} LongIsSighted(units: seq<Unit>)
    requires forall k :: 0 < k < |units| ==> units[k].long
    ensures Distinct(units) && Sighted(units)
    decreases |units|
  {
    hide JumpedOver;
    if |units| > 1 {
      LongIsSighted(units[1..]);
    }
  }

  lemma LongHead(nals: seq<seq<byte>>)
    requires nals != []
    ensures Long(nals)[1..] == Long(nals[1..]) && nals == [nals[0]] + nals[1..]
  {
  }

  /** Round trip: triple-free units behind the extractor's code come back exactly when the last one
      holds an octet. */
  lemma RoundTripIff(nals: seq<seq<byte>>)
    requires |nals| > 0 && forall k :: 0 <= k < |nals| ==> TripleFree(nals[k])
    ensures Split(Framed(nals)) == nals <==> nals[|nals| - 1] != []
  {
    hide Split;
    hide TripleFree;
    hide Sighted;
    FramedIsEncode(nals);
    LongUnits(nals);
    MixedRoundTripIff(Long(nals));
  }

  /** With no code jumped over, only the last unit can be fused. */
  lemma {:induction false} OnlyLastFuses(units: seq<Unit>)
    requires |units| > 1 && Sighted(units) && !LastSeen(units)
    ensures |NalsOf(units)| == |units|
    ensures var n := |units| - 2;
            Fused(units)
            == NalsOf(units)[..n] + [units[n].nal + (CodeOctets(CodeLength(units[n + 1])) + units[n + 1].nal)]
    decreases |units|
  {
    hide JumpedOver;
    FusedIff(units);
    if |units| == 2 {
      assert Fused(units[1..]) == [units[1].nal];
    } else {
      OnlyLastFuses(units[1..]);
      assert NalsOf(units)[..|units| - 2] == [units[0].nal] + NalsOf(units[1..])[..|units| - 3];
    }
  }

  /** What happens otherwise: the code of an empty last unit is swallowed by the unit before it, and a lone
      empty unit yields nothing. */
  lemma EmptyLastUnit(nals: seq<seq<byte>>)
    requires |nals| > 0 && forall k :: 0 <= k < |nals| ==> TripleFree(nals[k])
    requires nals[|nals| - 1] == []
    ensures Split(Framed(nals)) ==
            if |nals| == 1 then [] else nals[..|nals| - 2] + [nals[|nals| - 2] + START_CODE]
  {
    hide *;
    var units, n := Long(nals), |nals| - 2;
    FramedIsEncode(nals);
    LongUnits(nals);
    FramableFuses(units);
    if |nals| > 1 {
      OnlyLastFuses(units);
      LongCode(units[n + 1]);
      EmptyRight(START_CODE);
    }
  }

  lemma LongUnits(nals: seq<seq<byte>>)
    requires |nals| > 0 && forall k :: 0 <= k < |nals| ==> TripleFree(nals[k])
    ensures Framable(Long(nals)) && Sighted(Long(nals))
    ensures LastSeen(Long(nals)) <==> nals[|nals| - 1] != []
    ensures |nals| > 1 ==>
              var n := |nals| - 1; Long(nals)[n - 1].nal == nals[n - 1] && Long(nals)[n] == Unit(true, nals[n])
  {
    hide TripleFree;
    hide Sighted;
    LongIsSighted(Long(nals));
  }

  lemma LongCode(u: Unit)
    requires u.long
    ensures CodeOctets(CodeLength(u)) == START_CODE
  {
  }

  lemma EmptyRight(a: seq<byte>)
    ensures a + [] == a
  {
  }

  /** A three-octet code after the first unit can fuse two units into one. */
  lemma FusedUnits()
    ensures var units := [Unit(true, [0xFF]), Unit(false, [0x65, 0x88])];
            Framable(units) && LastSeen(units) && NalsOf(units) == [[0xFF], [0x65, 0x88]]
            && Split(Encode(units)) == [[0xFF, 0, 0, 1, 0x65, 0x88]]
  {
    var units := [Unit(true, [0xFF]), Unit(false, [0x65, 0x88])];
    assert units[1..] == [Unit(false, [0x65, 0x88])];
    assert Encode(units[1..]) == [0, 0, 1, 0x65, 0x88] by { assert units[1..][1..] == []; }
    assert Encode(units) == [0, 0, 0, 1, 0xFF, 0, 0, 1, 0x65, 0x88];
    var d := Encode(units);
    assert Scan(d, 0) == Some(StartCode(0, 4));
    assert Scan(d, 4) == Scan(d, 8) == None;
    assert NalsOf(units[1..]) == [[0x65, 0x88]] by { assert units[1..][1..] == []; }
  }

  /** A three-octet code with a single octet behind it, here an end-of-stream unit, lies outside the window; it is
      not seen although nothing is jumped over. */
  lemma UnseenLastUnit()
    ensures var units := [Unit(true, [0x65, 0x88]), Unit(false, [0x0B])];
            Framable(units) && Sighted(units) && !LastSeen(units)
            && Split(Encode(units)) == [[0x65, 0x88, 0, 0, 1, 0x0B]]
  {
    var units := [Unit(true, [0x65, 0x88]), Unit(false, [0x0B])];
    assert units[1..] == [Unit(false, [0x0B])];
    assert Framable(units) && !LastSeen(units);
    var e := [0x65, 0x88] + SHORT_CODE_AND_MORE;
    assert CodeAt(e, 2) && !HitsBlindSpot(e, 2) && HitsBlindSpot(e, 0) == HitsBlindSpot(e, 2);
    FramableFuses(units);
    assert Fused(units[1..]) == [[0x0B]];
    var fused: seq<byte> := [0x65, 0x88] + (CodeOctets(3) + [0x0B]);
    assert fused == [0x65, 0x88, 0, 0, 1, 0x0B];
    assert Fused(units) == [fused];
  }
}
