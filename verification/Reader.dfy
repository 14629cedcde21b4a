/** A reader of the byte stream format of section B.1 of ITU-T Rec. H.264: it sees every code up to the very end of the
    octets, and so finds the original units in what the splitter emits, however many of them that left fused. */
module Reader {
  import opened Frames
  import opened StartCodeScan
  import opened NalSplitter
  import opened RoundTrip

  /** The first code at or behind position `from`. */
  function NextCode(d: seq<byte>, from: nat): (r: Option<StartCode>)
    ensures r.Some? ==>
              && from <= r.value.pos && r.value.pos + r.value.length <= |d| && r.value.length in {3, 4}
              && (r.value.length == 3 ==> Code3At(d, r.value.pos)) && (r.value.length == 4 ==> Code4At(d, r.value.pos))
    ensures forall i: nat :: from <= i && (r.Some? ==> i < r.value.pos) ==> !CodeAt(d, i)
    decreases |d| - from
  {
    if from + 3 > |d| then None
    else if Code3At(d, from) then Some(StartCode(from, 3))
    else if Code4At(d, from) then Some(StartCode(from, 4))
    else NextCode(d, from + 1)
  }

  /** The NAL units from octet `start`, the first one behind a code, to the end. */
  function ReadFrom(d: seq<byte>, start: nat): (r: seq<seq<byte>>)
    requires start <= |d|
    ensures |r| > 0
    decreases |d| - start
  {
    match NextCode(d, start)
    case None => [d[start..]]
    case Some(c) => [d[start..c.pos]] + ReadFrom(d, c.pos + c.length)
  }

  function Read(d: seq<byte>): seq<seq<byte>> {
    match NextCode(d, 0)
    case None => []
    case Some(c) => ReadFrom(d, c.pos + c.length)
  }

  lemma UnfoldRead(d: seq<byte>, start: nat)
    requires start <= |d|
    ensures NextCode(d, start) == None ==> ReadFrom(d, start) == [d[start..]]
    ensures NextCode(d, start).Some? ==>
              var c := NextCode(d, start).value;
              c.pos + c.length <= |d| && ReadFrom(d, start) == [d[start..c.pos]] + ReadFrom(d, c.pos + c.length)
  {
    hide NextCode;
  }

  /** The code behind a unit is the next one there is. */
  lemma NextIsBoundary(d: seq<byte>, start: nat, nal: seq<byte>, u: Unit)
    requires TripleFree(nal) && (u.long || EndsNonZero(nal))
    requires IsAt(d, start, nal) && IsAt(d, start + |nal|, CodeOctets(CodeLength(u)))
    ensures NextCode(d, start) == Some(StartCode(start + |nal|, CodeLength(u)))
    ensures start + |nal| + CodeLength(u) <= |d|
  {
    hide NextCode;
    var b, code := start + |nal|, CodeOctets(CodeLength(u));
    assert d[b + 0] == code[0] && d[b + 1] == code[1] && d[b + 2] == code[2] && (u.long ==> d[b + 3] == code[3]);
    forall k: nat | start <= k < b ensures !CodeAt(d, k) {
      NoCodeInside(d, start, nal, k);
    }
    var r := NextCode(d, start);
    assert CodeAt(d, b);
    assert r.Some? && CodeAt(d, r.value.pos);
    assert r.value.pos == b;
  }

  lemma NoNextInLast(d: seq<byte>, start: nat, nal: seq<byte>)
    requires EndsIn(d, start, nal) && TripleFree(nal)
    ensures start <= |d| && NextCode(d, start) == None
  {
    hide NextCode;
    var r := NextCode(d, start);
    if r.Some? {
      NoTripleInside(d, start, nal, r.value.pos + (if r.value.length == 4 then 1 else 0));
    }
  }

  lemma {:induction false} ReadUnits(d: seq<byte>, start: nat, units: seq<Unit>)
    requires Framable(units) && EndsIn(d, start, units[0].nal + Encode(units[1..]))
    ensures start <= |d| && ReadFrom(d, start) == NalsOf(units)
    decreases |units|
  {
    hide *;
    Heads(units);
    NalsHead(units);
    if |units| == 1 {
      NoNextInLast(d, start, units[0].nal);
      TailOf(d, start, units[0].nal);
      UnfoldRead(d, start);
    } else {
      var tail := units[1].nal + Encode(units[1..][1..]);
      Heads(units[1..]);
      Cut(d, start, units[0].nal, CodeOctets(CodeLength(units[1])), tail);
      NextIsBoundary(d, start, units[0].nal, units[1]);
      SliceOf(d, start, units[0].nal);
      ReadUnits(d, start + |units[0].nal| + CodeLength(units[1]), units[1..]);
      UnfoldRead(d, start);
    }
  }

  lemma NalsHead(units: seq<Unit>)
    requires |units| > 0
    ensures NalsOf(units) == [units[0].nal] + NalsOf(units[1..])
    ensures |units| == 1 ==> NalsOf(units) == [units[0].nal]
  {
  }

  /** A reader finds framed units one and all, whatever their codes and lengths. */
  lemma ReadFramable(units: seq<Unit>)
    requires Framable(units)
    ensures Read(Encode(units)) == NalsOf(units)
  {
    hide *;
    Heads(units);
    var d, tail := Encode(units), units[0].nal + Encode(units[1..]);
    AtFront(CodeOctets(CodeLength(units[0])), tail);
    ReadUnits(d, CodeLength(units[0]), units);
    FirstRead(d, units[0]);
  }

  lemma AtFront(head: seq<byte>, tail: seq<byte>)
    ensures IsAt(head + tail, 0, head) && EndsIn(head + tail, |head|, tail)
  {
  }

  lemma FirstRead(d: seq<byte>, u: Unit)
    requires IsAt(d, 0, CodeOctets(CodeLength(u)))
    ensures CodeLength(u) <= |d| && Read(d) == ReadFrom(d, CodeLength(u))
  {
    hide ReadFrom;
    var code := CodeOctets(CodeLength(u));
    assert d[0 + 0] == code[0] && d[0 + 1] == code[1] && d[0 + 2] == code[2] && (u.long ==> d[0 + 3] == code[3]);
  }

  /** So triple-free units come back unchanged if and only if no short code stands behind a zero octet. */
  lemma ReadIff(units: seq<Unit>)
    requires |units| > 0 && AllTripleFree(units)
    ensures Read(Encode(units)) == NalsOf(Normal(units))
    ensures Read(Encode(units)) == NalsOf(units) <==> Distinct(units)
  {
    hide *;
    NormalEncodesTheSame(units);
    NormalIsFramable(units);
    NormalIff(units);
    ReadFramable(Normal(units));
  }

  // ----- units fused on the way

  /** What the units of a chunk look like behind the first one's code. */
  function Body(c: seq<Unit>): seq<byte>
    requires c != []
  {
    c[0].nal + Encode(c[1..])
  }

  /** The chunk behind a long code. */
  function Led(c: seq<Unit>): seq<Unit>
    requires c != []
  {
    [Unit(true, c[0].nal)] + c[1..]
  }

  /** Octets that are the body of some chunk of units. */
  ghost predicate Chunky(f: seq<byte>) {
    exists c: seq<Unit> :: Framable(c) && f == Body(c)
  }

  ghost predicate AllChunky(fs: seq<seq<byte>>) {
    forall k :: 0 <= k < |fs| ==> Chunky(fs[k])
  }

  /** The units a reader finds in octets behind a long code. */
  function Pieces(f: seq<byte>): seq<seq<byte>> {
    Read(START_CODE + f)
  }

  function PiecesOf(fs: seq<seq<byte>>): seq<seq<byte>> {
    if fs == [] then [] else Pieces(fs[0]) + PiecesOf(fs[1..])
  }

  lemma {:induction false} PiecesAppend(a: seq<seq<byte>>, b: seq<seq<byte>>)
    ensures PiecesOf(a + b) == PiecesOf(a) + PiecesOf(b)
  {
    hide Pieces;
    if a == [] {
      EmptyLeft(b);
      EmptyLeft(PiecesOf(b));
    } else {
      assert (a + b)[1..] == a[1..] + b && (a + b)[0] == a[0];
      PiecesAppend(a[1..], b);
      Assoc(Pieces(a[0]), PiecesOf(a[1..]), PiecesOf(b));
    }
  }

  lemma LedIsFramable(c: seq<Unit>)
    requires Framable(c)
    ensures Framable(Led(c)) && Led(c)[0].long
    ensures Encode(Led(c)) == START_CODE + Body(c) && NalsOf(Led(c)) == NalsOf(c)
  {
    hide TripleFree;
    assert Led(c)[1..] == c[1..];
  }

  lemma ChunkPieces(c: seq<Unit>)
    requires Framable(c)
    ensures Pieces(Body(c)) == NalsOf(c)
  {
    hide Read;
    LedIsFramable(c);
    ReadFramable(Led(c));
  }

  lemma {:induction false} EncodeAppend(a: seq<Unit>, b: seq<Unit>)
    ensures Encode(a + b) == Encode(a) + Encode(b)
    decreases |a|
  {
    if a == [] {
      EmptyLeft(b);
      EmptyLeft(Encode(b));
    } else {
      assert (a + b)[0] == a[0] && (a + b)[1..] == a[1..] + b;
      EncodeAppend(a[1..], b);
      Assoc(a[0].nal, Encode(a[1..]), Encode(b));
      Assoc(CodeOctets(CodeLength(a[0])), a[0].nal + Encode(a[1..]), Encode(b));
    }
  }

  lemma {:induction false} NalsAppend(a: seq<Unit>, b: seq<Unit>)
    ensures NalsOf(a + b) == NalsOf(a) + NalsOf(b)
    decreases |a|
  {
    if a == [] {
      EmptyLeft(b);
      EmptyLeft(NalsOf(b));
    } else {
      assert (a + b)[0] == a[0] && (a + b)[1..] == a[1..] + b;
      NalsAppend(a[1..], b);
      Assoc([a[0].nal], NalsOf(a[1..]), NalsOf(b));
    }
  }

  lemma {:induction false} DistinctAppend(a: seq<Unit>, b: seq<Unit>)
    requires b != [] && b[0].long && Distinct(a) && Distinct(b)
    ensures Distinct(a + b)
    decreases |a|
  {
    if a == [] {
      EmptyLeft(b);
    } else {
      assert (a + b)[0] == a[0] && (a + b)[1..] == a[1..] + b;
      DistinctAppend(a[1..], b);
      assert (a + b)[1] == (a[1..] + b)[0];
    }
  }

  lemma FramableAppend(a: seq<Unit>, b: seq<Unit>)
    requires Framable(a) && Framable(b) && b[0].long
    ensures Framable(a + b)
    ensures Encode(a + b) == Encode(a) + Encode(b) && NalsOf(a + b) == NalsOf(a) + NalsOf(b)
  {
    hide TripleFree;
    hide Distinct;
    EncodeAppend(a, b);
    NalsAppend(a, b);
    DistinctAppend(a, b);
  }

  /** Chunks framed by long codes are units framed by codes of both lengths. */
  lemma {:induction false} FramedChunks(fs: seq<seq<byte>>) returns (units: seq<Unit>)
    requires fs != [] && AllChunky(fs)
    ensures Framable(units) && units[0].long
    ensures Encode(units) == Framed(fs) && NalsOf(units) == PiecesOf(fs)
    decreases |fs|
  {
    assert Chunky(fs[0]);
    var c: seq<Unit> :| Framable(c) && fs[0] == Body(c);
    ChunkPieces(c);
    LedIsFramable(c);
    units := Led(c);
    hide *;
    FramedFirst(fs);
    PiecesFirst(fs);
    if |fs| > 1 {
      assert AllChunky(fs[1..]) by { ChunkyRest(fs); }
      var rest := FramedChunks(fs[1..]);
      FramableAppend(units, rest);
      Assoc(START_CODE, fs[0], Framed(fs[1..]));
      units := units + rest;
    }
  }

  lemma ChunkyRest(fs: seq<seq<byte>>)
    requires fs != [] && AllChunky(fs)
    ensures AllChunky(fs[1..])
  {
    hide Chunky;
  }

  lemma FramedFirst(fs: seq<seq<byte>>)
    requires fs != []
    ensures Framed(fs) == START_CODE + (fs[0] + Framed(fs[1..]))
    ensures |fs| == 1 ==> Framed(fs) == START_CODE + fs[0]
  {
  }

  lemma PiecesFirst(fs: seq<seq<byte>>)
    requires fs != []
    ensures PiecesOf(fs) == Pieces(fs[0]) + PiecesOf(fs[1..])
    ensures |fs| == 1 ==> PiecesOf(fs) == Pieces(fs[0])
  {
    hide Pieces;
  }

  /** A reader of framed chunks finds the units of all chunks, in order. */
  lemma FramedPieces(fs: seq<seq<byte>>)
    requires fs != [] && AllChunky(fs)
    ensures Read(Framed(fs)) == PiecesOf(fs)
  {
    hide *;
    var units := FramedChunks(fs);
    ReadFramable(units);
  }

  lemma UnitIsChunk(nal: seq<byte>)
    requires TripleFree(nal)
    ensures Chunky(nal) && Pieces(nal) == [nal]
  {
    var c := [Unit(true, nal)];
    assert c[1..] == [] && Led(c) == c;
    assert Framable(c) && Body(c) == nal;
    ChunkPieces(c);
    assert NalsOf(c) == [nal];
  }

  lemma {:induction false} UnitsAreChunks(nals: seq<seq<byte>>)
    requires forall k :: 0 <= k < |nals| ==> TripleFree(nals[k])
    ensures AllChunky(nals) && PiecesOf(nals) == nals
  {
    hide TripleFree;
    hide Chunky;
    hide Pieces;
    if nals != [] {
      UnitIsChunk(nals[0]);
      UnitsAreChunks(nals[1..]);
      assert nals == [nals[0]] + nals[1..];
    }
  }

  // ----- the splitter's output is made of chunks

  lemma ChunkAppend(u: Unit, c: seq<Unit>)
    requires TripleFree(u.nal) && Framable(c) && (c[0].long || EndsNonZero(u.nal))
    ensures var more := [u] + c;
            && Framable(more) && NalsOf(more) == [u.nal] + NalsOf(c)
            && Body(more) == u.nal + (CodeOctets(CodeLength(c[0])) + Body(c))
  {
    hide TripleFree;
    assert ([u] + c)[1..] == c;
  }

  lemma LoneChunk(u: Unit)
    requires TripleFree(u.nal)
    ensures Framable([u]) && NalsOf([u]) == [u.nal] && Body([u]) == u.nal
  {
    hide TripleFree;
    assert [u][1..] == [];
  }

  /** `c` is the chunk that the first fused unit consists of. */
  lemma {:induction false} FusedChunks(units: seq<Unit>) returns (c: seq<Unit>)
    requires Framable(units)
    ensures c != [] && c[0] == units[0] && Framable(c) && Fused(units)[0] == Body(c)
    ensures AllChunky(Fused(units)[1..])
    ensures NalsOf(c) + PiecesOf(Fused(units)[1..]) == NalsOf(units)
    decreases |units|
  {
    hide *;
    Heads(units);
    NalsHead(units);
    FusedLone(units);
    LoneChunk(units[0]);
    c := [units[0]];
    if |units| > 1 {
      var d := FusedChunks(units[1..]);
      var rest := Fused(units[1..]);
      FusedCases(units);
      if Unseen(units) {
        ChunkAppend(units[0], d);
        OneAndRest(units[0].nal + (CodeOctets(CodeLength(units[1])) + rest[0]), rest[1..]);
        Assoc([units[0].nal], NalsOf(d), PiecesOf(rest[1..]));
        c := [units[0]] + d;
      } else {
        OneAndRest(units[0].nal, rest);
        ChunkPieces(d);
        ChunkyFirst(rest, d);
        PiecesFirst(rest);
      }
    }
  }

  lemma FusedCases(units: seq<Unit>)
    requires |units| > 1
    ensures var rest := Fused(units[1..]);
            Fused(units) ==
            if Unseen(units) then [units[0].nal + (CodeOctets(CodeLength(units[1])) + rest[0])] + rest[1..]
            else [units[0].nal] + rest
  {
    hide Unseen;
  }

  lemma FusedLone(units: seq<Unit>)
    requires |units| > 0
    ensures |units| == 1 ==>
              && units == [units[0]] && Fused(units) == [units[0].nal] && Fused(units)[1..] == []
              && AllChunky([]) && PiecesOf([]) == [] && NalsOf(units) + [] == NalsOf(units)
  {
    hide Chunky;
  }

  lemma ChunkyFirst(fs: seq<seq<byte>>, c: seq<Unit>)
    requires fs != [] && Framable(c) && fs[0] == Body(c) && AllChunky(fs[1..])
    ensures AllChunky(fs)
  {
    hide Framable;
    assert Chunky(fs[0]);
    hide Chunky;
    assert forall k :: 0 < k < |fs| ==> fs[k] == fs[1..][k - 1];
  }

  /** What a reader finds in a packet of the given units once the splitter has been at it: nothing of a lone unit
      outside the search window, and everything else. */
  function UnitsRead(units: seq<Unit>): seq<seq<byte>> {
    if |units| == 1 && !LastSeen(units) then [] else NalsOf(Normal(units))
  }

  /** However many codes the splitter jumps over or does not look at, a reader finds in what it emits exactly the units
      of the packet, a zero octet in front of a short code going to the code. */
  lemma SplitKeepsUnits(units: seq<Unit>)
    requires |units| > 0 && AllTripleFree(units)
    ensures AllChunky(Split(Encode(units))) && PiecesOf(Split(Encode(units))) == UnitsRead(units)
    ensures UnitsRead(units) == NalsOf(units) <==> Distinct(units) && (|units| > 1 || LastSeen(units))
    ensures |UnitsRead(units)| <= |NalsOf(units)|
  {
    UnitsReadMeans(units);
    hide *;
    NormalIsFramable(units);
    NormalIff(units);
    SplitFuses(units);
    NothingChunky();
    var c := FusedChunks(Normal(units));
    ChunkPieces(c);
    ChunkyFirst(Fused(Normal(units)), c);
    PiecesFirst(Fused(Normal(units)));
  }

  lemma UnitsReadMeans(units: seq<Unit>)
    ensures |units| == 1 && !LastSeen(units) ==> UnitsRead(units) == []
    ensures !(|units| == 1 && !LastSeen(units)) ==> UnitsRead(units) == NalsOf(Normal(units))
    ensures Distinct(units) || |units| > 1
  {
    hide LastSeen;
  }

  lemma NothingChunky()
    ensures AllChunky([]) && PiecesOf([]) == []
  {
    hide Chunky;
  }
}
