/** Cutting an encoder packet into NAL units at the start codes the search reports. */
module NalSplitter {
  import opened Frames
  import opened StartCodeScan

  /** The NAL units from octet `start`, the first octet behind a reported code, to the end. */
  function NalsFrom(d: seq<byte>, start: nat): (r: seq<seq<byte>>)
    requires start <= |d|
    ensures |r| == |CodesFrom(d, start)| + 1
    ensures start < |d| ==> |r[|r| - 1]| > 0
    decreases |d| - start
  {
    match Scan(d, start)
    case None => [d[start..]]
    case Some(c) => [d[start..c.pos]] + NalsFrom(d, c.pos + c.length)
  }

  /** The codes reported from octet `start` on. */
  function CodesFrom(d: seq<byte>, start: nat): seq<StartCode>
    requires start <= |d|
    decreases |d| - start
  {
    match Scan(d, start)
    case None => []
    case Some(c) => [c] + CodesFrom(d, c.pos + c.length)
  }

  function Split(d: seq<byte>): seq<seq<byte>> {
    match Scan(d, 0)
    case None => []
    case Some(c) => NalsFrom(d, c.pos + c.length)
  }

  function SplitCodes(d: seq<byte>): seq<StartCode> {
    match Scan(d, 0)
    case None => []
    case Some(c) => [c] + CodesFrom(d, c.pos + c.length)
  }

  /** Frames that carry the given units, all with one stamp. */
  function FramesOf(nals: seq<seq<byte>>, stamp: int): (r: seq<FrameData>)
    ensures |r| == |nals| && forall k :: 0 <= k < |r| ==> r[k].data == nals[k] && r[k].stamp == stamp
  {
    seq(|nals|, k requires 0 <= k < |nals| => FrameData(nals[k], stamp))
  }

  lemma FramesOfAppend(nals: seq<seq<byte>>, nal: seq<byte>, stamp: int)
    ensures FramesOf(nals + [nal], stamp) == FramesOf(nals, stamp) + [FrameData(nal, stamp)]
  {
  }

  lemma Unfold(d: seq<byte>, start: nat)
    requires start <= |d|
    ensures Scan(d, start) == None ==> NalsFrom(d, start) == [d[start..]] && CodesFrom(d, start) == []
    ensures Scan(d, start).Some? ==>
              var c := Scan(d, start).value;
              && NalsFrom(d, start) == [d[start..c.pos]] + NalsFrom(d, c.pos + c.length)
              && CodesFrom(d, start) == [c] + CodesFrom(d, c.pos + c.length)
  {
    hide Scan;
  }

  lemma GenuineBounds(d: seq<byte>, c: StartCode)
    requires Genuine(d, c)
    ensures c.pos < c.pos + c.length < |d|
  {
  }

  lemma FramesOfNil(queue: seq<FrameData>, stamp: int)
    ensures queue == queue + FramesOf([], stamp)
  {
  }

  lemma SplitHead(d: seq<byte>)
    ensures Scan(d, 0) == None ==> Split(d) == [] && SplitCodes(d) == []
    ensures Scan(d, 0).Some? ==>
              var c := Scan(d, 0).value;
              && c.pos + c.length < |d|
              && Split(d) == NalsFrom(d, c.pos + c.length)
              && SplitCodes(d) == [c] + CodesFrom(d, c.pos + c.length) && SplitCodes(d)[0] == c
  {
    hide Scan;
    hide NalsFrom;
    if Scan(d, 0).Some? {
      GenuineBounds(d, Scan(d, 0).value);
    }
  }

  method SplitNALs(output: seq<FrameData>, data: seq<byte>, stamp: int) returns (output': seq<FrameData>, count: nat)
    requires |data| >= 4
    ensures count == |Split(data)|
    ensures output' == output + FramesOf(Split(data), stamp)
  {
    hide *;
    output', count := output, 0;
    SplitHead(data);
    FramesOfNil(output, stamp);
    var found, nalStart: nat, codeLength: nat := ScanForStartCode(data, 0);
    if !found {
      return;
    }
    nalStart := nalStart + codeLength;
    ghost var done: seq<seq<byte>> := [];
    EmptyLeft(NalsFrom(data, nalStart));
    var nalEnd: nat;
    found, nalEnd, codeLength := ScanForStartCode(data, nalStart);
    while found
      invariant nalStart < |data| && |done| == count
      invariant found <==> Scan(data, nalStart).Some?
      invariant found ==> Scan(data, nalStart) == Some(StartCode(nalEnd, codeLength))
      invariant Split(data) == done + NalsFrom(data, nalStart)
      invariant output' == output + FramesOf(done, stamp)
      decreases |data| - nalStart
    {
      GenuineBounds(data, StartCode(nalEnd, codeLength));
      output' := output' + [FrameData(data[nalStart..nalEnd], stamp)];
      Unfold(data, nalStart);
      FramesOfAppend(done, data[nalStart..nalEnd], stamp);
      Assoc(output, FramesOf(done, stamp), [FrameData(data[nalStart..nalEnd], stamp)]);
      Assoc(done, [data[nalStart..nalEnd]], NalsFrom(data, nalEnd + codeLength));
      done := done + [data[nalStart..nalEnd]];
      nalStart := nalEnd + codeLength;
      count := count + 1;
      found, nalEnd, codeLength := ScanForStartCode(data, nalStart);
    }
    output' := output' + [FrameData(data[nalStart..], stamp)];
    Unfold(data, nalStart);
    FramesOfAppend(done, data[nalStart..], stamp);
    Assoc(output, FramesOf(done, stamp), [FrameData(data[nalStart..], stamp)]);
    count := count + 1;
  }

  /** The octets of a start code of the given length. */
  function CodeOctets(length: nat): seq<byte> {
    if length == 4 then [0, 0, 0, 1] else [0, 0, 1]
  }

  function Interleave(codes: seq<StartCode>, nals: seq<seq<byte>>): seq<byte>
    requires |codes| == |nals|
  {
    if codes == [] then [] else CodeOctets(codes[0].length) + (nals[0] + Interleave(codes[1..], nals[1..]))
  }

  lemma InterleaveStep(c: StartCode, codes: seq<StartCode>, nal: seq<byte>, nals: seq<seq<byte>>)
    requires |codes| == |nals|
    ensures Interleave([c] + codes, [nal] + nals) == CodeOctets(c.length) + (nal + Interleave(codes, nals))
    ensures codes == [] ==> Interleave([c] + codes, [nal] + nals) == CodeOctets(c.length) + nal
  {
    assert ([c] + codes)[1..] == codes && ([nal] + nals)[1..] == nals;
  }

  lemma GlueCode(d: seq<byte>, start: nat, c: StartCode)
    requires start <= c.pos && Genuine(d, c)
    ensures d[start..] == d[start..c.pos] + (CodeOctets(c.length) + d[c.pos + c.length..])
    ensures start == c.pos ==> d[start..] == CodeOctets(c.length) + d[c.pos + c.length..]
  {
    var next := c.pos + c.length;
    assert d[c.pos..next] == CodeOctets(c.length);
    Glue(d, start, c.pos, next);
  }

  /** `c` stands for the code in front of octet `start`. */
  lemma {:induction false} TailPartition(d: seq<byte>, start: nat, c: StartCode)
    requires start <= |d|
    ensures CodeOctets(c.length) + d[start..] == Interleave([c] + CodesFrom(d, start), NalsFrom(d, start))
    decreases |d| - start
  {
    hide *;
    Unfold(d, start);
    match Scan(d, start)
    case None =>
      InterleaveStep(c, [], d[start..], []);
      NilUnits(c, d[start..]);
    case Some(e) =>
      var next := e.pos + e.length;
      GenuineBounds(d, e);
      TailPartition(d, next, e);
      GlueCode(d, start, e);
      InterleaveStep(c, [e] + CodesFrom(d, next), d[start..e.pos], NalsFrom(d, next));
  }

  lemma NilUnits(c: StartCode, nal: seq<byte>)
    ensures [c] + [] == [c] && [nal] + [] == [nal]
  {
  }

  /** From the first reported code on, a packet is exactly its reported codes and its NAL units in turn:
      no octet is lost, repeated or moved. Without a reported code nothing comes out. The last unit of a
      split packet is never empty. */
  lemma SplitPartition(d: seq<byte>)
    ensures |SplitCodes(d)| == |Split(d)|
    ensures Split(d) == [] <==> Scan(d, 0) == None
    ensures Split(d) != [] ==> d[SplitCodes(d)[0].pos..] == Interleave(SplitCodes(d), Split(d))
    ensures Split(d) != [] ==> Split(d)[|Split(d)| - 1] != []
  {
    hide *;
    SplitHead(d);
    if Scan(d, 0).Some? {
      var c := Scan(d, 0).value;
      GenuineBounds(d, c);
      TailPartition(d, c.pos + c.length, c);
      GlueCode(d, c.pos, c);
    }
  }
}
