/** The RTSP client's sink: collects delivered NAL units in a fixed buffer, each behind a start code, and
    passes the buffer on once it holds more than 48 octets. */
module FrameExtractor {
  import opened Frames
  import opened NalSplitter
  import opened RoundTrip

  const CAPACITY: nat := 131072
  const THRESHOLD: nat := 48

  datatype ExtractorError = UnsupportedCodec | BufferOverflow

  // ----- the effect of the two callbacks on the buffered octets

  /** The buffer after the sink has asked for the next unit. */
  function Armed(codec: VideoCodec, content: seq<byte>): seq<byte> {
    if UsesStartCodes(codec) && |content| <= CAPACITY - 4 then content + START_CODE else content
  }

  /** The part of a unit that fits behind the buffered octets. */
  function Accepted(content: seq<byte>, nal: seq<byte>): seq<byte>
    requires |content| <= CAPACITY
  {
    nal[..Min(|nal|, CAPACITY - |content|)]
  }

  datatype Delivery = Delivery(emitted: Option<seq<byte>>, content: seq<byte>)

  function Deliver(codec: VideoCodec, content: seq<byte>, nal: seq<byte>): (r: Delivery)
    requires |content| <= CAPACITY
    ensures |r.content| <= CAPACITY
    ensures r.emitted.Some? ==> THRESHOLD < |r.emitted.value| <= CAPACITY
    ensures r.emitted.None? && UsesStartCodes(codec) ==> |r.content| <= THRESHOLD + 4
  {
    var full := content + Accepted(content, nal);
    if |full| > THRESHOLD then Delivery(Some(full), Armed(codec, []))
    else Delivery(None, Armed(codec, full))
  }

  /** One delivery in octets: as much of the unit as the 131072 octets leave room for goes behind what is there; over
      48 octets are passed on, and for H.264 and H.265 the next start code follows wherever it fits. */
  lemma DeliverDecides(codec: VideoCodec, content: seq<byte>, nal: seq<byte>)
    requires |content| <= 131072
    ensures var size := if |nal| <= 131072 - |content| then |nal| else 131072 - |content|;
            var full := content + nal[..size];
            var kept := if |full| > 48 then [] else full;
            && Deliver(codec, content, nal).emitted == (if |full| > 48 then Some(full) else None)
            && Deliver(codec, content, nal).content
               == kept + (if (codec == H264 || codec == H265) && |kept| <= 131068 then [0, 0, 0, 1] else [])
  {
  }

  /** Everything that happens to a run of delivered units: emissions, accepted payloads, final buffer. */
  datatype Run = Run(emissions: seq<seq<byte>>, payloads: seq<seq<byte>>, content: seq<byte>)

  function Deliveries(codec: VideoCodec, content: seq<byte>, nals: seq<seq<byte>>): (r: Run)
    requires |content| <= CAPACITY
    ensures |r.content| <= CAPACITY && |r.payloads| == |nals|
    ensures forall e :: e in r.emissions ==> THRESHOLD < |e| <= CAPACITY
    decreases |nals|
  {
    if nals == [] then Run([], [], content)
    else
      var d := Deliver(codec, content, nals[0]);
      var rest := Deliveries(codec, d.content, nals[1..]);
      Run((if d.emitted.Some? then [d.emitted.value] else []) + rest.emissions,
          [Accepted(content, nals[0])] + rest.payloads, rest.content)
  }

  // ----- the same run on lists of units: `pending` are the units the buffer holds

  datatype Grouping = Grouping(groups: seq<seq<seq<byte>>>, pending: seq<seq<byte>>)

  function Group(pending: seq<seq<byte>>, payloads: seq<seq<byte>>): Grouping
    decreases |payloads|
  {
    if payloads == [] then Grouping([], pending)
    else
      var more := pending + [payloads[0]];
      if |Framed(more)| > THRESHOLD then
        var rest := Group([], payloads[1..]);
        Grouping([more] + rest.groups, rest.pending)
      else Group(more, payloads[1..])
  }

  function Flatten(groups: seq<seq<seq<byte>>>): seq<seq<byte>> {
    if groups == [] then [] else groups[0] + Flatten(groups[1..])
  }

  function FramedGroups(groups: seq<seq<seq<byte>>>): (r: seq<seq<byte>>)
    ensures |r| == |groups|
  {
    if groups == [] then [] else [Framed(groups[0])] + FramedGroups(groups[1..])
  }

  /** Grouping loses, repeats and reorders nothing. */
  lemma {:induction false} GroupKeepsAll(pending: seq<seq<byte>>, payloads: seq<seq<byte>>)
    ensures var g := Group(pending, payloads); Flatten(g.groups) + g.pending == pending + payloads
    decreases |payloads|
  {
    if payloads != [] {
      var more, rest := pending + [payloads[0]], payloads[1..];
      assert pending + payloads == more + rest;
      if |Framed(more)| > THRESHOLD {
        GroupKeepsAll([], rest);
        FlattenHead(more, Group([], rest).groups);
        Assoc(more, Flatten(Group([], rest).groups), Group([], rest).pending);
      } else {
        GroupKeepsAll(more, rest);
      }
    }
  }

  lemma FlattenHead(g: seq<seq<byte>>, groups: seq<seq<seq<byte>>>)
    ensures Flatten([g] + groups) == g + Flatten(groups)
    ensures FramedGroups([g] + groups) == [Framed(g)] + FramedGroups(groups)
  {
    assert ([g] + groups)[1..] == groups;
  }

  lemma FramedSnoc(nals: seq<seq<byte>>, nal: seq<byte>)
    ensures Framed(nals + [nal]) == Framed(nals) + (START_CODE + nal)
    ensures Framed(nals + [nal]) == (Framed(nals) + START_CODE) + nal
  {
    FramedAppend(nals, [nal]);
    assert Framed([nal]) == START_CODE + nal;
    Assoc(Framed(nals), START_CODE, nal);
  }

  /** While the buffer is some framed units and a pending code, every emission is framed units and the buffer
      stays of that form. */
  lemma {:induction false} DeliveriesAreGroups(codec: VideoCodec, pending: seq<seq<byte>>, nals: seq<seq<byte>>)
    requires UsesStartCodes(codec) && |Framed(pending) + START_CODE| <= CAPACITY
    ensures var run := Deliveries(codec, Framed(pending) + START_CODE, nals);
            var g := Group(pending, run.payloads);
            run.emissions == FramedGroups(g.groups) && run.content == Framed(g.pending) + START_CODE
    decreases |nals|
  {
    if nals != [] {
      var content := Framed(pending) + START_CODE;
      var p := Accepted(content, nals[0]);
      var more := pending + [p];
      FramedSnoc(pending, p);
      if |Framed(more)| > THRESHOLD {
        EmptyLeft(START_CODE);
        DeliveriesAreGroups(codec, [], nals[1..]);
        EmittingStep(codec, pending, nals);
      } else {
        DeliveriesAreGroups(codec, more, nals[1..]);
        CollectingStep(codec, pending, nals);
      }
    }
  }

  lemma EmittingStep(codec: VideoCodec, pending: seq<seq<byte>>, nals: seq<seq<byte>>)
    requires UsesStartCodes(codec) && |Framed(pending) + START_CODE| <= CAPACITY && nals != []
    requires var more := pending + [Accepted(Framed(pending) + START_CODE, nals[0])];
             |Framed(more)| > THRESHOLD
    ensures var content := Framed(pending) + START_CODE;
            var run, rest := Deliveries(codec, content, nals), Deliveries(codec, Framed([]) + START_CODE, nals[1..]);
            var more := pending + [Accepted(content, nals[0])];
            && run.emissions == [Framed(more)] + rest.emissions && run.content == rest.content
            && Group(pending, run.payloads).pending == Group([], rest.payloads).pending
            && FramedGroups(Group(pending, run.payloads).groups)
               == [Framed(more)] + FramedGroups(Group([], rest.payloads).groups)
  {
    hide Framed;
    FramedNil();
    var content := Framed(pending) + START_CODE;
    var p := Accepted(content, nals[0]);
    var more := pending + [p];
    FramedSnoc(pending, p);
    EmptyLeft(START_CODE);
    var rest := Deliveries(codec, START_CODE, nals[1..]);
    assert Deliver(codec, content, nals[0]) == Delivery(Some(Framed(more)), START_CODE);
    assert ([p] + rest.payloads)[1..] == rest.payloads;
    FlattenHead(more, Group([], rest.payloads).groups);
  }

  lemma CollectingStep(codec: VideoCodec, pending: seq<seq<byte>>, nals: seq<seq<byte>>)
    requires UsesStartCodes(codec) && |Framed(pending) + START_CODE| <= CAPACITY && nals != []
    requires var more := pending + [Accepted(Framed(pending) + START_CODE, nals[0])];
             |Framed(more)| <= THRESHOLD
    ensures var content := Framed(pending) + START_CODE;
            var more := pending + [Accepted(content, nals[0])];
            var run, rest := Deliveries(codec, content, nals), Deliveries(codec, Framed(more) + START_CODE, nals[1..]);
            && run.emissions == rest.emissions && run.content == rest.content
            && Group(pending, run.payloads) == Group(more, rest.payloads)
  {
    hide Framed;
    hide Accepted;
    var content := Framed(pending) + START_CODE;
    var p := Accepted(content, nals[0]);
    FramedSnoc(pending, p);
    var after := Framed(pending + [p]) + START_CODE;
    assert Deliver(codec, content, nals[0]) == Delivery(None, after);
    var rest := Deliveries(codec, after, nals[1..]);
    EmptyLeft(rest.emissions);
    assert ([p] + rest.payloads)[1..] == rest.payloads;
  }

  lemma FramedPrefix(nals: seq<seq<byte>>, i: nat)
    requires i < |nals|
    ensures Framed(nals[..i + 1]) == (Framed(nals[..i]) + START_CODE) + nals[i]
    ensures |Framed(nals[..i])| + 4 + |nals[i]| <= |Framed(nals)|
  {
    hide Framed;
    assert nals[..i + 1] == nals[..i] + [nals[i]];
    assert nals == nals[..i + 1] + nals[i + 1..];
    FramedSnoc(nals[..i], nals[i]);
    FramedAppend(nals[..i + 1], nals[i + 1..]);
  }

  lemma FramedNil()
    ensures Framed([]) == []
  {
  }

  // ----- laws over whole runs

  /** Playing starts with the preloaded parameter sets in the buffer. */
  function Play(codec: VideoCodec, params: seq<seq<byte>>, nals: seq<seq<byte>>): Run
    requires |Framed(params)| <= CAPACITY
  {
    Deliveries(codec, Armed(codec, Framed(params)), nals)
  }

  predicate HasRoom(params: seq<seq<byte>>) {
    |Framed(params)| <= CAPACITY - 4
  }

  lemma {:induction false} FramedGroupsFlatten(groups: seq<seq<seq<byte>>>)
    ensures Concat(FramedGroups(groups)) == Framed(Flatten(groups))
  {
    if groups != [] {
      FramedGroupsFlatten(groups[1..]);
      FramedAppend(groups[0], Flatten(groups[1..]));
      assert FramedGroups(groups)[1..] == FramedGroups(groups[1..]);
    }
  }

  /** Stream law: all emissions one after the other, followed by the buffer, are the parameter sets and the
      accepted payloads, each behind its start code, and the code of the unit to come. */
  lemma StreamLaw(codec: VideoCodec, params: seq<seq<byte>>, nals: seq<seq<byte>>)
    requires UsesStartCodes(codec) && HasRoom(params)
    ensures var run := Play(codec, params, nals);
            Concat(run.emissions) + run.content == Framed(params + run.payloads) + START_CODE
  {
    hide *;
    PlayHead(codec, params, nals);
    DeliveriesAreGroups(codec, params, nals);
    var run := Play(codec, params, nals);
    var g := Group(params, run.payloads);
    GroupKeepsAll(params, run.payloads);
    FramedGroupsFlatten(g.groups);
    FramedAppend(Flatten(g.groups), g.pending);
    Assoc(Framed(Flatten(g.groups)), Framed(g.pending), START_CODE);
  }

  lemma PlayHead(codec: VideoCodec, params: seq<seq<byte>>, nals: seq<seq<byte>>)
    requires UsesStartCodes(codec) && HasRoom(params)
    ensures |Framed(params) + START_CODE| <= CAPACITY
    ensures |Framed(params)| <= CAPACITY
    ensures Play(codec, params, nals) == Deliveries(codec, Framed(params) + START_CODE, nals)
  {
  }

  /** The law holds exactly when the parameter sets leave room for a code. */
  lemma StreamLawIff(codec: VideoCodec, params: seq<seq<byte>>, nals: seq<seq<byte>>)
    requires UsesStartCodes(codec) && |Framed(params)| <= CAPACITY
    ensures var run := Play(codec, params, nals);
            Concat(run.emissions) + run.content == Framed(params + run.payloads) + START_CODE <==> HasRoom(params)
  {
    if HasRoom(params) {
      StreamLaw(codec, params, nals);
    } else {
      var run := Play(codec, params, nals);
      FramedAppend(params, run.payloads);
      if nals == [] {
        FramedNil();
        assert |Concat(run.emissions) + run.content| == |Framed(params)|;
      } else {
        GluedStreamLaw(codec, params, nals);
        FramedAppend([run.payloads[0]], run.payloads[1..]);
        FramedOne(run.payloads[0]);
        assert run.payloads == [run.payloads[0]] + run.payloads[1..];
      }
    }
  }

  /** Without room the first unit is glued to the last parameter set and both go out at once; every later unit
      has its code. */
  lemma GluedStreamLaw(codec: VideoCodec, params: seq<seq<byte>>, nals: seq<seq<byte>>)
    requires UsesStartCodes(codec) && |Framed(params)| <= CAPACITY && !HasRoom(params) && nals != []
    ensures var run := Play(codec, params, nals);
            && run.emissions != [] && run.payloads != []
            && run.emissions[0] == Framed(params) + run.payloads[0]
            && Concat(run.emissions) + run.content
               == (Framed(params) + run.payloads[0]) + (Framed(run.payloads[1..]) + START_CODE)
  {
    hide Framed;
    var p := Accepted(Framed(params), nals[0]);
    var full := Framed(params) + p;
    EmptyLeft(START_CODE);
    FramedNil();
    assert Deliver(codec, Framed(params), nals[0]) == Delivery(Some(full), START_CODE);
    var rest := Deliveries(codec, START_CODE, nals[1..]);
    var run := Play(codec, params, nals);
    assert run.emissions == [full] + rest.emissions && run.content == rest.content;
    assert run.payloads == [p] + rest.payloads;
    PlayHead(codec, [], nals[1..]);
    StreamLaw(codec, [], nals[1..]);
    EmptyLeft(rest.payloads);
    assert ([full] + rest.emissions)[1..] == rest.emissions && ([p] + rest.payloads)[1..] == rest.payloads;
    Assoc(full, Concat(rest.emissions), rest.content);
  }

  /** Such parameter sets exist: a single one of 131065 octets is accepted and leaves no room. */
  lemma RoomCanRunOut()
    ensures var params := [seq(131065, _ => 1 as byte)];
            |Framed(params)| <= CAPACITY && !HasRoom(params)
  {
    FramedOne(seq(131065, _ => 1 as byte));
  }

  lemma FramedOne(p: seq<byte>)
    ensures |Framed([p])| == 4 + |p|
  {
    assert [p][1..] == [];
  }

  function SplitAll(emissions: seq<seq<byte>>): seq<seq<byte>> {
    if emissions == [] then [] else Split(emissions[0]) + SplitAll(emissions[1..])
  }

  ghost predicate CleanUnits(nals: seq<seq<byte>>) {
    forall k :: 0 <= k < |nals| ==> nals[k] != [] && TripleFree(nals[k])
  }

  ghost predicate AllClean(groups: seq<seq<seq<byte>>>) {
    groups != [] ==> groups[0] != [] && CleanUnits(groups[0]) && AllClean(groups[1..])
  }

  lemma {:induction false} SplitGroups(groups: seq<seq<seq<byte>>>)
    requires AllClean(groups)
    ensures SplitAll(FramedGroups(groups)) == Flatten(groups)
  {
    hide Split;
    hide Framed;
    if groups != [] {
      RoundTripIff(groups[0]);
      SplitGroups(groups[1..]);
      assert FramedGroups(groups)[1..] == FramedGroups(groups[1..]);
    }
  }

  lemma {:induction false} GroupsAreClean(pending: seq<seq<byte>>, payloads: seq<seq<byte>>)
    requires CleanUnits(pending) && CleanUnits(payloads)
    ensures AllClean(Group(pending, payloads).groups)
    decreases |payloads|
  {
    hide Framed;
    hide TripleFree;
    if payloads != [] {
      var more := pending + [payloads[0]];
      assert CleanUnits(more) && CleanUnits(payloads[1..]);
      GroupsAreClean([], payloads[1..]);
      GroupsAreClean(more, payloads[1..]);
      assert ([more] + Group([], payloads[1..]).groups)[1..] == Group([], payloads[1..]).groups;
    }
  }

  lemma GroupsSplitBack(codec: VideoCodec, params: seq<seq<byte>>, nals: seq<seq<byte>>)
      returns (pending: seq<seq<byte>>)
    requires UsesStartCodes(codec) && HasRoom(params)
    requires CleanUnits(params) && CleanUnits(Play(codec, params, nals).payloads)
    ensures var run := Play(codec, params, nals);
            SplitAll(run.emissions) + pending == params + run.payloads && run.content == Framed(pending) + START_CODE
  {
    hide *;
    PlayHead(codec, params, nals);
    DeliveriesAreGroups(codec, params, nals);
    var run := Play(codec, params, nals);
    var g := Group(params, run.payloads);
    pending := g.pending;
    GroupKeepsAll(params, run.payloads);
    GroupsAreClean(params, run.payloads);
    SplitGroups(g.groups);
  }

  /** As long as the first unit finds a free octet, what is accepted of clean units is clean. */
  lemma {:induction false} PayloadsAreClean(codec: VideoCodec, content: seq<byte>, nals: seq<seq<byte>>)
    requires UsesStartCodes(codec) && |content| < CAPACITY && CleanUnits(nals)
    ensures CleanUnits(Deliveries(codec, content, nals).payloads)
    decreases |nals|
  {
    hide TripleFree;
    if nals != [] {
      var d, p := Deliver(codec, content, nals[0]), Accepted(content, nals[0]);
      PrefixIsTripleFree(nals[0], Min(|nals[0]|, CAPACITY - |content|));
      assert p != [] && TripleFree(p);
      PayloadsAreClean(codec, d.content, nals[1..]);
    }
  }

  /** End to end: cutting every emitted frame at its start codes gives back the parameter sets and the accepted
      parts of the units, each once and in order; what is missing at the end is exactly what the buffer still
      holds. */
  lemma EmissionsSplitBack(codec: VideoCodec, params: seq<seq<byte>>, nals: seq<seq<byte>>)
      returns (pending: seq<seq<byte>>)
    requires UsesStartCodes(codec) && CleanUnits(params) && CleanUnits(nals)
    requires |Framed(params)| + 4 < CAPACITY
    ensures var run := Play(codec, params, nals);
            SplitAll(run.emissions) + pending == params + run.payloads && run.content == Framed(pending) + START_CODE
  {
    PlayHead(codec, params, nals);
    PayloadsAreClean(codec, Framed(params) + START_CODE, nals);
    pending := GroupsSplitBack(codec, params, nals);
  }

  /** Nothing is cut short when the first unit fits behind what is buffered and the later ones have at most
      131020 octets. */
  lemma {:induction false} NothingTruncated(codec: VideoCodec, content: seq<byte>, nals: seq<seq<byte>>)
    requires |content| <= CAPACITY && (nals != [] ==> |content| + |nals[0]| <= CAPACITY)
    requires forall k :: 0 < k < |nals| ==> |nals[k]| <= CAPACITY - THRESHOLD - 4
    ensures Deliveries(codec, content, nals).payloads == nals
    decreases |nals|
  {
    if nals != [] {
      var d := Deliver(codec, content, nals[0]);
      assert |d.content| <= THRESHOLD + 4;
      assert Accepted(content, nals[0]) == nals[0];
      NothingTruncated(codec, d.content, nals[1..]);
      assert [nals[0]] + nals[1..] == nals;
    }
  }

  /** For every other codec the octets pass through untouched. */
  lemma {:induction false} RawStreamLaw(codec: VideoCodec, content: seq<byte>, nals: seq<seq<byte>>)
    requires !UsesStartCodes(codec) && |content| <= CAPACITY
    ensures var run := Deliveries(codec, content, nals);
            Concat(run.emissions) + run.content == content + Concat(run.payloads)
    decreases |nals|
  {
    if nals == [] {
      assert Concat([]) + content == content + Concat([]);
    } else {
      var p := Accepted(content, nals[0]);
      var d := Deliver(codec, content, nals[0]);
      RawStreamLaw(codec, d.content, nals[1..]);
      var rest := Deliveries(codec, d.content, nals[1..]);
      assert ([p] + rest.payloads)[1..] == rest.payloads;
      Assoc(content, p, Concat(rest.payloads));
      if d.emitted.Some? {
        assert ([content + p] + rest.emissions)[1..] == rest.emissions;
        EmptyLeft(Concat(rest.payloads));
        Assoc(content + p, Concat(rest.emissions), rest.content);
      } else {
        EmptyLeft(rest.emissions);
      }
    }
  }

  // ----- the sink itself

  class FrameExtractor {
    const codec: VideoCodec
    const buffer: array<byte>
    var bufferLength: nat

    ghost predicate Valid()
      reads this
    {
      buffer.Length == CAPACITY && bufferLength <= CAPACITY
    }

    ghost function Contents(): seq<byte>
      reads this, buffer
      requires Valid()
    {
      buffer[..bufferLength]
    }

    constructor (codec: VideoCodec)
      ensures Valid() && fresh(buffer) && this.codec == codec && bufferLength == 0
    {
      this.codec := codec;
      buffer := new byte[CAPACITY];
      bufferLength := 0;
    }

    /** `sprops` are the parameter sets announced out of band (section 8.1 of RFC 6184); they are used only
        while the owning client is alive. */
    static method CreateNew(codec: VideoCodec, sprops: Option<seq<seq<byte>>>, clientAlive: bool)
        returns (r: Result<FrameExtractor, ExtractorError>)
      ensures codec == Unknown ==> r == Err(UnsupportedCodec)
      ensures codec != Unknown ==>
                var params := if UsesStartCodes(codec) && clientAlive && sprops.Some? then sprops.value else [];
                && (r.Ok? <==> |Framed(params)| <= CAPACITY)
                && (r.Err? ==> r.error == BufferOverflow)
      ensures r.Ok? ==>
                var params := if UsesStartCodes(codec) && clientAlive && sprops.Some? then sprops.value else [];
                && fresh(r.value) && fresh(r.value.buffer) && r.value.Valid()
                && r.value.codec == codec && r.value.Contents() == Framed(params)
    {
      if codec == Unknown {
        return Err(UnsupportedCodec);
      }
      var e := new FrameExtractor(codec);
      if UsesStartCodes(codec) && sprops.Some? && clientAlive {
        var ok := e.Preload(sprops.value);
        if !ok {
          return Err(BufferOverflow);
        }
      }
      return Ok(e);
    }

    method Preload(nals: seq<seq<byte>>) returns (ok: bool)
      requires Valid() && bufferLength == 0
      modifies this, buffer
      ensures Valid()
      ensures ok <==> |Framed(nals)| <= CAPACITY
      ensures ok ==> Contents() == Framed(nals)
    {
      hide Framed;
      FramedNil();
      assert nals[..0] == [];
      var i := 0;
      while i < |nals|
        invariant 0 <= i <= |nals| && Valid()
        invariant Contents() == Framed(nals[..i])
      {
        FramedPrefix(nals, i);
        if bufferLength + |nals[i]| + 4 > buffer.Length {
          return false;
        }
        Append(nals[i]);
        i := i + 1;
      }
      assert nals[..i] == nals;
      return true;
    }

    method Append(nal: seq<byte>)
      requires Valid() && bufferLength + |nal| + 4 <= CAPACITY
      modifies this, buffer
      ensures Valid() && Contents() == (old(Contents()) + START_CODE) + nal
    {
      Copy(START_CODE, bufferLength);
      Copy(nal, bufferLength + 4);
      AppendTwice(buffer, bufferLength, START_CODE, nal);
      bufferLength := bufferLength + |nal| + 4;
    }

    method Copy(source: seq<byte>, at: nat)
      requires Valid() && at + |source| <= CAPACITY
      modifies buffer
      ensures Valid() && buffer[..at] == old(buffer[..at]) && buffer[at..at + |source|] == source
    {
      forall i | 0 <= i < |source| {
        buffer[at + i] := source[i];
      }
    }

    method ContinuePlaying() returns (maxSize: nat)
      requires Valid()
      modifies this`bufferLength, buffer
      ensures Valid() && Contents() == Armed(codec, old(Contents()))
      ensures maxSize == CAPACITY - bufferLength
    {
      if UsesStartCodes(codec) {
        if buffer.Length - 4 >= bufferLength {
          Copy(START_CODE, bufferLength);
          AppendOnce(buffer, bufferLength, START_CODE);
          bufferLength := bufferLength + 4;
        }
      }
      maxSize := buffer.Length - bufferLength;
    }

    /** The library's part of a delivery: it fills the free space behind the buffered octets. */
    method FillFromSource(nal: seq<byte>) returns (frameSize: nat, numTruncatedBytes: nat)
      requires Valid()
      modifies buffer
      ensures Valid() && bufferLength + frameSize <= CAPACITY
      ensures Contents() == old(Contents()) && frameSize + numTruncatedBytes == |nal|
      ensures buffer[bufferLength..bufferLength + frameSize] == Accepted(old(Contents()), nal)
    {
      frameSize := Min(|nal|, buffer.Length - bufferLength);
      numTruncatedBytes := |nal| - frameSize;
      Copy(nal[..frameSize], bufferLength);
    }

    method DeliverFrame(frameSize: nat, seconds: int, microseconds: int, clientAlive: bool)
        returns (emitted: Option<FrameData>)
      requires Valid() && bufferLength + frameSize <= CAPACITY
      modifies this`bufferLength, buffer
      ensures Valid()
      ensures !clientAlive ==> emitted == None && Contents() == old(Contents())
      ensures clientAlive ==>
                var full := old(buffer[..bufferLength + frameSize]);
                if |full| > THRESHOLD then
                  && emitted == Some(FrameData(full, PresentationStamp(seconds, microseconds)))
                  && Contents() == Armed(codec, [])
                else emitted == None && Contents() == Armed(codec, full)
    {
      emitted := None;
      if clientAlive {
        bufferLength := bufferLength + frameSize;
        if bufferLength > THRESHOLD {
          emitted := Some(FrameData(buffer[..bufferLength], PresentationStamp(seconds, microseconds)));
          bufferLength := 0;
        }
        var _ := ContinuePlaying();
      }
    }

    /** One delivery from the library and the callback it triggers. */
    method OnFrame(nal: seq<byte>, seconds: int, microseconds: int) returns (emitted: Option<FrameData>)
      requires Valid()
      modifies this`bufferLength, buffer
      ensures Valid()
      ensures var d := Deliver(codec, old(Contents()), nal);
              && Contents() == d.content
              && (emitted.Some? <==> d.emitted.Some?)
              && (emitted.Some? ==>
                  emitted.value == FrameData(d.emitted.value, PresentationStamp(seconds, microseconds)))
    {
      var size, _ := FillFromSource(nal);
      assert buffer[..bufferLength + size] == Contents() + buffer[bufferLength..bufferLength + size];
      emitted := DeliverFrame(size, seconds, microseconds, true);
    }
  }

  lemma AppendOnce(a: array<byte>, n: nat, s: seq<byte>)
    requires n + |s| <= a.Length && a[n..n + |s|] == s
    ensures a[..n + |s|] == a[..n] + s
  {
    assert a[..n + |s|] == a[..n] + a[n..n + |s|];
  }

  lemma AppendTwice(a: array<byte>, n: nat, s: seq<byte>, t: seq<byte>)
    requires n + |s| + |t| <= a.Length && a[n + |s|..n + |s| + |t|] == t && a[..n + |s|][n..] == s
    ensures a[..n + |s| + |t|] == (a[..n] + s) + t
  {
    assert a[..n + |s|] == a[..n] + a[..n + |s|][n..];
    assert a[..n + |s| + |t|] == a[..n + |s|] + a[n + |s|..n + |s| + |t|];
  }
}
