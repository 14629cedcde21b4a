/** From the codec's packets at the publisher to the frames handed to the decoder at the subscriber, with a
    transport in between that carries NAL units whole and in order. */
module Pipeline {
  import opened Frames
  import opened NalSplitter
  import opened RoundTrip
  import opened Reader
  import Encoders = StreamEncoder
  import Injectors = FrameInjector
  import Servers = StreamServer
  import Extractors = FrameExtractor
  import Publishers = PublisherPlugin

  // ----- the sending side

  /** Packets made of units behind codes of three or four octets in any mixture. */
  ghost predicate Composed(packets: seq<seq<Unit>>) {
    packets != [] ==> packets[0] != [] && AllTripleFree(packets[0]) && Composed(packets[1..])
  }

  /** Packets in each of which the search finds every code, and none besides. */
  predicate Readable(packets: seq<seq<Unit>>) {
    packets != [] ==> Distinct(packets[0]) && LastSeen(packets[0]) && Sighted(packets[0]) && Readable(packets[1..])
  }

  function Encoded(packets: seq<seq<Unit>>): seq<seq<byte>> {
    if packets == [] then [] else [Encode(packets[0])] + Encoded(packets[1..])
  }

  function UnitsOf(packets: seq<seq<Unit>>): seq<seq<byte>> {
    if packets == [] then [] else NalsOf(packets[0]) + UnitsOf(packets[1..])
  }

  lemma PacketHead(codec: VideoCodec, packets: seq<seq<Unit>>)
    requires UsesStartCodes(codec) && packets != []
    ensures Encoders.Produced(codec, Encoded(packets))
            == Split(Encode(packets[0])) + Encoders.Produced(codec, Encoded(packets[1..]))
  {
    hide Split;
    hide Encode;
    assert Encoded(packets)[1..] == Encoded(packets[1..]);
  }

  /** The encoder queues exactly the units of its packets if and only if all packets are readable, and never more
      frames than units. */
  lemma {:induction false} PacketsBecomeUnitsIff(codec: VideoCodec, packets: seq<seq<Unit>>)
    requires UsesStartCodes(codec) && Composed(packets)
    ensures Encoders.Produced(codec, Encoded(packets)) == UnitsOf(packets) <==> Readable(packets)
    ensures |Encoders.Produced(codec, Encoded(packets))| <= |UnitsOf(packets)|
  {
    hide Split;
    hide Encode;
    hide NalsOf;
    hide AllTripleFree;
    hide Distinct;
    hide LastSeen;
    hide Sighted;
    if packets != [] {
      var units := packets[0];
      MixedRoundTripIff(units);
      SplitFuses(units);
      PacketHead(codec, packets);
      PacketsBecomeUnitsIff(codec, packets[1..]);
      SameParts(Split(Encode(units)), Encoders.Produced(codec, Encoded(packets[1..])),
                NalsOf(units), UnitsOf(packets[1..]));
    }
  }

  lemma SameParts(a: seq<seq<byte>>, b: seq<seq<byte>>, c: seq<seq<byte>>, d: seq<seq<byte>>)
    requires |a| <= |c| && |b| <= |d|
    ensures a + b == c + d <==> a == c && b == d
  {
    if a + b == c + d {
      assert a == (a + b)[..|a|] && c == (c + d)[..|c|];
      assert b == (a + b)[|a|..] && d == (c + d)[|c|..];
    }
  }

  /** Packets that use four-octet codes throughout, or after a first code of three octets, are readable if their
      last code lies inside the window. */
  lemma {:induction false} LongCodesAreReadable(packets: seq<seq<Unit>>)
    requires forall p :: p in packets ==> LastSeen(p) && AllLongBehindFirst(p)
    ensures Readable(packets)
  {
    hide LastSeen;
    if packets != [] {
      assert packets[0] in packets;
      LongIsSighted(packets[0]);
      assert forall p :: p in packets[1..] ==> p in packets;
      LongCodesAreReadable(packets[1..]);
    }
  }

  predicate AllLongBehindFirst(units: seq<Unit>) {
    forall k :: 0 < k < |units| ==> units[k].long
  }

  /** The units of composed packets hold no start code. */
  lemma {:induction false} ComposedIsTripleFree(packets: seq<seq<Unit>>)
    requires Composed(packets)
    ensures forall k :: 0 <= k < |UnitsOf(packets)| ==> TripleFree(UnitsOf(packets)[k])
  {
    hide TripleFree;
    hide Encode;
    if packets != [] {
      NalsAreTripleFree(packets[0]);
      ComposedIsTripleFree(packets[1..]);
    }
  }

  lemma {:induction false} NalsAreTripleFree(units: seq<Unit>)
    requires AllTripleFree(units)
    ensures forall k :: 0 <= k < |NalsOf(units)| ==> TripleFree(NalsOf(units)[k])
  {
    hide TripleFree;
    if units != [] {
      NalsAreTripleFree(units[1..]);
    }
  }

  /** What a reader finds of the packets' units, packet by packet. */
  function AllUnitsRead(packets: seq<seq<Unit>>): seq<seq<byte>> {
    if packets == [] then [] else UnitsRead(packets[0]) + AllUnitsRead(packets[1..])
  }

  /** No short code stands behind a zero octet, and no packet is a lone unit outside the search window. */
  predicate Tellable(packets: seq<seq<Unit>>) {
    packets != [] ==>
      Distinct(packets[0]) && (|packets[0]| > 1 || LastSeen(packets[0])) && Tellable(packets[1..])
  }

  /** Readable or not, what the encoder queues is made of the original units; a reader finds exactly all of them if and
      only if the packets are tellable. */
  lemma {:induction false} ProducedKeepsUnits(codec: VideoCodec, packets: seq<seq<Unit>>)
    requires UsesStartCodes(codec) && Composed(packets)
    ensures var queued := Encoders.Produced(codec, Encoded(packets));
            AllChunky(queued) && PiecesOf(queued) == AllUnitsRead(packets)
    ensures AllUnitsRead(packets) == UnitsOf(packets) <==> Tellable(packets)
    ensures |AllUnitsRead(packets)| <= |UnitsOf(packets)|
  {
    hide Split;
    hide Encode;
    hide NalsOf;
    hide AllTripleFree;
    hide Distinct;
    hide LastSeen;
    hide UnitsRead;
    hide Chunky;
    hide Pieces;
    if packets != [] {
      SplitKeepsUnits(packets[0]);
      PacketHead(codec, packets);
      ProducedKeepsUnits(codec, packets[1..]);
      PiecesAppend(Split(Encode(packets[0])), Encoders.Produced(codec, Encoded(packets[1..])));
      SameParts(UnitsRead(packets[0]), AllUnitsRead(packets[1..]), NalsOf(packets[0]), UnitsOf(packets[1..]));
    }
  }

  // ----- from images to the frames sent

  /** One step of the publisher, and the packets its codec hands out in it. */
  datatype Turn = Turn(step: Publishers.Action, packets: seq<seq<Unit>>)

  /** The encoder's answer to an image is what it makes of the packets. */
  predicate Answers(codec: VideoCodec, t: Turn) {
    t.step.Publish? && t.step.produced.Some? ==>
      Payloads(t.step.produced.value) == Encoders.Produced(codec, Encoded(t.packets))
  }

  function Steps(turns: seq<Turn>): seq<Publishers.Action> {
    if turns == [] then [] else [turns[0].step] + Steps(turns[1..])
  }

  /** The packets of all turns in which frames are handed to the server. */
  function PacketsSent(p: Publishers.Publisher, turns: seq<Turn>): seq<seq<Unit>>
    decreases |turns|
  {
    if turns == [] then []
    else (if Publishers.Sends(p, turns[0].step) then turns[0].packets else [])
         + PacketsSent(Publishers.Step(p, turns[0].step), turns[1..])
  }

  lemma {:induction false} EncodedAppend(codec: VideoCodec, a: seq<seq<Unit>>, b: seq<seq<Unit>>)
    requires UsesStartCodes(codec)
    ensures Encoders.Produced(codec, Encoded(a + b))
            == Encoders.Produced(codec, Encoded(a)) + Encoders.Produced(codec, Encoded(b))
  {
    hide Split;
    hide Encode;
    if a == [] {
      assert a + b == b;
      assert Encoders.Produced(codec, Encoded(a)) == [];
    } else {
      assert (a + b)[1..] == a[1..] + b && (a + b)[0] == a[0];
      PacketHead(codec, a + b);
      PacketHead(codec, a);
      EncodedAppend(codec, a[1..], b);
      Assoc(Split(Encode(a[0])), Encoders.Produced(codec, Encoded(a[1..])), Encoders.Produced(codec, Encoded(b)));
    }
  }

  /** The frames handed to the server in a run from state `p` on. */
  function Handed(p: Publishers.Publisher, turns: seq<Turn>): seq<FrameData> {
    var sent := Publishers.Run(p, Steps(turns)).sent;
    if |p.sent| <= |sent| then sent[|p.sent|..] else []
  }

  /** Over any run of the publisher, the frames sent are those the encoder makes of the packets of the images sent, in
      order, whatever updates, failures and shutdowns come in between. */
  lemma {:induction false} SentIsProduced(codec: VideoCodec, p: Publishers.Publisher, turns: seq<Turn>)
    requires UsesStartCodes(codec) && forall k :: 0 <= k < |turns| ==> Answers(codec, turns[k])
    ensures p.sent <= Publishers.Run(p, Steps(turns)).sent
    ensures Payloads(Handed(p, turns)) == Encoders.Produced(codec, Encoded(PacketsSent(p, turns)))
    decreases |turns|
  {
    if turns != [] {
      assert Answers(codec, turns[0]);
      hide *;
      var q := Publishers.Step(p, turns[0].step);
      var now := if Publishers.Sends(p, turns[0].step) then turns[0].packets else [];
      FirstTurn(codec, p, turns);
      SentIsProduced(codec, q, turns[1..]);
      EncodedAppend(codec, now, PacketsSent(q, turns[1..]));
      SentMore(p.sent, q.sent, Publishers.Run(p, Steps(turns)).sent);
      HandedMeans(p, turns);
      HandedMeans(q, turns[1..]);
    }
  }

  lemma FirstTurn(codec: VideoCodec, p: Publishers.Publisher, turns: seq<Turn>)
    requires turns != [] && Answers(codec, turns[0])
    ensures var q := Publishers.Step(p, turns[0].step);
            var now := if Publishers.Sends(p, turns[0].step) then turns[0].packets else [];
            && Publishers.Run(p, Steps(turns)) == Publishers.Run(q, Steps(turns[1..]))
            && PacketsSent(p, turns) == now + PacketsSent(q, turns[1..])
            && p.sent <= q.sent && Payloads(q.sent[|p.sent|..]) == Encoders.Produced(codec, Encoded(now))
  {
    hide Publishers.Step;
    Publishers.StepSends(p, turns[0].step);
    assert Steps(turns)[1..] == Steps(turns[1..]);
    hide Publishers.Run;
    var q := Publishers.Step(p, turns[0].step);
    if Publishers.Sends(p, turns[0].step) {
      assert q.sent[|p.sent|..] == turns[0].step.produced.value;
    } else {
      assert q.sent[|p.sent|..] == [];
    }
  }

  lemma HandedMeans(p: Publishers.Publisher, turns: seq<Turn>)
    requires p.sent <= Publishers.Run(p, Steps(turns)).sent
    ensures Handed(p, turns) == Publishers.Run(p, Steps(turns)).sent[|p.sent|..]
  {
    hide Publishers.Run;
  }

  lemma SentMore(a: seq<FrameData>, b: seq<FrameData>, c: seq<FrameData>)
    requires a <= b <= c
    ensures a <= c && Payloads(c[|a|..]) == Payloads(b[|a|..]) + Payloads(c[|b|..])
  {
    assert forall k :: |b| - |a| <= k < |c| - |a| ==> c[|a|..][k] == c[|b|..][k - (|b| - |a|)];
    assert forall k :: 0 <= k < |b| - |a| ==> c[|a|..][k] == b[|a|..][k];
  }

  // ----- the server and its streams

  function DataOf(deliveries: seq<Injectors.Delivery>): (r: seq<seq<byte>>)
    ensures |r| == |deliveries| && forall k :: 0 <= k < |r| ==> r[k] == deliveries[k].data
  {
    seq(|deliveries|, k requires 0 <= k < |deliveries| => deliveries[k].data)
  }

  /** The consumer left room for every frame it took. */
  predicate RoomForAll(m: Injectors.Injector) {
    |m.limits| == |m.taken| && forall k :: 0 <= k < |m.taken| ==> |m.taken[k].data| <= m.limits[k]
  }

  lemma DeliveredWhole(m: Injectors.Injector)
    requires Injectors.Good(m) && RoomForAll(m)
    ensures DataOf(m.delivered) == Payloads(m.taken)
  {
    forall k | 0 <= k < |m.taken| ensures m.delivered[k].data == m.taken[k].data {
      assert m.delivered[k] == Injectors.Render(m.taken[k], m.limits[k]);
    }
  }

  /** What a registered stream has delivered is an unbroken stretch of the frames sent. */
  lemma StretchOf(s: Servers.Server, i: nat)
    requires Servers.Good(s) && i < |s.members| && s.members[i].joined.Some? && RoomForAll(s.members[i].injector)
    ensures var m := s.members[i]; var first, n := m.joined.value, |m.injector.delivered|;
            first + n <= |s.sent| && DataOf(m.injector.delivered) == Payloads(s.sent)[first..first + n]
  {
    var m := s.members[i];
    assert Servers.MemberGood(s, i);
    DeliveredWhole(m.injector);
    var share := Servers.Share(s, m);
    assert m.injector.taken <= m.injector.accepted == share;
    PrefixOfSlice(s.sent, m.joined.value, if m.left.Some? then m.left.value else |s.sent|, m.injector.taken);
  }

  /** The same seen from all frames there are to send. */
  lemma DeliveredStretch(acts: seq<Servers.Action>, i: nat, queued: seq<seq<byte>>)
    requires var s := Servers.Run(Servers.EMPTY, acts);
             && Payloads(s.sent) <= queued
             && i < |s.members| && s.members[i].joined.Some? && RoomForAll(s.members[i].injector)
    ensures var m := Servers.Run(Servers.EMPTY, acts).members[i];
            var first, n := m.joined.value, |m.injector.delivered|;
            first + n <= |queued| && DataOf(m.injector.delivered) == queued[first..first + n]
  {
    hide *;
    var s := Servers.Run(Servers.EMPTY, acts);
    EmptyIsGood();
    Servers.RunKeepsGood(Servers.EMPTY, acts);
    StretchOf(s, i);
    var m := s.members[i];
    var first, n := m.joined.value, |m.injector.delivered|;
    PrefixSlice(Payloads(s.sent), queued, first, first + n);
  }

  lemma PrefixOfSlice(sent: seq<FrameData>, first: nat, last: nat, taken: seq<FrameData>)
    requires first <= last <= |sent| && taken <= sent[first..last]
    ensures first + |taken| <= |sent| && Payloads(taken) == Payloads(sent)[first..first + |taken|]
  {
    assert forall k :: 0 <= k < |taken| ==> taken[k] == sent[first..last][k] == sent[first + k];
  }

  /** If a delivery's presentation time is handed over unchanged, the time the receiver rebuilds from it is the
      image's time cut to whole microseconds, and fits the 32-bit seconds it is rebuilt from. */
  lemma StampSurvives(frame: FrameData, maxSize: nat)
    requires 0 <= frame.stamp < 0x8000_0000 * 1_000_000_000
    ensures var d := Injectors.Render(frame, maxSize);
            && PresentationStamp(d.seconds, d.microseconds) == frame.stamp - frame.stamp % 1000
            && 0 <= d.seconds < 0x8000_0000 && 0 <= d.microseconds < 1_000_000
  {
    SmallMod(frame.stamp, Injectors.TWO_TO_64);
    SplitTime(frame.stamp);
  }

  lemma SmallMod(x: int, m: int)
    requires 0 <= x < m
    ensures x % m == x
  {
  }

  lemma SplitTime(t: nat)
    ensures 1_000_000_000 * (t / 1_000_000_000) + 1000 * (t % 1_000_000_000 / 1000) == t - t % 1000
  {
    var q, rest := t / 1_000_000_000, t % 1_000_000_000;
    Remainder(t, 1_000_000 * q + rest / 1000, rest % 1000);
  }

  lemma Remainder(t: int, k: int, r: int)
    requires t == 1000 * k + r && 0 <= r < 1000
    ensures t % 1000 == r
  {
  }

  // ----- the receiving side

  /** The units a receiver that announced parameter sets `params` takes whole: the first one fits behind them, the
      others behind the 52 octets that may wait in the buffer. */
  predicate Carried(params: seq<seq<byte>>, units: seq<seq<byte>>) {
    && |Framed(params)| + 4 <= Extractors.CAPACITY
    && (units != [] ==> |Framed(params)| + 4 + |units[0]| <= Extractors.CAPACITY)
    && forall k :: 0 < k < |units| ==> |units[k]| <= 131020
  }

  lemma ReceiverSplitsBack(codec: VideoCodec, params: seq<seq<byte>>, units: seq<seq<byte>>)
      returns (pending: seq<seq<byte>>)
    requires UsesStartCodes(codec) && Extractors.CleanUnits(params) && Extractors.CleanUnits(units)
    requires Carried(params, units)
    ensures var run := Extractors.Play(codec, params, units);
            && run.payloads == units
            && Extractors.SplitAll(run.emissions) + pending == params + units
            && run.content == Framed(pending) + START_CODE
  {
    hide Split;
    hide TripleFree;
    hide Framed;
    Extractors.PlayHead(codec, params, units);
    Extractors.NothingTruncated(codec, Framed(params) + START_CODE, units);
    pending := Extractors.GroupsSplitBack(codec, params, units);
  }

  lemma CarriedFits(params: seq<seq<byte>>, units: seq<seq<byte>>)
    requires Carried(params, units)
    ensures |Framed(params)| <= Extractors.CAPACITY
  {
  }

  lemma CleanSlice(units: seq<seq<byte>>, first: nat, last: nat)
    requires first <= last <= |units| && forall k :: 0 <= k < |units| ==> units[k] != [] && TripleFree(units[k])
    ensures Extractors.CleanUnits(units[first..last])
  {
    hide TripleFree;
  }

  /** End to end: let the codec's packets be readable, with three- and four-octet codes mixed, let the server have
      sent any part so far of what the splitter makes of them, let a stream join at any time and its receiver start
      from any announced parameter sets. Whatever the interleaving, the frames the receiver emits, cut at their start
      codes, and the units its buffer still holds are the parameter sets and behind them an unbroken stretch of the
      original units, beginning with the first one sent after the stream joined. */
  lemma EndToEnd(codec: VideoCodec, packets: seq<seq<Unit>>, params: seq<seq<byte>>, acts: seq<Servers.Action>, i: nat)
      returns (pending: seq<seq<byte>>)
    requires UsesStartCodes(codec) && Extractors.CleanUnits(params)
    requires Composed(packets) && Readable(packets)
    requires forall k :: 0 <= k < |UnitsOf(packets)| ==> UnitsOf(packets)[k] != []
    requires var s := Servers.Run(Servers.EMPTY, acts);
             && Payloads(s.sent) <= Encoders.Produced(codec, Encoded(packets))
             && i < |s.members| && s.members[i].joined.Some? && RoomForAll(s.members[i].injector)
             && Carried(params, DataOf(s.members[i].injector.delivered))
    ensures var s := Servers.Run(Servers.EMPTY, acts);
            var m := s.members[i];
            var run := Extractors.Play(codec, params, DataOf(m.injector.delivered));
            var first, n := m.joined.value, |m.injector.delivered|;
            && first + n <= |UnitsOf(packets)|
            && Extractors.SplitAll(run.emissions) + pending == params + UnitsOf(packets)[first..first + n]
            && run.content == Framed(pending) + START_CODE
  {
    hide *;
    var m := Servers.Run(Servers.EMPTY, acts).members[i];
    var first, n := m.joined.value, |m.injector.delivered|;
    CarriedFits(params, DataOf(m.injector.delivered));
    PacketsBecomeUnitsIff(codec, packets);
    DeliveredStretch(acts, i, UnitsOf(packets));
    ComposedIsTripleFree(packets);
    CleanSlice(UnitsOf(packets), first, first + n);
    pending := ReceiverSplitsBack(codec, params, DataOf(m.injector.delivered));
  }

  // ----- a reader that sees every code

  function ReadAll(emissions: seq<seq<byte>>): seq<seq<byte>> {
    if emissions == [] then [] else Read(emissions[0]) + ReadAll(emissions[1..])
  }

  ghost predicate NoneEmpty(groups: seq<seq<seq<byte>>>) {
    forall k :: 0 <= k < |groups| ==> groups[k] != []
  }

  lemma {:induction false} GroupsAreNotEmpty(pending: seq<seq<byte>>, payloads: seq<seq<byte>>)
    ensures NoneEmpty(Extractors.Group(pending, payloads).groups)
    decreases |payloads|
  {
    hide Framed;
    if payloads != [] {
      var more := pending + [payloads[0]];
      GroupsAreNotEmpty([], payloads[1..]);
      GroupsAreNotEmpty(more, payloads[1..]);
      assert more != [];
    }
  }

  lemma {:induction false} ReadGroups(groups: seq<seq<seq<byte>>>)
    requires NoneEmpty(groups) && AllChunky(Extractors.Flatten(groups))
    ensures ReadAll(Extractors.FramedGroups(groups)) == PiecesOf(Extractors.Flatten(groups))
  {
    hide Read;
    hide Framed;
    hide Chunky;
    hide Pieces;
    if groups != [] {
      var rest := Extractors.Flatten(groups[1..]);
      ChunkyParts(groups[0], rest);
      FramedPieces(groups[0]);
      PiecesAppend(groups[0], rest);
      ReadGroups(groups[1..]);
      assert Extractors.FramedGroups(groups)[1..] == Extractors.FramedGroups(groups[1..]);
    }
  }

  lemma ChunkyParts(a: seq<seq<byte>>, b: seq<seq<byte>>)
    ensures AllChunky(a + b) <==> AllChunky(a) && AllChunky(b)
  {
    hide Chunky;
    if AllChunky(a + b) {
      forall k | 0 <= k < |a| ensures Chunky(a[k]) { assert (a + b)[k] == a[k]; }
      forall k | 0 <= k < |b| ensures Chunky(b[k]) { assert (a + b)[|a| + k] == b[k]; }
    }
  }

  lemma ReceiverReadsBack(codec: VideoCodec, params: seq<seq<byte>>, frames: seq<seq<byte>>)
      returns (pending: seq<seq<byte>>)
    requires UsesStartCodes(codec) && AllChunky(params) && AllChunky(frames) && Carried(params, frames)
    ensures var run := Extractors.Play(codec, params, frames);
            && ReadAll(run.emissions) + PiecesOf(pending) == PiecesOf(params) + PiecesOf(frames)
            && run.content == Framed(pending) + START_CODE
  {
    CarriedRoom(params, frames);
    Extractors.PlayHead(codec, params, frames);
    hide *;
    Extractors.NothingTruncated(codec, Framed(params) + START_CODE, frames);
    Extractors.DeliveriesAreGroups(codec, params, frames);
    var g := Extractors.Group(params, frames);
    pending := g.pending;
    Extractors.GroupKeepsAll(params, frames);
    GroupsAreNotEmpty(params, frames);
    ChunkyParts(params, frames);
    ChunkyParts(Extractors.Flatten(g.groups), g.pending);
    ReadGroups(g.groups);
    PiecesAppend(Extractors.Flatten(g.groups), g.pending);
    PiecesAppend(params, frames);
  }

  lemma CarriedRoom(params: seq<seq<byte>>, frames: seq<seq<byte>>)
    requires Carried(params, frames)
    ensures Extractors.HasRoom(params) && |Framed(params) + START_CODE| <= Extractors.CAPACITY
    ensures frames != [] ==> |Framed(params) + START_CODE| + |frames[0]| <= Extractors.CAPACITY
    ensures forall k :: 0 < k < |frames| ==> |frames[k]| <= Extractors.CAPACITY - Extractors.THRESHOLD - 4
  {
  }

  lemma ChunkySlice(frames: seq<seq<byte>>, first: nat, last: nat)
    requires first <= last <= |frames| && AllChunky(frames)
    ensures AllChunky(frames[first..last])
  {
    hide Chunky;
  }

  /** End to end for every list of packets: units the splitter leaves fused travel together, and a reader finds in the
      receiver's frames, and in what its buffer holds, exactly the parameter sets and an unbroken stretch of the
      units there are to find, beginning with the first one of the first frame sent after the stream joined. */
  lemma EndToEndForReaders(codec: VideoCodec, packets: seq<seq<Unit>>, params: seq<seq<byte>>,
                           acts: seq<Servers.Action>, i: nat)
      returns (pending: seq<seq<byte>>, lo: nat, hi: nat)
    requires UsesStartCodes(codec) && Composed(packets) && forall k :: 0 <= k < |params| ==> TripleFree(params[k])
    requires var s := Servers.Run(Servers.EMPTY, acts);
             && Payloads(s.sent) <= Encoders.Produced(codec, Encoded(packets))
             && i < |s.members| && s.members[i].joined.Some? && RoomForAll(s.members[i].injector)
             && Carried(params, DataOf(s.members[i].injector.delivered))
    ensures var s := Servers.Run(Servers.EMPTY, acts);
            var m := s.members[i];
            var run := Extractors.Play(codec, params, DataOf(m.injector.delivered));
            var queued := Encoders.Produced(codec, Encoded(packets));
            var first, n := m.joined.value, |m.injector.delivered|;
            && first + n <= |queued|
            && lo == |PiecesOf(queued[..first])| && hi == |PiecesOf(queued[..first + n])|
            && lo <= hi <= |AllUnitsRead(packets)|
            && ReadAll(run.emissions) + PiecesOf(pending) == params + AllUnitsRead(packets)[lo..hi]
            && run.content == Framed(pending) + START_CODE
    ensures AllUnitsRead(packets) == UnitsOf(packets) <==> Tellable(packets)
  {
    hide *;
    var m := Servers.Run(Servers.EMPTY, acts).members[i];
    var first, n := m.joined.value, |m.injector.delivered|;
    var queued := Encoders.Produced(codec, Encoded(packets));
    ProducedKeepsUnits(codec, packets);
    DeliveredStretch(acts, i, queued);
    pending := StretchIsRead(codec, params, queued, first, n);
    lo, hi := |PiecesOf(queued[..first])|, |PiecesOf(queued[..first + n])|;
    PiecesSlice(queued, first, first + n);
  }

  lemma StretchIsRead(codec: VideoCodec, params: seq<seq<byte>>, queued: seq<seq<byte>>, first: nat, n: nat)
      returns (pending: seq<seq<byte>>)
    requires UsesStartCodes(codec) && AllChunky(queued) && first + n <= |queued|
    requires Carried(params, queued[first..first + n]) && forall k :: 0 <= k < |params| ==> TripleFree(params[k])
    ensures |Framed(params)| <= Extractors.CAPACITY
    ensures var run := Extractors.Play(codec, params, queued[first..first + n]);
            && ReadAll(run.emissions) + PiecesOf(pending) == params + PiecesOf(queued[first..first + n])
            && run.content == Framed(pending) + START_CODE
  {
    hide *;
    UnitsAreChunks(params);
    CarriedFits(params, queued[first..first + n]);
    ChunkySlice(queued, first, first + n);
    pending := ReceiverReadsBack(codec, params, queued[first..first + n]);
  }

  lemma PiecesSlice(fs: seq<seq<byte>>, i: nat, j: nat)
    requires i <= j <= |fs|
    ensures var lo, hi := |PiecesOf(fs[..i])|, |PiecesOf(fs[..j])|;
            lo <= hi <= |PiecesOf(fs)| && PiecesOf(fs[i..j]) == PiecesOf(fs)[lo..hi]
  {
    hide PiecesOf;
    assert fs[..j] == fs[..i] + fs[i..j] && fs == fs[..j] + fs[j..];
    PiecesAppend(fs[..i], fs[i..j]);
    PiecesAppend(fs[..j], fs[j..]);
  }

  // ----- the whole chain

  /** From images to receivers: take any run of the publisher from a state `p` on, in which the codec's answers to the
      images are what the encoder makes of the packets, and let the server have sent any part so far of the frames
      handed to it in that run. Then a reader of what any stream's receiver emits finds exactly the parameter sets and
      an unbroken stretch of the units of the images sent: all of them if and only if the packets are tellable. */
  lemma ImagesToReaders(codec: VideoCodec, p: Publishers.Publisher, turns: seq<Turn>, params: seq<seq<byte>>,
                        acts: seq<Servers.Action>, i: nat) returns (pending: seq<seq<byte>>, lo: nat, hi: nat)
    requires UsesStartCodes(codec) && forall k :: 0 <= k < |turns| ==> Answers(codec, turns[k])
    requires Composed(PacketsSent(p, turns)) && forall k :: 0 <= k < |params| ==> TripleFree(params[k])
    requires var s := Servers.Run(Servers.EMPTY, acts);
             && s.sent <= Handed(p, turns)
             && i < |s.members| && s.members[i].joined.Some? && RoomForAll(s.members[i].injector)
             && Carried(params, DataOf(s.members[i].injector.delivered))
    ensures var m := Servers.Run(Servers.EMPTY, acts).members[i];
            |Framed(params)| <= Extractors.CAPACITY
            && var run := Extractors.Play(codec, params, DataOf(m.injector.delivered));
               && lo <= hi <= |AllUnitsRead(PacketsSent(p, turns))|
               && ReadAll(run.emissions) + PiecesOf(pending) == params + AllUnitsRead(PacketsSent(p, turns))[lo..hi]
               && run.content == Framed(pending) + START_CODE
    ensures AllUnitsRead(PacketsSent(p, turns)) == UnitsOf(PacketsSent(p, turns)) <==> Tellable(PacketsSent(p, turns))
  {
    hide *;
    var s := Servers.Run(Servers.EMPTY, acts);
    var handed := Handed(p, turns);
    CarriedFits(params, DataOf(s.members[i].injector.delivered));
    SentIsProduced(codec, p, turns);
    PrefixPayloads(s.sent, handed);
    pending, lo, hi := EndToEndForReaders(codec, PacketsSent(p, turns), params, acts, i);
  }

  lemma PrefixPayloads(a: seq<FrameData>, b: seq<FrameData>)
    requires a <= b
    ensures Payloads(a) <= Payloads(b)
  {
  }

  lemma PrefixSlice(a: seq<seq<byte>>, b: seq<seq<byte>>, i: nat, j: nat)
    requires a <= b && i <= j <= |a|
    ensures j <= |b| && a[i..j] == b[i..j]
  {
  }

  lemma EmptyIsGood()
    ensures Servers.Good(Servers.EMPTY)
  {
  }
}
