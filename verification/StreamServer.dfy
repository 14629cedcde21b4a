/** The server's table of active streams: every frame sent goes to every registered injector. */
module StreamServer {
  import opened Frames
  import Injectors = FrameInjector

  /** An injector, the source it was created for, and its time in the table, measured in frames sent.
      `joined` is None for an injector that was never registered. */
  datatype Member = Member(key: nat, injector: Injectors.Injector, joined: Option<nat>, left: Option<nat>,
                           destroyed: bool)

  /** `members` are all injectors ever created; `streams` maps the key of a source to a member;
      `sent` are all frames sent. */
  datatype Server = Server(streams: map<nat, nat>, members: seq<Member>, sent: seq<FrameData>)

  const EMPTY: Server := Server(map[], [], [])

  datatype Action =
    | Send(frame: FrameData)
    | Create(key: nat, register: bool)          // a probe for the session description is not registered
    | Close(key: nat)
    | Hook(key: nat)                            // the session hook: close the stream, then destroy its source
    | Stop
    | Consume(member: nat, step: Injectors.Action)  // the event loop serves one injector

  predicate Mapped(s: Server, i: nat)
    requires i < |s.members|
  {
    s.members[i].key in s.streams && s.streams[s.members[i].key] == i
  }

  function Leave(m: Member, time: nat): Member {
    m.(injector := Injectors.Step(m.injector, Injectors.Shutdown), left := Some(time))
  }

  function Sent(s: Server, f: FrameData): (r: seq<Member>)
    ensures |r| == |s.members|
  {
    seq(|s.members|, i requires 0 <= i < |s.members| =>
      if Mapped(s, i) then s.members[i].(injector := Injectors.Step(s.members[i].injector, Injectors.Inject(f)))
      else s.members[i])
  }

  function Stopped(s: Server): (r: seq<Member>)
    ensures |r| == |s.members|
  {
    seq(|s.members|, i requires 0 <= i < |s.members| =>
      if Mapped(s, i) then Leave(s.members[i], |s.sent|) else s.members[i])
  }

  function Closed(s: Server, key: nat): (r: seq<Member>)
    ensures |r| == |s.members|
  {
    seq(|s.members|, i requires 0 <= i < |s.members| =>
      if s.members[i].key == key && Mapped(s, i) then Leave(s.members[i], |s.sent|) else s.members[i])
  }

  /** The library destroys what was made for a source; the injector's destructor shuts it down once more. */
  function Destroyed(members: seq<Member>, key: nat): (r: seq<Member>)
    ensures |r| == |members|
  {
    seq(|members|, i requires 0 <= i < |members| =>
      if members[i].key == key
      then members[i].(injector := Injectors.Step(members[i].injector, Injectors.Shutdown), destroyed := true)
      else members[i])
  }

  function Step(s: Server, a: Action): Server {
    match a
    case Send(f) => s.(members := Sent(s, f), sent := s.sent + [f])
    case Create(key, register) =>
      var entered := register && key !in s.streams;
      Server(if entered then s.streams[key := |s.members|] else s.streams,
             s.members + [Member(key, Injectors.FRESH, if entered then Some(|s.sent|) else None, None, false)],
             s.sent)
    case Close(key) => s.(streams := s.streams - {key}, members := Closed(s, key))
    case Hook(key) => s.(streams := s.streams - {key}, members := Destroyed(Closed(s, key), key))
    case Stop => s.(streams := map[], members := Stopped(s))
    case Consume(i, step) =>
      if i >= |s.members| || s.members[i].destroyed || step.Inject? || step.Shutdown? then s
      else s.(members := s.members[i := s.members[i].(injector := Injectors.Step(s.members[i].injector, step))])
  }

  function Run(s: Server, acts: seq<Action>): Server
    decreases |acts|
  {
    if acts == [] then s else Run(Step(s, acts[0]), acts[1..])
  }

  /** The frames sent while the member was registered. */
  function Share(s: Server, m: Member): seq<FrameData>
    requires m.joined.Some? ==> m.joined.value <= |s.sent|
    requires m.joined.Some? && m.left.Some? ==> m.joined.value <= m.left.value <= |s.sent|
  {
    if m.joined.None? then []
    else s.sent[m.joined.value..if m.left.Some? then m.left.value else |s.sent|]
  }

  predicate MemberGood(s: Server, i: nat)
    requires i < |s.members|
  {
    var m := s.members[i];
    && Injectors.Good(m.injector)
    && (m.joined.Some? ==> m.joined.value <= |s.sent|)
    && (m.joined.Some? && m.left.Some? ==> m.joined.value <= m.left.value <= |s.sent|)
    && m.injector.accepted == Share(s, m)
    && (Mapped(s, i) <==> m.joined.Some? && m.left.None?)
    && (Mapped(s, i) ==> !m.destroyed && !m.injector.isShutdown)
    && (m.left.Some? ==> m.joined.Some? && m.injector.isShutdown && m.injector.queue == [])
  }

  predicate Good(s: Server) {
    && (forall k :: k in s.streams ==> s.streams[k] < |s.members| && s.members[s.streams[k]].key == k)
    && (forall i :: 0 <= i < |s.members| ==> MemberGood(s, i))
  }

  lemma SendKeepsGood(s: Server, f: FrameData)
    requires Good(s)
    ensures Good(Step(s, Send(f)))
  {
    var t := Step(s, Send(f));
    forall i | 0 <= i < |t.members| ensures MemberGood(t, i) {
      assert MemberGood(s, i);
      Injectors.StepKeepsGood(s.members[i].injector, Injectors.Inject(f));
    }
  }

  lemma CreateKeepsGood(s: Server, key: nat, register: bool)
    requires Good(s)
    ensures Good(Step(s, Create(key, register)))
  {
    var t := Step(s, Create(key, register));
    forall i | 0 <= i < |t.members| ensures MemberGood(t, i) {
      if i < |s.members| {
        assert MemberGood(s, i);
      }
    }
  }

  lemma CloseKeepsGood(s: Server, key: nat)
    requires Good(s)
    ensures Good(Step(s, Close(key)))
  {
    var t := Step(s, Close(key));
    forall i | 0 <= i < |t.members| ensures MemberGood(t, i) {
      assert MemberGood(s, i);
      Injectors.StepKeepsGood(s.members[i].injector, Injectors.Shutdown);
    }
  }

  lemma HookKeepsGood(s: Server, key: nat)
    requires Good(s)
    ensures Good(Step(s, Hook(key)))
  {
    CloseKeepsGood(s, key);
    var t, u := Step(s, Close(key)), Step(s, Hook(key));
    forall i | 0 <= i < |u.members| ensures MemberGood(u, i) {
      assert MemberGood(t, i);
      Injectors.StepKeepsGood(t.members[i].injector, Injectors.Shutdown);
    }
  }

  lemma StopKeepsGood(s: Server)
    requires Good(s)
    ensures Good(Step(s, Stop))
  {
    var t := Step(s, Stop);
    forall i | 0 <= i < |t.members| ensures MemberGood(t, i) {
      assert MemberGood(s, i);
      Injectors.StepKeepsGood(s.members[i].injector, Injectors.Shutdown);
    }
  }

  lemma ConsumeKeepsGood(s: Server, j: nat, step: Injectors.Action)
    requires Good(s)
    ensures Good(Step(s, Consume(j, step)))
  {
    var t := Step(s, Consume(j, step));
    forall i | 0 <= i < |t.members| ensures MemberGood(t, i) {
      assert MemberGood(s, i);
      Injectors.StepKeepsGood(s.members[i].injector, step);
    }
  }

  lemma StepKeepsGood(s: Server, a: Action)
    requires Good(s)
    ensures Good(Step(s, a))
  {
    match a
    case Send(f) => SendKeepsGood(s, f);
    case Create(key, register) => CreateKeepsGood(s, key, register);
    case Close(key) => CloseKeepsGood(s, key);
    case Hook(key) => HookKeepsGood(s, key);
    case Stop => StopKeepsGood(s);
    case Consume(i, step) => ConsumeKeepsGood(s, i, step);
  }

  lemma {:induction false} RunKeepsGood(s: Server, acts: seq<Action>)
    requires Good(s)
    ensures Good(Run(s, acts))
    decreases |acts|
  {
    if acts != [] {
      StepKeepsGood(s, acts[0]);
      RunKeepsGood(Step(s, acts[0]), acts[1..]);
    }
  }

  // ----- what each step does to the table and its injectors

  /** A frame reaches the injector of every entry of the table, behind what waits there, and nobody else. */
  lemma SendDecides(acts: seq<Action>, f: FrameData)
    ensures var s := Run(EMPTY, acts); var t := Step(s, Send(f));
            && t.streams == s.streams && t.sent == s.sent + [f] && |t.members| == |s.members|
            && (forall k :: k in s.streams ==>
                  && s.streams[k] < |s.members|
                  && var was, now := s.members[s.streams[k]].injector, t.members[s.streams[k]].injector;
                     now.queue == was.queue + [f] && now.accepted == was.accepted + [f] && now.triggered)
            && (forall i :: 0 <= i < |s.members| && i !in s.streams.Values ==> t.members[i] == s.members[i])
  {
    RunKeepsGood(EMPTY, acts);
    var s := Run(EMPTY, acts);
    forall k | k in s.streams ensures s.streams[k] < |s.members| && Mapped(s, s.streams[k])
                                      && !s.members[s.streams[k]].injector.isShutdown {
      assert MemberGood(s, s.streams[k]);
    }
  }

  /** A source that is registered under a key not in the table gets an entry, from the next frame on; any other one
      only gets its injector. */
  lemma CreateDecides(s: Server, key: nat, register: bool)
    ensures var t := Step(s, Create(key, register)); var n := |s.members|;
            && t.streams == (if register && key !in s.streams then s.streams[key := n] else s.streams)
            && t.sent == s.sent && |t.members| == n + 1 && t.members[..n] == s.members
            && t.members[n].key == key && t.members[n].injector == Injectors.FRESH && !t.members[n].destroyed
            && t.members[n].joined == (if register && key !in s.streams then Some(|s.sent|) else None)
  {
  }

  /** Closing a source ends its stream alone; stopping ends all; the hook also destroys what was made for the source. */
  lemma EndDecides(acts: seq<Action>, key: nat)
    ensures var s := Run(EMPTY, acts);
            var closed, hooked, ended := Step(s, Close(key)), Step(s, Hook(key)), Step(s, Stop);
            && closed.streams == s.streams - {key} == hooked.streams && ended.streams == map[]
            && closed.sent == hooked.sent == ended.sent == s.sent
            && |closed.members| == |hooked.members| == |ended.members| == |s.members|
            && (key in s.streams ==>
                  && s.streams[key] < |s.members|
                  && closed.members[s.streams[key]].injector.isShutdown
                  && closed.members[s.streams[key]].left == Some(|s.sent|))
            && (forall i :: 0 <= i < |s.members| && (key !in s.streams || i != s.streams[key]) ==>
                  closed.members[i] == s.members[i])
            && (forall k :: k in s.streams ==>
                  && s.streams[k] < |s.members|
                  && ended.members[s.streams[k]].injector.isShutdown
                  && ended.members[s.streams[k]].left == Some(|s.sent|))
            && (forall i :: 0 <= i < |s.members| && s.members[i].key == key ==>
                  hooked.members[i].destroyed && hooked.members[i].injector.isShutdown)
            && (forall i :: 0 <= i < |s.members| && s.members[i].key != key ==> hooked.members[i] == s.members[i])
  {
    RunKeepsGood(EMPTY, acts);
    TableShape(Run(EMPTY, acts));
  }

  /** The event loop serves the injector of a source that is still there, and that one alone. */
  lemma ConsumeDecides(s: Server, i: nat, step: Injectors.Action)
    requires i < |s.members| && !s.members[i].destroyed && !step.Inject? && !step.Shutdown?
    ensures var t := Step(s, Consume(i, step));
            && t.streams == s.streams && t.sent == s.sent && |t.members| == |s.members|
            && t.members[i] == s.members[i].(injector := Injectors.Step(s.members[i].injector, step))
            && (forall j :: 0 <= j < |s.members| && j != i ==> t.members[j] == s.members[j])
  {
  }

  /** Exact fan-out over every interleaving: a stream accepts precisely the frames sent between its
      registration and its close or stop, delivers a prefix of them in that order, and until it leaves the
      table only the queued rest is outstanding. Registered injectors are alive; those that have left are
      shut down and hold nothing. */
  lemma FanOutExact(acts: seq<Action>, i: nat)
    requires i < |Run(EMPTY, acts).members|
    ensures var s := Run(EMPTY, acts); var m := s.members[i];
            && (m.joined.Some? ==> m.joined.value <= (if m.left.Some? then m.left.value else |s.sent|) <= |s.sent|)
            && m.injector.accepted == (if m.joined.None? then []
                 else s.sent[m.joined.value..if m.left.Some? then m.left.value else |s.sent|])
            && m.injector.taken <= m.injector.accepted
            && (Mapped(s, i) ==> m.injector.taken + m.injector.queue == m.injector.accepted)
            && (Mapped(s, i) ==> !m.destroyed && !m.injector.isShutdown)
            && (m.left.Some? ==> !Mapped(s, i) && m.injector.isShutdown && m.injector.queue == [])
  {
    RunKeepsGood(EMPTY, acts);
    assert MemberGood(Run(EMPTY, acts), i);
  }

  // ----- the object

  datatype StartError = CodecNotSupported | NoSink | NoHostname | NoFramer

  /** What the surroundings answer while a session is set up. */
  datatype StartReply = StartReply(supported: bool, sinkOk: bool, hostnameOk: bool, framerOk: bool, url: string,
                                   source: nat)

  /** The object behind a member, as far as the server's own operations determine it. */
  ghost predicate Tracks(o: Injectors.FrameInjector, m: Member)
    reads o
  {
    o.Valid() && o.accepted == m.injector.accepted && o.isShutdown == m.injector.isShutdown
  }

  class StreamServer {
    var codec: VideoCodec
    const udpPacketSize: nat
    var url: string
    var streams: map<nat, Injectors.FrameInjector>
    // Library side: whether there are a sink and a media session, and how many sessions have been deleted.
    var sink: bool
    var sms: bool
    var deletedSessions: nat
    // The table's history, and the objects behind its members.
    ghost var model: Server
    ghost var objects: seq<Injectors.FrameInjector>

    /** Every member has an object of its own. */
    ghost predicate Backed(m: Server)
      reads this`objects, objects
    {
      && |objects| == |m.members|
      && (forall i, j :: 0 <= i < j < |objects| ==> objects[i] != objects[j])
      && (forall i :: 0 <= i < |objects| ==> Tracks(objects[i], m.members[i]))
    }

    ghost predicate Lists(table: map<nat, Injectors.FrameInjector>, m: Server)
      reads this`objects
    {
      && table.Keys == m.streams.Keys
      && (forall k :: k in table ==> m.streams[k] < |objects| && table[k] == objects[m.streams[k]])
    }

    ghost predicate Listed(m: Server)
      reads this`objects, this`streams
    {
      Lists(streams, m)
    }

    ghost predicate Valid()
      reads this`model, this`streams, this`objects, objects
    {
      Good(model) && Backed(model) && Listed(model)
    }

    constructor (udpPacketSize: nat)
      ensures Valid() && model == EMPTY && this.udpPacketSize == udpPacketSize && url == "" && objects == []
      ensures !sink && !sms && deletedSessions == 0 && streams == map[]
    {
      this.udpPacketSize := udpPacketSize;
      sink, sms, deletedSessions := false, false, 0;
      codec, url, streams := Unknown, "", map[];
      model, objects := EMPTY, [];
    }

    /** The table and its objects while an operation walks over it: the streams with the given keys are as
        in `before`, all others already as in `after`. */
    ghost predicate Walking(before: Server, after: Server, keys: set<nat>)
      reads this`objects, this`streams, objects
    {
      && |objects| == |before.members| == |after.members|
      && (forall i, j :: 0 <= i < j < |objects| ==> objects[i] != objects[j])
      && Listed(before)
      && (forall k :: k in streams ==> before.members[before.streams[k]].key == k)
      && (forall i :: 0 <= i < |objects| ==> Tracks(objects[i], Pick(before, after, keys, i)))
    }

    /** The injector objects as they are now. */
    ghost function States(): (r: seq<Injectors.Injector>)
      reads this`objects, objects
      ensures |r| == |objects| && forall i :: 0 <= i < |r| ==> r[i] == objects[i].State()
    {
      var os := objects;
      seq(|os|, i requires 0 <= i < |os| reads os => os[i].State())
    }

    lemma FreshIsTracked(injector: Injectors.FrameInjector, m: Member)
      requires injector.Valid() && injector.State() == Injectors.FRESH && m.injector == Injectors.FRESH
      ensures Tracks(injector, m)
    {
    }

    /** The table's entries seen from the list of all injectors. */
    lemma Snapshot()
      requires Valid()
      ensures |objects| == |model.members|
      ensures forall k :: k in streams ==>
                && k in model.streams && model.streams[k] < |objects| && streams[k] == objects[model.streams[k]]
                && Mapped(model, model.streams[k]) && model.members[model.streams[k]].key == k
                && !streams[k].isShutdown
                && States()[model.streams[k]].queue == streams[k].frameQueue
                && States()[model.streams[k]].accepted == streams[k].accepted
                && !States()[model.streams[k]].isShutdown
    {
      TableShape(model);
      forall k | k in streams
        ensures k in model.streams && model.streams[k] < |objects| && streams[k] == objects[model.streams[k]]
                && !streams[k].isShutdown
      {
        assert MemberGood(model, model.streams[k]);
        assert Tracks(objects[model.streams[k]], model.members[model.streams[k]]);
      }
    }

    lemma Arrived(before: Server, states: seq<Injectors.Injector>, frame: FrameData)
      requires |states| == |objects| == |before.members|
      requires States() == Touched(states, before, before.streams.Keys, Injectors.Inject(frame))
      requires forall k :: k in streams ==>
                 && k in before.streams && before.streams[k] < |objects| && streams[k] == objects[before.streams[k]]
                 && Mapped(before, before.streams[k]) && before.members[before.streams[k]].key == k
                 && !states[before.streams[k]].isShutdown
      ensures forall k :: k in streams ==>
                && streams[k].frameQueue == states[before.streams[k]].queue + [frame]
                && streams[k].accepted == states[before.streams[k]].accepted + [frame] && streams[k].triggered
    {
      hide Mapped;
      forall k | k in streams
        ensures States()[before.streams[k]] == Injectors.Step(states[before.streams[k]], Injectors.Inject(frame))
        ensures States()[before.streams[k]] == streams[k].State()
      {
      }
    }

    method SendFrame(frame: FrameData)
      requires Valid()
      modifies this`model, objects
      ensures Valid() && model == Step(old(model), Send(frame)) && objects == old(objects)
      ensures States() == Touched(old(States()), old(model), old(model).streams.Keys, Injectors.Inject(frame))
      ensures forall k :: k in streams ==>
                && streams[k].frameQueue == old(streams[k].frameQueue) + [frame] && streams[k].triggered
                && streams[k].accepted == old(streams[k].accepted) + [frame]
    {
      hide *;
      Unfolded();
      Snapshot();
      ghost var before, after, states := model, Step(model, Send(frame)), States();
      SendKeepsGood(before, frame);
      SendToAll(frame, before, after);
      Arrived(before, states, frame);
      model := after;
      Unfolded();
    }

    method SendToAll(frame: FrameData, ghost before: Server, ghost after: Server)
      requires Valid() && before == model && after == Step(model, Send(frame))
      modifies objects
      ensures Backed(after) && Listed(after) && |objects| == |before.members|
      ensures States() == Touched(old(States()), before, before.streams.Keys, Injectors.Inject(frame))
    {
      hide *;
      Unfolded();
      ghost var states := States();
      var keys := streams.Keys;
      SentVisits(before, frame);
      StartWalk(after, [frame], false, keys);
      TouchedNone(states, before, Injectors.Inject(frame));
      ghost var visited: set<nat> := {};
      while keys != {}
        invariant keys <= streams.Keys && Walking(before, after, keys)
        invariant visited == streams.Keys - keys
        invariant |states| == |objects| == |before.members|
        invariant States() == Touched(states, before, visited, Injectors.Inject(frame))
        decreases keys
      {
        var k :| k in keys;
        InjectInto(k, frame, before, after, keys);
        TouchedOne(states, before, visited, k, Injectors.Inject(frame), [frame], false, after, streams.Keys);
        visited, keys := visited + {k}, keys - {k};
      }
      assert visited == streams.Keys;
      EndWalk(before, after);
    }

    /** The injectors of the entries with the given keys after a shutdown. */
    lemma Ended(table: map<nat, Injectors.FrameInjector>, before: Server, states: seq<Injectors.Injector>,
                keys: set<nat>)
      requires |states| == |objects| == |before.members|
      requires States() == Touched(states, before, keys, Injectors.Shutdown)
      requires forall k :: k in table ==>
                 && k in before.streams && before.streams[k] < |objects| && table[k] == objects[before.streams[k]]
                 && Mapped(before, before.streams[k]) && before.members[before.streams[k]].key == k
      ensures forall k :: k in table && k in keys ==> table[k].isShutdown && table[k].frameQueue == []
    {
      hide Mapped;
      forall k | k in table && k in keys
        ensures States()[before.streams[k]] == Injectors.Step(states[before.streams[k]], Injectors.Shutdown)
        ensures States()[before.streams[k]] == table[k].State()
      {
      }
    }

    lemma Unfolded()
      ensures Valid() <==> Good(model) && Backed(model) && Listed(model)
      ensures Listed(model) <==> Lists(streams, model)
      ensures Valid() ==> streams.Keys == model.streams.Keys
    {
      hide Good;
      hide Backed;
    }

    lemma Spread()
      requires Valid()
      ensures |objects| == |model.members|
      ensures forall i, j :: 0 <= i < j < |objects| ==> objects[i] != objects[j]
      ensures forall i :: 0 <= i < |objects| ==> Tracks(objects[i], model.members[i])
      ensures forall k :: k in streams ==>
                model.streams[k] < |objects| && streams[k] == objects[model.streams[k]]
    {
      hide Good;
      hide Tracks;
    }

    lemma EntryAt(before: Server, k: nat)
      requires Listed(before) && k in streams
      ensures k in before.streams && before.streams[k] < |objects| && streams[k] == objects[before.streams[k]]
    {
    }

    method InjectInto(k: nat, frame: FrameData, ghost before: Server, ghost after: Server, ghost keys: set<nat>)
      requires k in keys && keys <= streams.Keys && Walking(before, after, keys)
      requires Visited(before, after, [frame], false, before.streams.Keys)
      modifies objects
      ensures Walking(before, after, keys - {k})
      ensures k in before.streams && before.streams[k] < |objects|
      ensures States() == Advanced(old(States()), before.streams[k], Injectors.Inject(frame))
    {
      hide Tracks;
      hide Mapped;
      hide Injectors.Step;
      hide Injectors.FrameInjector.State;
      ghost var n := before.streams[k];
      EntryAt(before, k);
      hide Lists;
      VisitedAt(before, after, [frame], false, before.streams.Keys, k);
      hide Visited;
      assert Tracks(objects[n], Pick(before, after, keys, n));
      InjectTracked(streams[k], frame, before.members[n], after.members[n]);
    }

    lemma StartWalk(after: Server, more: seq<FrameData>, down: bool, keys: set<nat>)
      requires Valid() && Visited(model, after, more, down, keys)
      ensures Walking(model, after, keys) && |objects| == |model.members|
    {
      hide Injectors.FrameInjector.Valid;
      hide MemberGood;
    }

    lemma EndWalk(before: Server, after: Server)
      requires Walking(before, after, {})
      ensures Backed(after) && (after.streams == before.streams ==> Listed(after))
    {
      hide Tracks;
    }

    method HasActiveStreams() returns (active: bool)
      requires Valid()
      ensures active <==> exists i :: 0 <= i < |model.members| && Mapped(model, i)
      ensures active <==> exists k :: k in streams
    {
      active := streams != map[];
      if active {
        var k :| k in streams;
        assert Mapped(model, model.streams[k]);
      }
    }

    /** `injector` has just been made for `source`; the table keeps an entry that is already there. */
    method NewStreamSource(source: nat, injector: Injectors.FrameInjector)
      requires Valid() && injector !in objects
      requires injector.Valid() && injector.State() == Injectors.FRESH
      modifies this`streams, this`model, this`objects
      ensures Valid() && model == Step(old(model), Create(source, true)) && objects == old(objects) + [injector]
      ensures States() == old(States()) + [Injectors.FRESH]
      ensures streams == if source in old(streams) then old(streams) else old(streams)[source := injector]
    {
      hide *;
      Unfolded();
      Spread();
      ghost var before, after, states := model, Step(model, Create(source, true)), States();
      CreateKeepsGood(before, source, true);
      if source !in streams {
        streams := streams[source := injector];
      }
      model := after;
      objects := objects + [injector];
      OneMore(before, source, injector, states);
      Unfolded();
    }

    /** The table right after an injector has been entered, or kept out by an earlier entry. */
    lemma OneMore(before: Server, source: nat, injector: Injectors.FrameInjector, states: seq<Injectors.Injector>)
      requires |objects| > 0 && objects[|objects| - 1] == injector && injector !in objects[..|objects| - 1]
      requires injector.Valid() && injector.State() == Injectors.FRESH
      requires |objects| == |before.members| + 1 && |states| == |before.members|
      requires forall i, j :: 0 <= i < j < |before.members| ==> objects[i] != objects[j]
      requires forall i :: 0 <= i < |before.members| ==> Tracks(objects[i], before.members[i])
      requires forall i :: 0 <= i < |before.members| ==> states[i] == objects[i].State()
      requires streams.Keys == before.streams.Keys + {source}
      requires forall k :: k in before.streams ==>
                 before.streams[k] < |before.members| && streams[k] == objects[before.streams[k]]
      requires source !in before.streams ==> streams[source] == injector
      ensures var after := Step(before, Create(source, true)); Backed(after) && Listed(after)
      ensures States() == states + [Injectors.FRESH]
    {
      hide Injectors.FrameInjector.Valid;
      hide Injectors.FrameInjector.State;
      hide Tracks;
      FreshIsTracked(injector, Step(before, Create(source, true)).members[|before.members|]);
    }

    method CloseStreamSource(source: nat)
      requires Valid()
      modifies this`streams, this`model, this`sink, objects
      ensures Valid() && model == Step(old(model), Close(source)) && objects == old(objects)
      ensures States() == Touched(old(States()), old(model), {source}, Injectors.Shutdown)
      ensures sink == (old(sink) && streams != map[])
      ensures streams == old(streams) - {source}
      ensures source in old(streams) ==> old(streams)[source].isShutdown && old(streams)[source].frameQueue == []
    {
      hide *;
      CloseEntry(source);
      if streams == map[] {
        sink := false;
      }
    }

    method CloseEntry(source: nat)
      requires Valid()
      modifies this`streams, this`model, objects
      ensures Valid() && model == Step(old(model), Close(source)) && objects == old(objects)
      ensures States() == Touched(old(States()), old(model), {source}, Injectors.Shutdown)
      ensures streams == old(streams) - {source}
      ensures source in old(streams) ==> old(streams)[source].isShutdown && old(streams)[source].frameQueue == []
    {
      hide *;
      Unfolded();
      Snapshot();
      ghost var table, states := streams, States();
      ghost var before, after := model, Step(model, Close(source));
      CloseKeepsGood(before, source);
      CloseVisits(before, source);
      ListsMinus(streams, before, after, source);
      Release(source, before, after);
      Ended(table, before, states, {source});
      streams := streams - {source};
      model := after;
      Unfolded();
    }

    method Release(source: nat, ghost before: Server, ghost after: Server)
      requires Valid() && before == model && after == Step(model, Close(source))
      modifies objects
      ensures Backed(after) && |objects| == |before.members|
      ensures States() == Touched(old(States()), before, {source}, Injectors.Shutdown)
    {
      hide *;
      Unfolded();
      ghost var states, keys := States(), streams.Keys * {source};
      CloseVisits(before, source);
      StartWalk(after, [], true, keys);
      ListsMinus(streams, before, after, source);
      if source in streams {
        TouchedNone(states, before, Injectors.Shutdown);
        ShutdownAt(source, before, after, keys, keys);
        TouchedOne(states, before, {}, source, Injectors.Shutdown, [], true, after, keys);
      } else {
        TouchedMissing(states, before, source, Injectors.Shutdown);
      }
      EndWalk(before, after);
    }

    lemma ListsMinus(table: map<nat, Injectors.FrameInjector>, m: Server, m': Server, source: nat)
      requires Listed(m) && table == streams && m'.streams == m.streams - {source}
      ensures Lists(table - {source}, m')
      ensures source in table ==> streams.Keys * {source} - {source} == {}
      ensures source !in table ==> table - {source} == table && streams.Keys * {source} == {}
    {
    }

    method StopSession()
      requires Valid()
      modifies this`streams, this`url, this`model, this`sink, this`sms, this`deletedSessions, objects
      ensures Valid() && model == Step(old(model), Stop) && url == "" && streams == map[] && objects == old(objects)
      ensures States() == Touched(old(States()), old(model), old(model).streams.Keys, Injectors.Shutdown)
      ensures !sink && !sms && deletedSessions == old(deletedSessions) + (if old(sms) then 1 else 0)
      ensures forall k :: k in old(streams) ==> old(streams)[k].isShutdown && old(streams)[k].frameQueue == []
    {
      hide *;
      ghost var table := streams;
      var oldSms := sms;
      sms, sink := false, false;
      url := "";
      deletedSessions := deletedSessions + (if oldSms then 1 else 0);
      assert streams == table;
      EndStreams();
      assert forall k :: k in table ==> table[k].isShutdown && table[k].frameQueue == [];
    }

    method EndStreams()
      requires Valid()
      modifies this`streams, this`model, objects
      ensures Valid() && model == Step(old(model), Stop) && streams == map[] && objects == old(objects)
      ensures States() == Touched(old(States()), old(model), old(model).streams.Keys, Injectors.Shutdown)
      ensures forall k :: k in old(streams) ==> old(streams)[k].isShutdown && old(streams)[k].frameQueue == []
    {
      hide *;
      Unfolded();
      Snapshot();
      ghost var table, states := streams, States();
      ghost var before, after := model, Step(model, Stop);
      StopKeepsGood(before);
      ShutdownStreams(before, after);
      Ended(table, before, states, before.streams.Keys);
      model := after;
      streams := map[];
      EmptyListed();
      Unfolded();
    }

    method ShutdownStreams(ghost before: Server, ghost after: Server)
      requires Valid() && before == model && after == Step(model, Stop)
      modifies objects
      ensures Backed(after) && after.streams == map[] && |objects| == |before.members|
      ensures States() == Touched(old(States()), before, before.streams.Keys, Injectors.Shutdown)
    {
      hide *;
      Unfolded();
      ghost var states := States();
      var keys := streams.Keys;
      StopVisits(before);
      StartWalk(after, [], true, keys);
      TouchedNone(states, before, Injectors.Shutdown);
      ghost var visited: set<nat> := {};
      while keys != {}
        invariant keys <= before.streams.Keys == streams.Keys && Walking(before, after, keys)
        invariant visited == streams.Keys - keys
        invariant |states| == |objects| == |before.members|
        invariant States() == Touched(states, before, visited, Injectors.Shutdown)
        decreases keys
      {
        var k :| k in keys;
        ShutdownAt(k, before, after, keys, before.streams.Keys);
        TouchedOne(states, before, visited, k, Injectors.Shutdown, [], true, after, before.streams.Keys);
        visited, keys := visited + {k}, keys - {k};
      }
      assert visited == streams.Keys;
      EndWalk(before, after);
    }

    lemma EmptyListed()
      requires streams == map[] && model.streams == map[]
      ensures Listed(model)
    {
    }

    method ShutdownAt(k: nat, ghost before: Server, ghost after: Server, ghost keys: set<nat>, ghost visited: set<nat>)
      requires k in keys && keys <= visited <= streams.Keys && Walking(before, after, keys)
      requires Visited(before, after, [], true, visited)
      modifies objects
      ensures Walking(before, after, keys - {k})
      ensures k in before.streams && before.streams[k] < |objects|
      ensures States() == Advanced(old(States()), before.streams[k], Injectors.Shutdown)
    {
      hide Tracks;
      hide Mapped;
      hide Injectors.Step;
      hide Injectors.FrameInjector.State;
      ghost var n := before.streams[k];
      EntryAt(before, k);
      hide Lists;
      VisitedAt(before, after, [], true, visited, k);
      hide Visited;
      assert Tracks(objects[n], Pick(before, after, keys, n));
      ShutdownTracked(streams[k], before.members[n], after.members[n]);
    }

    /** Every session starts from an empty table; only a multicast session registers a stream at once. */
    method Start(newCodec: VideoCodec, useMulticast: bool, env: StartReply) returns (r: Result<string, StartError>)
      requires Valid()
      modifies this`streams, this`url, this`codec, this`model, this`objects, this`sink, this`sms,
          this`deletedSessions, objects
      ensures Valid()
      ensures r == if !env.supported then Err(CodecNotSupported)
                   else if useMulticast && !env.sinkOk then Err(NoSink)
                   else if useMulticast && !env.hostnameOk then Err(NoHostname)
                   else if useMulticast && !env.framerOk then Err(NoFramer)
                   else Ok(env.url)
      ensures codec == (if env.supported then newCodec else old(codec))
      ensures url == (if r.Ok? then env.url else "")
      ensures sink == (env.supported && useMulticast && env.sinkOk)
      ensures sms == (env.supported && (useMulticast ==> env.sinkOk && env.hostnameOk))
      ensures deletedSessions == old(deletedSessions) + (if old(sms) then 1 else 0)
      ensures var stopped := Touched(old(States()), old(model), old(model).streams.Keys, Injectors.Shutdown);
              States() == if r.Ok? && useMulticast then stopped + [Injectors.FRESH] else stopped
      ensures model == var stopped := Step(old(model), Stop);
                       if r.Ok? && useMulticast then Step(stopped, Create(env.source, true)) else stopped
      ensures streams.Keys == if r.Ok? && useMulticast then {env.source} else {}
    {
      hide *;
      StopSession();
      if !env.supported {
        return Err(CodecNotSupported);
      }
      codec := newCodec;
      if useMulticast {
        if !env.sinkOk {
          return Err(NoSink);
        }
        sink := true;
        if !env.hostnameOk {
          return Err(NoHostname);
        }
        sms := true;
        var injector := new Injectors.FrameInjector();
        if !env.framerOk {
          return Err(NoFramer);
        }
        NewStreamSource(env.source, injector);
      } else {
        sms := true;
      }
      url := env.url;
      return Ok(url);
    }
  }

  /** What a walk over the streams with the given keys does to the injectors: each one takes the same step. */
  ghost function Touched(ss: seq<Injectors.Injector>, m: Server, keys: set<nat>, a: Injectors.Action)
    : (r: seq<Injectors.Injector>)
    ensures |r| == |ss|
  {
    seq(|ss|, i requires 0 <= i < |ss| =>
      if i < |m.members| && Mapped(m, i) && m.members[i].key in keys then Injectors.Step(ss[i], a) else ss[i])
  }

  ghost function Advanced(ss: seq<Injectors.Injector>, n: nat, a: Injectors.Action): seq<Injectors.Injector>
    requires n < |ss|
  {
    ss[n := Injectors.Step(ss[n], a)]
  }

  lemma TouchedNone(ss: seq<Injectors.Injector>, m: Server, a: Injectors.Action)
    ensures Touched(ss, m, {}, a) == ss
  {
  }

  lemma TouchedMissing(ss: seq<Injectors.Injector>, m: Server, key: nat, a: Injectors.Action)
    requires key !in m.streams
    ensures Touched(ss, m, {key}, a) == ss
  {
  }

  lemma TouchedOne(ss: seq<Injectors.Injector>, m: Server, keys: set<nat>, k: nat, a: Injectors.Action,
                   more: seq<FrameData>, down: bool, after: Server, all: set<nat>)
    requires Visited(m, after, more, down, all) && k in m.streams && k !in keys && |ss| == |m.members|
    ensures m.streams[k] < |ss|
    ensures Advanced(Touched(ss, m, keys, a), m.streams[k], a) == Touched(ss, m, keys + {k}, a)
    ensures {} + {k} == {k}
  {
    hide Injectors.Step;
  }

  method InjectTracked(o: Injectors.FrameInjector, frame: FrameData, ghost m: Member, ghost m': Member)
    requires Tracks(o, m) && !m.injector.isShutdown && !m'.injector.isShutdown
    requires m'.injector.accepted == m.injector.accepted + [frame]
    modifies o
    ensures Tracks(o, m') && o.State() == Injectors.Step(old(o.State()), Injectors.Inject(frame))
  {
    hide Injectors.FrameInjector.Valid;
    hide Injectors.FrameInjector.State;
    o.InjectFrame(frame);
  }

  method ShutdownTracked(o: Injectors.FrameInjector, ghost m: Member, ghost m': Member)
    requires Tracks(o, m) && m'.injector.isShutdown && m'.injector.accepted == m.injector.accepted
    modifies o
    ensures Tracks(o, m') && o.State() == Injectors.Step(old(o.State()), Injectors.Shutdown)
  {
    hide Injectors.FrameInjector.Valid;
    hide Injectors.FrameInjector.State;
    o.ShutdownSource();
  }

  /** Member `i` while the streams with the given keys have not been visited yet. */
  ghost function Pick(before: Server, after: Server, keys: set<nat>, i: nat): Member
    requires i < |before.members| && i < |after.members|
  {
    if before.members[i].key in keys then before.members[i] else after.members[i]
  }

  /** What visiting the streams with the given keys does: the member's injector accepts `more` and is shut down if
      `down` says so; every other member stays as it is. */
  ghost predicate Visited(before: Server, after: Server, more: seq<FrameData>, down: bool, keys: set<nat>) {
    && |after.members| == |before.members|
    && (forall k :: k in before.streams ==>
          && before.streams[k] < |before.members| && before.members[before.streams[k]].key == k
          && Mapped(before, before.streams[k]))
    && (forall i :: 0 <= i < |before.members| && Mapped(before, i) ==>
          before.members[i].key in before.streams && i == before.streams[before.members[i].key])
    && (forall i :: 0 <= i < |before.members| && Mapped(before, i) && before.members[i].key in keys ==>
          && !before.members[i].injector.isShutdown
          && after.members[i].injector.accepted == before.members[i].injector.accepted + more
          && after.members[i].injector.isShutdown == down)
    && (forall i :: 0 <= i < |before.members| && !(Mapped(before, i) && before.members[i].key in keys) ==>
          after.members[i] == before.members[i])
  }

  lemma VisitedAt(before: Server, after: Server, more: seq<FrameData>, down: bool, keys: set<nat>, k: nat)
    requires Visited(before, after, more, down, keys) && k in keys && k in before.streams
    ensures var n := before.streams[k];
            && n < |before.members| == |after.members| && before.members[n].key == k
            && !before.members[n].injector.isShutdown && after.members[n].injector.isShutdown == down
            && after.members[n].injector.accepted == before.members[n].injector.accepted + more
            && (forall i :: 0 <= i < |before.members| && i != n && before.members[i].key == k ==>
                  after.members[i] == before.members[i])
  {
  }

  lemma TableShape(s: Server)
    requires Good(s)
    ensures forall k :: k in s.streams ==>
              s.streams[k] < |s.members| && s.members[s.streams[k]].key == k && Mapped(s, s.streams[k])
    ensures forall i :: 0 <= i < |s.members| && Mapped(s, i) ==>
              s.members[i].key in s.streams && i == s.streams[s.members[i].key]
  {
  }

  lemma SentVisits(s: Server, f: FrameData)
    requires Good(s)
    ensures Visited(s, Step(s, Send(f)), [f], false, s.streams.Keys) && Step(s, Send(f)).streams == s.streams
  {
    TableShape(s);
    forall i | 0 <= i < |s.members| && Mapped(s, i)
      ensures Sent(s, f)[i].injector.accepted == s.members[i].injector.accepted + [f]
              && !s.members[i].injector.isShutdown && !Sent(s, f)[i].injector.isShutdown
    {
      assert MemberGood(s, i);
    }
  }

  lemma StopVisits(s: Server)
    requires Good(s)
    ensures Visited(s, Step(s, Stop), [], true, s.streams.Keys) && Step(s, Stop).streams == map[]
  {
    TableShape(s);
    forall i | 0 <= i < |s.members| && Mapped(s, i)
      ensures Stopped(s)[i].injector.accepted == s.members[i].injector.accepted + []
              && !s.members[i].injector.isShutdown && Stopped(s)[i].injector.isShutdown
    {
      assert MemberGood(s, i);
    }
  }

  lemma CloseVisits(s: Server, key: nat)
    requires Good(s)
    ensures Visited(s, Step(s, Close(key)), [], true, s.streams.Keys * {key})
    ensures Step(s, Close(key)).streams == s.streams - {key}
  {
    TableShape(s);
    forall i | 0 <= i < |s.members| && Mapped(s, i) && s.members[i].key in s.streams.Keys * {key}
      ensures Closed(s, key)[i].injector.accepted == s.members[i].injector.accepted + []
              && !s.members[i].injector.isShutdown && Closed(s, key)[i].injector.isShutdown
    {
      assert MemberGood(s, i);
    }
  }
}
