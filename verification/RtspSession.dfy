/** One RTSP session of the client (DESCRIBE, SETUP, PLAY and TEARDOWN of RFC 2326, sections 10.2, 10.4, 10.5
    and 10.7), driven by the replies of the server, and the watchdog on received packets. */
module RtspSession {
  import opened Frames

  /** A media subsession and how the surroundings react to it: whether it can be initiated, its codec, the
      result of its SETUP, and whether its decoder and its frame extractor can be built. */
  datatype Sub = Sub(initiates: bool, codec: VideoCodec, setup: int, decoderOk: bool, extractorOk: bool)

  datatype Command = Setup(index: nat) | Play | Teardown

  datatype Report =
    | SubsessionStarted(index: nat)
    | SubsessionFinished(index: nat)
    | Ready | Started | Finished | Timeout
    | Failed(code: int)

  /** Which reply is outstanding. */
  datatype Pending = Describing | SettingUp | StartingPlay | Nothing

  /** `subs` is the current session, `next` the position of the subsession iterator, `current` the subsession
      being set up, `sinks` the subsessions with a frame extractor. `token` says whether a timeout timer is
      remembered, `tasks` counts those the scheduler really holds. */
  datatype Client = Client(
    subs: Option<seq<Sub>>, next: Option<nat>, current: Option<nat>, sinks: set<nat>, hasVideo: bool,
    active: bool, timeout: int, token: bool, tasks: nat, received: nat,
    pending: Pending, commands: seq<Command>, reports: seq<Report>)

  const NEW: Client := Client(None, None, None, {}, false, false, 0, false, 0, 0, Describing, [], [])

  function Tell(c: Client, r: Report): Client {
    c.(reports := c.reports + [r])
  }

  function Cancelled(c: Client): Client {
    if c.token then c.(token := false, tasks := if c.tasks == 0 then 0 else c.tasks - 1) else c
  }

  function TornDown(c: Client): Client {
    Cancelled(
      if c.subs.Some?
      then c.(active := false, subs := None, sinks := {},
              commands := if c.subs.value == [] then c.commands else c.commands + [Teardown])
      else c.(active := false))
  }

  /** From subsession `i` on: skip what cannot be used, ask for the first candidate, and at the end of the
      list either start playing or give up. */
  function SetUpFrom(c: Client, subs: seq<Sub>, i: nat): Client
    decreases |subs| - i
  {
    if i >= |subs| then
      var done := c.(current := None, next := None);
      if !c.hasVideo then Tell(TornDown(done), Failed(415)).(pending := Nothing)
      else Tell(done, Ready).(commands := c.commands + [Play], pending := StartingPlay)
    else if subs[i].initiates && subs[i].codec != Unknown && !c.hasVideo then
      c.(current := Some(i), next := Some(i + 1), commands := c.commands + [Setup(i)], pending := SettingUp)
    else SetUpFrom(c.(current := Some(i), next := Some(i + 1)), subs, i + 1)
  }

  function AfterDescribe(c: Client, code: int, session: Option<seq<Sub>>): Client {
    var c := c.(pending := Nothing);
    if code != 0 then Tell(c, Failed(code))
    else
      var c := c.(hasVideo := false);
      if session.None? then Tell(c, Failed(500))
      else
        var c := c.(subs := session);
        if session.value == [] then Tell(TornDown(c), Failed(415))
        else SetUpFrom(c.(next := Some(0)), session.value, 0)
  }

  function AfterSetup(c: Client, code: int, decoderOk: bool, extractorOk: bool): Client {
    if c.subs.None? || c.next.None? || c.current.None? then c
    else
      var i := c.current.value;
      var told := if code == 0 then Tell(c, SubsessionStarted(i)) else c;
      var c1 := if code == 0 && decoderOk && extractorOk
                then told.(sinks := told.sinks + {i}, hasVideo := true) else told;
      SetUpFrom(c1.(pending := Nothing), c.subs.value, c.next.value)
  }

  function Scheduled(c: Client): Client {
    c.(token := true, tasks := c.tasks + 1)
  }

  function AfterPlay(c: Client, code: int): Client {
    var c := c.(pending := Nothing);
    if code == 0 then
      var on := c.(active := true);
      Tell(if c.timeout > 0 then Scheduled(on) else on, Started)
    else Tell(TornDown(c), Failed(code))
  }

  function TimeoutChanged(c: Client, timeout: int): Client {
    var c := Cancelled(c.(timeout := timeout));
    if timeout > 0 && c.active then Scheduled(c) else c
  }

  /** The scheduled timer goes off and finds `total` packets received. */
  function Checked(c: Client, total: nat): Client {
    var c := c.(token := false, tasks := if c.tasks == 0 then 0 else c.tasks - 1);
    if c.subs.None? then c
    else if total != c.received then Scheduled(c.(received := total))
    else Tell(c, Timeout)
  }

  function SubEnded(c: Client, i: nat): Client {
    var c := Tell(c, SubsessionFinished(i)).(sinks := c.sinks - {i});
    if c.sinks != {} then c else Tell(TornDown(c), Finished)
  }

  datatype Action =
    | DescribeReply(code: int, session: Option<seq<Sub>>)
    | SetupReply(code: int, decoderOk: bool, extractorOk: bool)
    | PlayReply(code: int)
    | SetTimeout(timeout: int)
    | Tick(total: nat)
    | StreamEnded(index: nat)
    | TearDown

  function Step(c: Client, a: Action): Client {
    match a
    case DescribeReply(code, session) => if c.pending == Describing then AfterDescribe(c, code, session) else c
    case SetupReply(code, d, e) => if c.pending == SettingUp then AfterSetup(c, code, d, e) else c
    case PlayReply(code) => if c.pending == StartingPlay then AfterPlay(c, code) else c
    case SetTimeout(t) => TimeoutChanged(c, t)
    case Tick(total) => if c.tasks > 0 then Checked(c, total) else c
    case StreamEnded(i) => if i in c.sinks then SubEnded(c, i) else c
    case TearDown => TornDown(c)
  }

  function Run(c: Client, acts: seq<Action>): Client
    decreases |acts|
  {
    if acts == [] then c else Run(Step(c, acts[0]), acts[1..])
  }

  /** Every reply that is awaited, every tick of a timer that is set, every end of a stream that has a sink, and every
      change of the timeout and teardown is acted upon; everything else is ignored. */
  lemma StepDecides(c: Client, a: Action)
    ensures Step(c, a) ==
            if a.SetTimeout? then TimeoutChanged(c, a.timeout)
            else if a.TearDown? then TornDown(c)
            else if a.Tick? && c.tasks > 0 then Checked(c, a.total)
            else if a.StreamEnded? && a.index in c.sinks then SubEnded(c, a.index)
            else if a.DescribeReply? && c.pending == Describing then AfterDescribe(c, a.code, a.session)
            else if a.SetupReply? && c.pending == SettingUp then AfterSetup(c, a.code, a.decoderOk, a.extractorOk)
            else if a.PlayReply? && c.pending == StartingPlay then AfterPlay(c, a.code)
            else c
  {
  }

  // ----- the watchdog's timer

  predicate WatchGood(c: Client) {
    && c.tasks == (if c.token then 1 else 0)
    && (c.tasks > 0 ==> c.active && c.timeout > 0)
    && (c.pending != Nothing ==> !c.active)
  }

  lemma {:induction false} SetUpKeepsWatch(c: Client, subs: seq<Sub>, i: nat)
    requires WatchGood(c) && !c.active
    ensures WatchGood(SetUpFrom(c, subs, i)) && !SetUpFrom(c, subs, i).active
    decreases |subs| - i
  {
    if i < |subs| && !(subs[i].initiates && subs[i].codec != Unknown && !c.hasVideo) {
      SetUpKeepsWatch(c.(current := Some(i), next := Some(i + 1)), subs, i + 1);
    }
  }

  lemma StepKeepsWatch(c: Client, a: Action)
    requires WatchGood(c)
    ensures WatchGood(Step(c, a))
  {
    hide SetUpFrom;
    match a
    case DescribeReply(code, session) =>
      if c.pending == Describing && code == 0 && session.Some? {
        SetUpKeepsWatch(c.(pending := Nothing, hasVideo := false, subs := session, next := Some(0)), session.value, 0);
      }
    case SetupReply(code, d, e) =>
      if c.pending == SettingUp && c.subs.Some? && c.next.Some? && c.current.Some? {
        var i := c.current.value;
        var told := if code == 0 then Tell(c, SubsessionStarted(i)) else c;
        var c1 := if code == 0 && d && e then told.(sinks := told.sinks + {i}, hasVideo := true) else told;
        SetUpKeepsWatch(c1.(pending := Nothing), c.subs.value, c.next.value);
      }
    case _ =>
  }

  lemma {:induction false} RunKeepsWatch(c: Client, acts: seq<Action>)
    requires WatchGood(c)
    ensures WatchGood(Run(c, acts))
    decreases |acts|
  {
    hide WatchGood;
    hide Step;
    if acts != [] {
      StepKeepsWatch(c, acts[0]);
      RunKeepsWatch(Step(c, acts[0]), acts[1..]);
    }
  }

  /** However replies, parameter changes, ticks and teardowns interleave in the life of a client, the scheduler
      never holds more than one timeout timer, exactly the one the client remembers, and it holds one only while
      the session is active and the timeout is positive. */
  lemma AtMostOneTimeoutTask(acts: seq<Action>)
    ensures var c := Run(NEW, acts);
            && c.tasks <= 1
            && (c.tasks == 1 <==> c.token)
            && (c.tasks == 1 ==> c.active && c.timeout > 0)
  {
    RunKeepsWatch(NEW, acts);
  }

  // ----- subsession selection

  /** One round of set-up, said of the subsessions themselves: with nothing chosen yet it asks for the first one from
      position `i` on that can be initiated and has a known codec, and without one gives up with 415; with one chosen
      it starts playing. */
  lemma {:induction false} SetUpDecides(c: Client, subs: seq<Sub>, i: nat, j: nat)
    requires c.subs == Some(subs) && i <= j <= |subs|
    requires forall k :: i <= k < j ==> !subs[k].initiates || subs[k].codec == Unknown
    ensures var v := SetUpFrom(c, subs, i);
            && (c.hasVideo ==>
                  && v.commands == c.commands + [Play] && v.reports == c.reports + [Ready] && v.pending == StartingPlay
                  && v.subs == c.subs && v.sinks == c.sinks)
            && (!c.hasVideo && j < |subs| && subs[j].initiates && subs[j].codec != Unknown ==>
                  && v.commands == c.commands + [Setup(j)] && v.reports == c.reports && v.pending == SettingUp
                  && v.current == Some(j) && v.next == Some(j + 1) && v.subs == c.subs && v.sinks == c.sinks)
            && (!c.hasVideo && j == |subs| ==>
                  && v.commands == c.commands + (if subs == [] then [] else [Teardown])
                  && v.reports == c.reports + [Failed(415)] && v.pending == Nothing && v.subs == None && v.sinks == {})
    decreases j - i
  {
    if c.hasVideo {
      ChosenIsPlayed(c, subs, i);
    } else if i < j {
      SetUpDecides(c.(current := Some(i), next := Some(i + 1)), subs, i + 1, j);
    }
  }

  /** A SETUP reply attaches a sink to the subsession asked for exactly if the status is 0 and decoder and extractor
      can be built, reports the subsession whenever the status is 0, and set-up goes on behind it. */
  lemma SetUpReplyDecides(c: Client, code: int, decoderOk: bool, extractorOk: bool)
    requires c.subs.Some? && c.next.Some? && c.current.Some?
    ensures var i, good := c.current.value, code == 0 && decoderOk && extractorOk;
            AfterSetup(c, code, decoderOk, extractorOk)
            == SetUpFrom(c.(reports := c.reports + (if code == 0 then [SubsessionStarted(i)] else []),
                            sinks := c.sinks + (if good then {i} else {}), hasVideo := c.hasVideo || good,
                            pending := Nothing),
                         c.subs.value, c.next.value)
  {
    hide SetUpFrom;
    assert c.reports + [] == c.reports && c.sinks + {} == c.sinks;
  }

  predicate Candidate(s: Sub) {
    s.initiates && s.codec != Unknown
  }

  predicate Playable(s: Sub) {
    Candidate(s) && s.setup == 0 && s.decoderOk && s.extractorOk
  }

  /** The server and the surroundings answer every outstanding SETUP as the subsession says. */
  function Answered(c: Client, subs: seq<Sub>): Client
    requires c.current.Some? && c.current.value < |subs|
  {
    var s := subs[c.current.value];
    AfterSetup(c, s.setup, s.decoderOk, s.extractorOk)
  }

  /** Set-up under way on list `subs`. */
  predicate Walking(c: Client, subs: seq<Sub>) {
    && c.subs == Some(subs) && subs != []
    && (c.pending == SettingUp ==>
          && c.current.Some? && c.current.value < |subs| && c.next == Some(c.current.value + 1)
          && Candidate(subs[c.current.value]))
  }

  lemma {:induction false} SetUpAdvances(c: Client, subs: seq<Sub>, i: nat)
    requires c.subs == Some(subs) && subs != [] && c.pending == Nothing
    ensures var v := SetUpFrom(c, subs, i);
            v.pending == SettingUp ==>
              Walking(v, subs) && v.current.value >= i && !c.hasVideo
              && v == c.(current := v.current, next := v.next, commands := c.commands + [Setup(v.current.value)],
                         pending := SettingUp)
    decreases |subs| - i
  {
    if i < |subs| && !(Candidate(subs[i]) && !c.hasVideo) {
      SetUpAdvances(c.(current := Some(i), next := Some(i + 1)), subs, i + 1);
    }
  }

  /** All set-up replies, until none is outstanding. */
  function SetUpAll(c: Client, subs: seq<Sub>): Client
    requires Walking(c, subs)
    decreases if c.pending == SettingUp then 1 + |subs| - c.current.value else 0
  {
    if c.pending != SettingUp then c
    else
      var s := subs[c.current.value];
      var told := if s.setup == 0 then Tell(c, SubsessionStarted(c.current.value)) else c;
      var c1 := if s.setup == 0 && s.decoderOk && s.extractorOk
                then told.(sinks := told.sinks + {c.current.value}, hasVideo := true) else told;
      SetUpAdvances(c1.(pending := Nothing), subs, c.next.value);
      var v := Answered(c, subs);
      if v.pending == SettingUp then SetUpAll(v, subs) else v
  }

  /** The candidates among the first `n` subsessions, in order. */
  function Candidates(subs: seq<Sub>, n: nat): seq<Command>
    requires n <= |subs|
  {
    if n == 0 then []
    else Candidates(subs, n - 1) + (if Candidate(subs[n - 1]) then [Setup(n - 1)] else [])
  }

  function Failures(reports: seq<Report>): seq<int> {
    if reports == [] then []
    else Failures(reports[..|reports| - 1])
         + (if reports[|reports| - 1].Failed? then [reports[|reports| - 1].code] else [])
  }

  lemma FailuresTell(reports: seq<Report>, r: Report)
    ensures Failures(reports + [r]) == Failures(reports) + (if r.Failed? then [r.code] else [])
  {
    assert (reports + [r])[..|reports + [r]| - 1] == reports;
  }

  /** Behind a chosen subsession everything else is passed over and the session is played. */
  lemma {:induction false} ChosenIsPlayed(c: Client, subs: seq<Sub>, i: nat)
    requires c.hasVideo
    ensures var v := SetUpFrom(c, subs, i);
            && v.sinks == c.sinks && v.subs == c.subs && v.pending == StartingPlay && v.hasVideo
            && v.commands == c.commands + [Play] && v.reports == c.reports + [Ready]
    decreases |subs| - i
  {
    if i < |subs| {
      ChosenIsPlayed(c.(current := Some(i), next := Some(i + 1)), subs, i + 1);
    }
  }

  /** Whether set-up ends the way the list says it must, `f` being the first playable subsession. */
  predicate EndsWell(v: Client, subs: seq<Sub>, f: Option<nat>)
    requires f.Some? ==> f.value < |subs|
  {
    if f.Some? then
      && v.sinks == {f.value} && v.subs == Some(subs) && v.pending == StartingPlay
      && v.commands == Candidates(subs, f.value + 1) + [Play]
      && Failures(v.reports) == []
    else
      && v.sinks == {} && v.subs == None && v.pending == Nothing && !v.active
      && v.commands == Candidates(subs, |subs|) + (if subs == [] then [] else [Teardown])
      && Failures(v.reports) == [415]
  }

  predicate FirstPlayable(subs: seq<Sub>, f: Option<nat>) {
    if f.Some? then f.value < |subs| && Playable(subs[f.value]) && forall j :: 0 <= j < f.value ==> !Playable(subs[j])
    else forall j :: 0 <= j < |subs| ==> !Playable(subs[j])
  }

  /** Standing before subsession `i` with nothing chosen. */
  predicate Before(c: Client, subs: seq<Sub>, i: nat) {
    && i <= |subs| && subs != []
    && c.subs == Some(subs) && c.pending == Nothing && !c.hasVideo && c.sinks == {} && !c.active && !c.token
    && c.commands == Candidates(subs, i) && Failures(c.reports) == []
  }

  lemma {:induction false} WalkRefinesFind(c: Client, subs: seq<Sub>, i: nat, f: Option<nat>)
    requires Before(c, subs, i) && FirstPlayable(subs, f) && (f.Some? ==> i <= f.value)
    ensures var v := SetUpFrom(c, subs, i);
            if v.pending == SettingUp then Walking(v, subs) && EndsWell(SetUpAll(v, subs), subs, f)
            else EndsWell(v, subs, f)
    decreases |subs| - i
  {
    if i == |subs| {
      FailuresTell(TornDown(c).reports, Failed(415));
    } else if !Candidate(subs[i]) {
      WalkRefinesFind(c.(current := Some(i), next := Some(i + 1)), subs, i + 1, f);
    } else {
      AskOne(c, subs, i, f);
    }
  }

  lemma {:induction false} AskOne(c: Client, subs: seq<Sub>, i: nat, f: Option<nat>)
    requires Before(c, subs, i) && i < |subs| && Candidate(subs[i])
    requires FirstPlayable(subs, f) && (f.Some? ==> i <= f.value)
    ensures var v := SetUpFrom(c, subs, i);
            v.pending == SettingUp && Walking(v, subs) && EndsWell(SetUpAll(v, subs), subs, f)
    decreases |subs| - i, 0
  {
    var v := SetUpFrom(c, subs, i);
    assert v == c.(current := Some(i), next := Some(i + 1), commands := c.commands + [Setup(i)], pending := SettingUp);
    hide SetUpFrom;
    AnswerStep(v, subs);
    if Playable(subs[i]) {
      AnsweredWell(v, subs, i);
    } else {
      AnsweredBadly(v, subs, i);
      WalkRefinesFind(Replied(v, subs), subs, i + 1, f);
    }
  }

  /** The client when the reply to its SETUP has been digested. */
  function Replied(c: Client, subs: seq<Sub>): Client
    requires c.current.Some? && c.current.value < |subs|
  {
    var s := subs[c.current.value];
    var told := if s.setup == 0 then Tell(c, SubsessionStarted(c.current.value)) else c;
    (if s.setup == 0 && s.decoderOk && s.extractorOk
     then told.(sinks := told.sinks + {c.current.value}, hasVideo := true) else told).(pending := Nothing)
  }

  lemma AnswerStep(v: Client, subs: seq<Sub>)
    requires Walking(v, subs) && v.pending == SettingUp
    ensures Answered(v, subs) == SetUpFrom(Replied(v, subs), subs, v.current.value + 1)
    ensures var w := SetUpFrom(Replied(v, subs), subs, v.current.value + 1);
            if w.pending == SettingUp then Walking(w, subs) && SetUpAll(v, subs) == SetUpAll(w, subs)
            else SetUpAll(v, subs) == w
  {
    SetUpAdvances(Replied(v, subs), subs, v.current.value + 1);
    hide SetUpFrom;
  }

  lemma AnsweredWell(v: Client, subs: seq<Sub>, i: nat)
    requires i < |subs| && Playable(subs[i]) && v.current == Some(i) && v.subs == Some(subs)
    requires v.sinks == {} && v.commands == Candidates(subs, i) + [Setup(i)] && Failures(v.reports) == []
    ensures EndsWell(SetUpFrom(Replied(v, subs), subs, i + 1), subs, Some(i))
  {
    hide *;
    RepliedWell(v, subs, i);
    ChosenIsPlayed(Replied(v, subs), subs, i + 1);
    FailuresTell(Replied(v, subs).reports, Ready);
    PlayedEndsWell(SetUpFrom(Replied(v, subs), subs, i + 1), subs, i);
  }

  lemma RepliedWell(v: Client, subs: seq<Sub>, i: nat)
    requires i < |subs| && Playable(subs[i]) && v.current == Some(i) && v.subs == Some(subs)
    requires v.sinks == {} && v.commands == Candidates(subs, i) + [Setup(i)] && Failures(v.reports) == []
    ensures var c1 := Replied(v, subs);
            && c1.hasVideo && c1.subs == Some(subs) && c1.sinks == {i}
            && c1.commands == Candidates(subs, i + 1) && Failures(c1.reports) == []
    ensures Failures(Replied(v, subs).reports) + [] == []
    ensures !Ready.Failed?
  {
    hide Failures;
    FailuresTell(v.reports, SubsessionStarted(i));
  }

  lemma PlayedEndsWell(w: Client, subs: seq<Sub>, i: nat)
    requires i < |subs| && w.sinks == {i} && w.subs == Some(subs) && w.pending == StartingPlay
    requires w.commands == Candidates(subs, i + 1) + [Play] && Failures(w.reports) == []
    ensures EndsWell(w, subs, Some(i))
  {
  }

  lemma AnsweredBadly(v: Client, subs: seq<Sub>, i: nat)
    requires i < |subs| && Candidate(subs[i]) && !Playable(subs[i]) && v.current == Some(i) && v.subs == Some(subs)
    requires !v.hasVideo && v.sinks == {} && !v.active && !v.token
    requires v.commands == Candidates(subs, i) + [Setup(i)] && Failures(v.reports) == []
    ensures Before(Replied(v, subs), subs, i + 1)
  {
    FailuresTell(v.reports, SubsessionStarted(i));
  }

  /** Whatever the subsession list, even an empty one: set-up comes to an end; it attaches at most one sink, to
      the first playable subsession; it asks for each candidate up to that one exactly once, in order; it plays
      exactly when such a subsession exists and otherwise tears down and fails once, with 415. */
  lemma SelectionRefinesFindFirst(c: Client, subs: seq<Sub>, f: Option<nat>)
    requires c == NEW.(timeout := c.timeout)
    requires FirstPlayable(subs, f)
    ensures var v := Step(c, DescribeReply(0, Some(subs)));
            if v.pending == SettingUp then Walking(v, subs) && EndsWell(SetUpAll(v, subs), subs, f)
            else EndsWell(v, subs, f)
  {
    if subs == [] {
      FailuresTell([], Failed(415));
    } else {
      WalkRefinesFind(c.(pending := Nothing, hasVideo := false, subs := Some(subs), next := Some(0)), subs, 0, f);
    }
  }

  /** There is always such an `f`, and only one. */
  lemma {:induction false} FirstPlayableExists(subs: seq<Sub>, n: nat) returns (f: Option<nat>)
    requires n <= |subs| && forall j :: 0 <= j < n ==> !Playable(subs[j])
    ensures FirstPlayable(subs, f)
    ensures forall g: Option<nat> :: FirstPlayable(subs, g) ==> g == f
    decreases |subs| - n
  {
    if n == |subs| {
      f := None;
    } else if Playable(subs[n]) {
      f := Some(n);
    } else {
      f := FirstPlayableExists(subs, n + 1);
    }
  }

  // ----- the watchdog's timing

  /** `counts[k]` is what the k-th tick finds; ticks go on until one raises a timeout. */
  function Ticks(c: Client, counts: seq<nat>): Client
    decreases |counts|
  {
    if counts == [] || c.tasks == 0 then c else Ticks(Step(c, Tick(counts[0])), counts[1..])
  }

  predicate Armed(c: Client) {
    WatchGood(c) && c.tasks == 1 && c.subs.Some?
  }

  /** The count a tick compares with. */
  function Previous(c: Client, counts: seq<nat>, k: nat): nat
    requires k <= |counts|
  {
    if k == 0 then c.received else counts[k - 1]
  }

  /** A timeout is raised at the first tick that finds the count of the tick before, and only there. */
  lemma {:induction false} TimeoutAtFirstRepeat(c: Client, counts: seq<nat>)
    requires Armed(c)
    ensures var v := Ticks(c, counts);
            && (v.reports == c.reports || v.reports == c.reports + [Timeout])
            && (v.reports == c.reports + [Timeout] <==>
                  exists k: nat :: k < |counts| && counts[k] == Previous(c, counts, k))
            && (v.reports == c.reports <==> Armed(v))
    decreases |counts|
  {
    if counts != [] {
      var c1 := Step(c, Tick(counts[0]));
      if counts[0] == c.received {
        assert counts[0] == Previous(c, counts, 0);
        assert Ticks(c1, counts[1..]) == c1;
      } else {
        TimeoutAtFirstRepeat(c1, counts[1..]);
        if exists k: nat :: k < |counts[1..]| && counts[1..][k] == Previous(c1, counts[1..], k) {
          var k: nat :| k < |counts[1..]| && counts[1..][k] == Previous(c1, counts[1..], k);
          assert counts[k + 1] == Previous(c, counts, k + 1);
        }
        if exists k: nat :: k < |counts| && counts[k] == Previous(c, counts, k) {
          var k: nat :| k < |counts| && counts[k] == Previous(c, counts, k);
          assert counts[1..][k - 1] == Previous(c1, counts[1..], k - 1);
        }
      }
    }
  }

  /** What the first `n` ticks after time `start` find, `received` giving the count at each millisecond. */
  function CountsAt(received: nat -> nat, start: nat, period: nat, n: nat): (r: seq<nat>)
    ensures |r| == n && forall k: nat :: k < n ==> r[k] == received(start + (k + 1) * period)
  {
    seq(n, k requires 0 <= k < n => received(start + (k + 1) * period))
  }

  ghost predicate Monotone(received: nat -> nat) {
    forall s: nat, t: nat :: s <= t ==> received(s) <= received(t)
  }

  /** Whatever came before, a stream that falls silent for good at time `p` is reported within two periods. */
  lemma SilenceIsReported(c: Client, received: nat -> nat, start: nat, p: nat) returns (n: nat)
    requires Armed(c) && start <= p && forall t: nat :: t >= p ==> received(t) == received(p)
    ensures start + n * c.timeout <= p + 2 * c.timeout
    ensures Ticks(c, CountsAt(received, start, c.timeout, n)).reports == c.reports + [Timeout]
  {
    var period: nat := c.timeout;
    var m := (p - start) / period;
    n := m + 2;
    var counts := CountsAt(received, start, period, n);
    MulFacts(m, period, p - start);
    assert counts[m + 1] == received(start + (m + 2) * period) == received(p);
    assert counts[m] == received(start + (m + 1) * period) == received(p);
    assert counts[m + 1] == Previous(c, counts, m + 1);
    TimeoutAtFirstRepeat(c, counts);
  }

  lemma MulFacts(m: nat, period: nat, d: nat)
    requires period > 0 && m == d / period
    ensures m * period <= d < (m + 1) * period
    ensures (m + 2) * period == m * period + 2 * period && (m + 1) * period == m * period + period
  {
  }

  /** As long as every interval between ticks brought a packet, no timeout is raised. */
  lemma NoFalseAlarm(c: Client, received: nat -> nat, start: nat, n: nat)
    requires Armed(c) && c.received <= received(start) && Monotone(received)
    requires forall k: nat {:trigger received(start + (k + 1) * c.timeout)} :: k < n ==>
               received(start + k * c.timeout) < received(start + (k + 1) * c.timeout)
    ensures Ticks(c, CountsAt(received, start, c.timeout, n)).reports == c.reports
    ensures Armed(Ticks(c, CountsAt(received, start, c.timeout, n)))
  {
    var period: nat := c.timeout;
    var counts := CountsAt(received, start, period, n);
    forall k: nat | k < n ensures counts[k] != Previous(c, counts, k) {
      assert counts[k] == received(start + (k + 1) * period);
      if k > 0 {
        assert counts[k - 1] == received(start + (k - 1 + 1) * period);
      } else {
        assert received(start + 0 * period) == received(start);
      }
    }
    TimeoutAtFirstRepeat(c, counts);
  }

  // ----- the session object

  function Sum(counts: seq<nat>): nat {
    if counts == [] then 0 else Sum(counts[..|counts| - 1]) + counts[|counts| - 1]
  }

  lemma {:induction false} SumAddsUp(a: seq<nat>, b: seq<nat>)
    ensures Sum(a + b) == Sum(a) + Sum(b)
    ensures forall x: nat :: Sum([x]) == x
    decreases |b|
  {
    if b == [] {
      assert a + b == a;
    } else {
      var n := |b| - 1;
      assert (a + b)[..|a + b| - 1] == a + b[..n] && (a + b)[|a + b| - 1] == b[n];
      SumAddsUp(a, b[..n]);
    }
    forall x: nat ensures Sum([x]) == x {
      assert [x][..0] == [] && Sum([]) == 0;
    }
  }

  class Live555Client {
    var session: Option<seq<Sub>>
    var iter: Option<nat>
    var subsession: Option<nat>
    var sinks: set<nat>
    var hasVideo: bool
    var sessionActive: bool
    var timeout: int
    var timeoutTask: bool
    var receivedPackets: nat
    // The scheduler's view, the outstanding reply, and what was sent and reported.
    var scheduled: nat
    var pending: Pending
    var commands: seq<Command>
    var reports: seq<Report>

    ghost function State(): Client
      reads this
    {
      Client(session, iter, subsession, sinks, hasVideo, sessionActive, timeout, timeoutTask, scheduled,
             receivedPackets, pending, commands, reports)
    }

    ghost predicate Valid()
      reads this
    {
      WatchGood(State())
    }

    constructor ()
      ensures Valid() && State() == NEW
      ensures session == None && sinks == {} && !hasVideo && !sessionActive && !timeoutTask && scheduled == 0
      ensures receivedPackets == 0 && pending == Describing && commands == [] && reports == []
    {
      session, iter, subsession, sinks := None, None, None, {};
      hasVideo, sessionActive, timeout, timeoutTask, receivedPackets := false, false, 0, false, 0;
      scheduled, pending, commands, reports := 0, Describing, [], [];
    }

    method Unschedule()
      modifies this`timeoutTask, this`scheduled
      ensures State() == Cancelled(old(State()))
      ensures !timeoutTask
      ensures scheduled == if old(timeoutTask) && old(scheduled) > 0 then old(scheduled) - 1 else old(scheduled)
    {
      if timeoutTask {
        timeoutTask := false;
        scheduled := if scheduled == 0 then 0 else scheduled - 1;
      }
    }

    method Schedule()
      modifies this`timeoutTask, this`scheduled
      ensures State() == Scheduled(old(State()))
      ensures timeoutTask && scheduled == old(scheduled) + 1
    {
      timeoutTask := true;
      scheduled := scheduled + 1;
    }

    method TeardownSession()
      modifies this
      ensures State() == TornDown(old(State()))
      ensures !sessionActive && session == None && !timeoutTask && (old(session).Some? ==> sinks == {})
      ensures commands == old(commands) + (if old(session).Some? && old(session).value != [] then [Teardown] else [])
      ensures reports == old(reports) && pending == old(pending) && hasVideo == old(hasVideo)
      ensures timeout == old(timeout) && receivedPackets == old(receivedPackets)
    {
      sessionActive := false;
      if session.Some? {
        sinks := {};
        if session.value != [] {
          commands := commands + [Teardown];
        }
        session := None;
      }
      Unschedule();
    }

    method SetSessionTimeout(newTimeout: int)
      requires Valid()
      modifies this`timeout, this`timeoutTask, this`scheduled
      ensures Valid() && State() == TimeoutChanged(old(State()), newTimeout)
      ensures timeout == newTimeout && (timeoutTask <==> newTimeout > 0 && sessionActive)
      ensures scheduled == if newTimeout > 0 && sessionActive then 1 else 0
    {
      StepKeepsWatch(State(), SetTimeout(newTimeout));
      timeout := newTimeout;
      Unschedule();
      if timeout > 0 && sessionActive {
        Schedule();
      }
    }

    method ContinueAfterDescribe(code: int, description: Option<seq<Sub>>)
      requires Valid() && pending == Describing
      modifies this
      ensures Valid() && State() == AfterDescribe(old(State()), code, description)
      ensures code != 0 ==>
                && reports == old(reports) + [Failed(code)] && session == old(session)
                && commands == old(commands) && pending == Nothing
      ensures code == 0 && description.None? ==>
                reports == old(reports) + [Failed(500)] && commands == old(commands) && pending == Nothing
      ensures code == 0 && description == Some([]) ==>
                && reports == old(reports) + [Failed(415)] && session == None
                && commands == old(commands) && pending == Nothing
    {
      hide SetUpFrom;
      StepKeepsWatch(State(), DescribeReply(code, description));
      pending := Nothing;
      if code != 0 {
        reports := reports + [Failed(code)];
        return;
      }
      hasVideo := false;
      if description.None? {
        reports := reports + [Failed(500)];
        return;
      }
      session := description;
      if session.value == [] {
        TeardownSession();
        reports := reports + [Failed(415)];
        return;
      }
      iter := Some(0);
      SetupNextSubsession();
    }

    method SetupNextSubsession()
      requires session.Some? && iter.Some?
      modifies this
      ensures State() == SetUpFrom(old(State()), old(session.value), old(iter.value))
      decreases |session.value| - iter.value
    {
      var i := iter.value;
      if i < |session.value| {
        subsession, iter := Some(i), Some(i + 1);
        var s := session.value[i];
        if s.initiates {
          if s.codec != Unknown {
            if !hasVideo {
              commands := commands + [Setup(i)];
              pending := SettingUp;
            } else {
              SetupNextSubsession();
            }
          } else {
            SetupNextSubsession();
          }
        } else {
          SetupNextSubsession();
        }
        return;
      }
      subsession, iter := None, None;
      if !hasVideo {
        TeardownSession();
        reports := reports + [Failed(415)];
        pending := Nothing;
        return;
      }
      reports := reports + [Ready];
      commands := commands + [Play];
      pending := StartingPlay;
    }

    method ContinueAfterSetup(code: int, decoderOk: bool, extractorOk: bool)
      requires Valid() && pending == SettingUp && session.Some? && iter.Some? && subsession.Some?
      modifies this
      ensures Valid() && State() == AfterSetup(old(State()), code, decoderOk, extractorOk)
    {
      hide SetUpFrom;
      StepKeepsWatch(State(), SetupReply(code, decoderOk, extractorOk));
      pending := Nothing;
      if code == 0 {
        reports := reports + [SubsessionStarted(subsession.value)];
        if decoderOk && extractorOk {
          sinks := sinks + {subsession.value};
          hasVideo := true;
        }
      }
      SetupNextSubsession();
    }

    method ContinueAfterPlay(code: int)
      requires Valid() && pending == StartingPlay
      modifies this
      ensures Valid() && State() == AfterPlay(old(State()), code)
      ensures pending == Nothing
      ensures code == 0 ==>
                && sessionActive && reports == old(reports) + [Started] && commands == old(commands)
                && session == old(session) && sinks == old(sinks)
                && timeoutTask == (timeout > 0 || old(timeoutTask))
                && scheduled == old(scheduled) + (if timeout > 0 then 1 else 0)
      ensures code != 0 ==>
                !sessionActive && session == None && reports == old(reports) + [Failed(code)] && !timeoutTask
    {
      StepKeepsWatch(State(), PlayReply(code));
      pending := Nothing;
      if code == 0 {
        sessionActive := true;
        if timeout > 0 {
          Schedule();
        }
        reports := reports + [Started];
      } else {
        TeardownSession();
        reports := reports + [Failed(code)];
      }
    }

    method SubsessionAfterPlaying(i: nat)
      requires Valid() && i in sinks
      modifies this
      ensures Valid() && State() == SubEnded(old(State()), i)
      ensures old(sinks) != {i} ==>
                && reports == old(reports) + [SubsessionFinished(i)] && sinks == old(sinks) - {i}
                && session == old(session) && sessionActive == old(sessionActive) && commands == old(commands)
      ensures old(sinks) == {i} ==>
                && reports == old(reports) + [SubsessionFinished(i), Finished] && session == None
                && sinks == {} && !sessionActive && !timeoutTask
    {
      StepKeepsWatch(State(), StreamEnded(i));
      reports := reports + [SubsessionFinished(i)];
      sinks := sinks - {i};
      if sinks != {} {
        return;
      }
      TeardownSession();
      reports := reports + [Finished];
    }

    /** `counts` are the packets each subsession's source has received so far. */
    method CheckTimeout(counts: seq<nat>)
      requires Valid() && scheduled > 0
      modifies this
      ensures Valid() && State() == Checked(old(State()), Sum(counts))
      ensures session == old(session) && timeout == old(timeout) && commands == old(commands)
      ensures session.None? ==> !timeoutTask && scheduled == old(scheduled) - 1 && reports == old(reports)
      ensures session.Some? && Sum(counts) != old(receivedPackets) ==>
                && timeoutTask && scheduled == old(scheduled) && receivedPackets == Sum(counts)
                && reports == old(reports)
      ensures session.Some? && Sum(counts) == old(receivedPackets) ==>
                !timeoutTask && scheduled == old(scheduled) - 1 && reports == old(reports) + [Timeout]
    {
      StepKeepsWatch(State(), Tick(Sum(counts)));
      timeoutTask := false;
      scheduled := scheduled - 1;
      if session.Some? {
        var total, i := 0, 0;
        while i < |counts|
          invariant 0 <= i <= |counts| && total == Sum(counts[..i])
        {
          assert counts[..i + 1][..i] == counts[..i];
          total := total + counts[i];
          i := i + 1;
        }
        assert counts[..i] == counts;
        if total != receivedPackets {
          receivedPackets := total;
          Schedule();
        } else {
          reports := reports + [Timeout];
        }
      }
    }
  }
}
