/** The subscriber and the RTSP session of its client taken together: the plugin makes and closes sessions, and what a
    session reports drives the plugin. */
module WatchedSubscriber {
  import opened Frames
  import Sessions = RtspSession
  import Plugins = SubscriberPlugin

  /** `client` is the session of the connection, if there is one. */
  datatype System = System(plugin: Plugins.Plugin, client: Option<Sessions.Client>)

  datatype Action =
    | Outside(event: Plugins.Action)                     // a message, parameters, a frame, the timer or the end
    | Inside(step: Sessions.Action, nodeAlive: bool)     // a reply, a tick or the end of a stream

  /** connect() makes a client, hands on the session timeout and asks for a description. */
  function NewClient(plugin: Plugins.Plugin): Sessions.Client {
    Sessions.TimeoutChanged(Sessions.NEW, plugin.config.timeout)
  }

  /** The session after a step of the plugin: a disconnected plugin has none, and a connection that is new or has been
      made anew has a new one. */
  function Follow(client: Option<Sessions.Client>, plugin: Plugins.Plugin, anew: bool): Option<Sessions.Client> {
    if !Plugins.Connected(plugin) then None
    else if client.None? || anew then Some(NewClient(plugin))
    else client
  }

  /** New parameters are handed on to the session at once. */
  function Reminded(client: Option<Sessions.Client>, timeout: int): Option<Sessions.Client> {
    if client.Some? then Some(Sessions.TimeoutChanged(client.value, timeout)) else None
  }

  /** How the plugin hears of a report. */
  function Heard(plugin: Plugins.Plugin, r: Sessions.Report, nodeAlive: bool): Plugins.Plugin {
    match r
    case Started => Plugins.Step(plugin, Plugins.SessionStarted)
    case Failed(code) => Plugins.Step(plugin, Plugins.SessionFailed(code, nodeAlive))
    case Timeout => Plugins.Step(plugin, Plugins.SessionTimeout(nodeAlive))
    case Finished => Plugins.Step(plugin, Plugins.SessionFinished(nodeAlive))
    case _ => plugin
  }

  /** The failure is answered by the retry, which disconnects and connects at once. */
  predicate Retries(plugin: Plugins.Plugin, r: Sessions.Report) {
    Plugins.Connected(plugin) && r == Sessions.Failed(454) && !plugin.link.value.retried
  }

  function Told(s: System, r: Sessions.Report, nodeAlive: bool): System {
    var plugin := Heard(s.plugin, r, nodeAlive);
    System(plugin, Follow(s.client, plugin, Retries(s.plugin, r)))
  }

  function ToldAll(s: System, reports: seq<Sessions.Report>, nodeAlive: bool): System
    decreases |reports|
  {
    if reports == [] then s else ToldAll(Told(s, reports[0], nodeAlive), reports[1..], nodeAlive)
  }

  function NewReports(before: Sessions.Client, after: Sessions.Client): seq<Sessions.Report> {
    if |before.reports| <= |after.reports| then after.reports[|before.reports|..] else []
  }

  function Step(s: System, a: Action): System {
    match a
    case Outside(step) =>
      if step.SessionStarted? || step.SessionFailed? || step.SessionTimeout? || step.SessionFinished? then s
      else
        var plugin := Plugins.Step(s.plugin, step);
        var client := if step.Parameters? then Reminded(s.client, step.config.timeout) else s.client;
        System(plugin, Follow(client, plugin, step.NewUrl?))
    case Inside(step, nodeAlive) =>
      if s.client.None? || step.SetTimeout? || step.TearDown? then s
      else
        var client := Sessions.Step(s.client.value, step);
        ToldAll(s.(client := Some(client)), NewReports(s.client.value, client), nodeAlive)
  }

  function Run(s: System, acts: seq<Action>): System
    decreases |acts|
  {
    if acts == [] then s else Run(Step(s, acts[0]), acts[1..])
  }

  predicate Sane(a: Action) {
    a.Outside? ==> Plugins.Sane(a.event)
  }

  // ----- the invariant

  predicate PluginGood(p: Plugins.Plugin) {
    Plugins.BackoffGood(p) && Plugins.TimerGood(p)
  }

  predicate ClientGood(c: Sessions.Client, timeout: int) {
    Sessions.WatchGood(c) && c.timeout == timeout
  }

  /** There is a session exactly while the plugin is connected, and it watches with the configured timeout. */
  predicate Linked(s: System) {
    && (s.client.Some? <==> Plugins.Connected(s.plugin))
    && (s.client.Some? ==> ClientGood(s.client.value, s.plugin.config.timeout))
  }

  predicate Good(s: System) {
    PluginGood(s.plugin) && Linked(s)
  }

  lemma PluginStepKeepsGood(p: Plugins.Plugin, a: Plugins.Action)
    requires PluginGood(p) && Plugins.Sane(a)
    ensures PluginGood(Plugins.Step(p, a))
  {
    hide Plugins.Step;
    Plugins.StepKeepsBackoff(p, a);
    Plugins.StepKeepsTimer(p, a);
  }

  lemma TimeoutKeepsGood(c: Sessions.Client, timeout: int)
    requires Sessions.WatchGood(c)
    ensures ClientGood(Sessions.TimeoutChanged(c, timeout), timeout)
  {
    Sessions.StepKeepsWatch(c, Sessions.SetTimeout(timeout));
  }

  lemma FollowIsLinked(client: Option<Sessions.Client>, plugin: Plugins.Plugin, anew: bool)
    requires client.Some? ==> ClientGood(client.value, plugin.config.timeout)
    ensures Linked(System(plugin, Follow(client, plugin, anew)))
  {
    assert Sessions.WatchGood(Sessions.NEW);
    TimeoutKeepsGood(Sessions.NEW, plugin.config.timeout);
  }

  lemma ConfigChanges(p: Plugins.Plugin, a: Plugins.Action)
    ensures Plugins.Step(p, a).config == if a.Parameters? then Plugins.Clamped(a.config) else p.config
    ensures a.Parameters? ==> Plugins.Clamped(a.config).timeout == a.config.timeout
  {
  }

  lemma ToldKeepsGood(s: System, r: Sessions.Report, nodeAlive: bool)
    requires PluginGood(s.plugin) && (s.client.Some? ==> ClientGood(s.client.value, s.plugin.config.timeout))
    ensures Good(Told(s, r, nodeAlive))
  {
    hide Plugins.Step;
    hide Sessions.WatchGood;
    hide PluginGood;
    hide ClientGood;
    hide Linked;
    hide Follow;
    if r.Started? || r.Failed? || r.Timeout? || r.Finished? {
      var a := match r
        case Started => Plugins.SessionStarted
        case Failed(code) => Plugins.SessionFailed(code, nodeAlive)
        case Timeout => Plugins.SessionTimeout(nodeAlive)
        case _ => Plugins.SessionFinished(nodeAlive);
      PluginStepKeepsGood(s.plugin, a);
      ConfigChanges(s.plugin, a);
    }
    FollowIsLinked(s.client, Heard(s.plugin, r, nodeAlive), Retries(s.plugin, r));
  }

  lemma {:induction false} ToldAllKeepsGood(s: System, reports: seq<Sessions.Report>, nodeAlive: bool)
    requires Good(s)
    ensures Good(ToldAll(s, reports, nodeAlive))
    decreases |reports|
  {
    hide Told;
    if reports != [] {
      ToldKeepsGood(s, reports[0], nodeAlive);
      ToldAllKeepsGood(Told(s, reports[0], nodeAlive), reports[1..], nodeAlive);
    }
  }

  lemma {:induction false} SetUpKeepsTimeout(c: Sessions.Client, subs: seq<Sessions.Sub>, i: nat)
    ensures Sessions.SetUpFrom(c, subs, i).timeout == c.timeout
    decreases |subs| - i
  {
    if i < |subs| && !(subs[i].initiates && subs[i].codec != Unknown && !c.hasVideo) {
      SetUpKeepsTimeout(c.(current := Some(i), next := Some(i + 1)), subs, i + 1);
    }
  }

  lemma SessionKeepsTimeout(c: Sessions.Client, a: Sessions.Action)
    requires !a.SetTimeout?
    ensures Sessions.Step(c, a).timeout == c.timeout
  {
    hide Sessions.SetUpFrom;
    match a
    case DescribeReply(code, session) =>
      if session.Some? {
        var c0 := c.(pending := Sessions.Nothing, hasVideo := false, subs := session, next := Some(0));
        SetUpKeepsTimeout(c0, session.value, 0);
      }
    case SetupReply(code, d, e) =>
      if c.subs.Some? && c.next.Some? && c.current.Some? {
        var i := c.current.value;
        var told := if code == 0 then Sessions.Tell(c, Sessions.SubsessionStarted(i)) else c;
        var c1 := if code == 0 && d && e then told.(sinks := told.sinks + {i}, hasVideo := true) else told;
        SetUpKeepsTimeout(c1.(pending := Sessions.Nothing), c.subs.value, c.next.value);
      }
    case _ =>
  }

  lemma StepKeepsGood(s: System, a: Action)
    requires Good(s) && Sane(a)
    ensures Good(Step(s, a))
  {
    hide Plugins.Step;
    hide Sessions.Step;
    hide Sessions.WatchGood;
    hide PluginGood;
    hide Follow;
    hide ToldAll;
    match a
    case Outside(step) =>
      PluginStepKeepsGood(s.plugin, step);
      ConfigChanges(s.plugin, step);
      if step.Parameters? && s.client.Some? {
        TimeoutKeepsGood(s.client.value, step.config.timeout);
      }
      FollowIsLinked(if step.Parameters? then Reminded(s.client, step.config.timeout) else s.client,
                     Plugins.Step(s.plugin, step), step.NewUrl?);
    case Inside(step, nodeAlive) =>
      if s.client.Some? && !step.SetTimeout? && !step.TearDown? {
        var c := s.client.value;
        Sessions.StepKeepsWatch(c, step);
        SessionKeepsTimeout(c, step);
        var t := s.(client := Some(Sessions.Step(c, step)));
        ToldAllKeepsGood(t, NewReports(c, Sessions.Step(c, step)), nodeAlive);
      }
  }

  lemma {:induction false} RunKeepsGood(s: System, acts: seq<Action>)
    requires Good(s) && forall k :: 0 <= k < |acts| ==> Sane(acts[k])
    ensures Good(Run(s, acts))
    decreases |acts|
  {
    hide Good;
    hide Step;
    if acts != [] {
      StepKeepsGood(s, acts[0]);
      RunKeepsGood(Step(s, acts[0]), acts[1..]);
    }
  }

  /** Right after subscribing there is no client. */
  function Subscribed(unset: int, config: Plugins.Config): System {
    System(Plugins.Subscribed(unset, config), None)
  }

  lemma SubscribedIsGood(unset: int, config: Plugins.Config)
    requires config.minwait >= 0
    ensures Good(Subscribed(unset, config))
  {
    Plugins.SubscribedIsGood(unset, config);
  }

  /** In every reachable state: there is a session exactly while the plugin is connected, so a pending reconnection and
      a session never coexist; the session's timeout is the configured one; and the scheduler holds at most one of
      the two timers, the watchdog's and the reconnection's. */
  lemma OneTimerAtMost(unset: int, config: Plugins.Config, acts: seq<Action>)
    requires config.minwait >= 0 && forall k :: 0 <= k < |acts| ==> Sane(acts[k])
    ensures var s := Run(Subscribed(unset, config), acts);
            && (s.client.Some? <==> Plugins.Connected(s.plugin))
            && (s.plugin.timer.Some? ==> s.client.None?)
            && (s.client.Some? ==>
                  && s.client.value.timeout == s.plugin.config.timeout
                  && s.client.value.tasks <= 1
                  && (s.client.value.tasks == 1 ==> s.client.value.active && s.client.value.timeout > 0))
  {
    SubscribedIsGood(unset, config);
    RunKeepsGood(Subscribed(unset, config), acts);
  }

  // ----- silence

  /** `counts[k]` is what the k-th tick of the watchdog finds. */
  function Ticks(s: System, counts: seq<nat>): System
    decreases |counts|
  {
    if counts == [] then s else Ticks(Step(s, Inside(Sessions.Tick(counts[0]), true)), counts[1..])
  }

  lemma {:induction false} NoClientNoTicks(s: System, counts: seq<nat>)
    requires s.client.None?
    ensures Ticks(s, counts) == s
    decreases |counts|
  {
    if counts != [] {
      NoClientNoTicks(s, counts[1..]);
    }
  }

  /** A tick that finds new packets goes unnoticed; one that does not is a timeout for the plugin. */
  lemma OneTick(s: System, count: nat)
    requires s.client.Some? && Sessions.Armed(s.client.value) && Linked(s)
    ensures var c := s.client.value;
            var c1 := Sessions.Step(c, Sessions.Tick(count));
            Step(s, Inside(Sessions.Tick(count), true))
            == if count == c.received then Told(s.(client := Some(c1)), Sessions.Timeout, true)
               else s.(client := Some(c1))
  {
    hide Plugins.Step;
    hide Told;
    var c := s.client.value;
    var c1 := Sessions.Step(c, Sessions.Tick(count));
    var t := s.(client := Some(c1));
    if count == c.received {
      assert NewReports(c, c1) == [Sessions.Timeout];
      assert [Sessions.Timeout][1..] == [];
      assert ToldAll(t, [Sessions.Timeout], true) == ToldAll(Told(t, Sessions.Timeout, true), [], true);
    } else {
      assert NewReports(c, c1) == [];
    }
  }

  /** Under a policy that reconnects on timeouts, the run of ticks disturbs nothing until the watchdog reports, and
      then ends the session and starts the reconnection. */
  lemma {:induction false} TicksEndInReconnection(s: System, counts: seq<nat>)
    requires s.client.Some? && Sessions.Armed(s.client.value) && Linked(s)
    requires s.plugin.config.policy >= Plugins.ON_TIMEOUT
    ensures var v := Sessions.Ticks(s.client.value, counts);
            Ticks(s, counts) == if v.reports == s.client.value.reports then s.(client := Some(v))
                                else System(Plugins.Reconnect(s.plugin, true), None)
    decreases |counts|
  {
    if counts != [] {
      var c := s.client.value;
      var c1 := Sessions.Step(c, Sessions.Tick(counts[0]));
      OneTick(s, counts[0]);
      if counts[0] == c.received {
        TimeoutReconnects(s.(client := Some(c1)));
        NoClientNoTicks(System(Plugins.Reconnect(s.plugin, true), None), counts[1..]);
        assert Sessions.Ticks(c1, counts[1..]) == c1;
      } else {
        TicksEndInReconnection(s.(client := Some(c1)), counts[1..]);
      }
    }
  }

  lemma TimeoutReconnects(s: System)
    requires Plugins.Connected(s.plugin) && s.plugin.config.policy >= Plugins.ON_TIMEOUT
    ensures Told(s, Sessions.Timeout, true) == System(Plugins.Reconnect(s.plugin, true), None)
  {
  }

  /** Silence is answered: in any reachable state with a session under watch and a policy that reconnects on timeouts, a
      stream that falls silent for good at time `p` has its session closed within two timeouts, and one
      reconnection timer is then pending, with the delay the back-off law prescribes; when it goes off, there is a new
      session that awaits its description and watches with the configured timeout. */
  lemma SilenceIsAnswered(unset: int, config: Plugins.Config, acts: seq<Action>, received: nat -> nat,
                          start: nat, p: nat)
      returns (n: nat)
    requires config.minwait >= 0 && forall k :: 0 <= k < |acts| ==> Sane(acts[k])
    requires var s := Run(Subscribed(unset, config), acts);
             s.client.Some? && Sessions.Armed(s.client.value) && s.plugin.config.policy >= Plugins.ON_TIMEOUT
    requires start <= p && forall t: nat :: t >= p ==> received(t) == received(p)
    ensures var s := Run(Subscribed(unset, config), acts);
            && s.plugin.config.timeout > 0
            && start + n * s.plugin.config.timeout <= p + 2 * s.plugin.config.timeout
            && var t := Ticks(s, Sessions.CountsAt(received, start, s.plugin.config.timeout, n));
               var delay := Min(s.plugin.config.minwait * Plugins.Pow2(|s.plugin.delays|), s.plugin.config.maxwait);
               && t.client.None?
               && t.plugin.timer == Some(delay)
               && t.plugin.delays == s.plugin.delays + [delay]
               && var u := Step(t, Outside(Plugins.TimerFires));
                  && u.client.Some? && u.client.value.pending == Sessions.Describing && u.client.value.subs.None?
                  && u.client.value.timeout == s.plugin.config.timeout
                  && u.plugin.timer == None && u.plugin.link.Some? && u.plugin.link.value.connected
  {
    OneTimerAtMost(unset, config, acts);
    SubscribedIsGood(unset, config);
    RunKeepsGood(Subscribed(unset, config), acts);
    var s := Run(Subscribed(unset, config), acts);
    n := Sessions.SilenceIsReported(s.client.value, received, start, p);
    TicksEndInReconnection(s, Sessions.CountsAt(received, start, s.plugin.config.timeout, n));
  }

  /** And a stream with packets in every interval is left alone. */
  lemma SteadyStreamIsLeftAlone(s: System, received: nat -> nat, start: nat, n: nat)
    requires Good(s) && s.client.Some? && Sessions.Armed(s.client.value) && s.plugin.config.policy >= Plugins.ON_TIMEOUT
    requires s.client.value.received <= received(start) && Sessions.Monotone(received)
    requires forall k: nat {:trigger received(start + (k + 1) * s.plugin.config.timeout)} :: k < n ==>
               received(start + k * s.plugin.config.timeout) < received(start + (k + 1) * s.plugin.config.timeout)
    ensures s.plugin.config.timeout > 0
    ensures var t := Ticks(s, Sessions.CountsAt(received, start, s.plugin.config.timeout, n));
            t.plugin == s.plugin && t.client.Some? && Sessions.Armed(t.client.value)
  {
    Sessions.NoFalseAlarm(s.client.value, received, start, n);
    TicksEndInReconnection(s, Sessions.CountsAt(received, start, s.plugin.config.timeout, n));
  }

  // ----- what else is heard

  /** A URL brings a new session that awaits its description, whatever was there before. */
  lemma UrlBringsSession(s: System, alive: bool)
    ensures var t := Step(s, Outside(Plugins.NewUrl(false, alive)));
            && t.client == Some(Sessions.NEW.(timeout := s.plugin.config.timeout))
            && t.plugin.link == Some(Plugins.Link(true, false)) && !t.plugin.failed && t.plugin.timer == None
            && t.plugin.cooldown == s.plugin.config.minwait
  {
  }

  /** New parameters arm the watch of an active session anew, or stop it if the timeout is zero. */
  lemma ParametersRearm(s: System, config: Plugins.Config, alive: bool)
    requires Good(s) && s.client.Some? && s.client.value.active
    ensures var t := Step(s, Outside(Plugins.Parameters(config, false, alive)));
            && t.client.Some? && t.client.value.active && t.client.value.timeout == config.timeout
            && (t.client.value.token <==> config.timeout > 0)
            && t.client.value.tasks == (if config.timeout > 0 then 1 else 0)
  {
  }

  /** The end of the subscription ends the session and the pending reconnection. */
  lemma ShutDownEndsAll(s: System)
    ensures var t := Step(s, Outside(Plugins.ShutDown)); t.client == None && t.plugin.timer == None
  {
  }

  /** A DESCRIBE that fails is answered by a session of its own if the status is 454 and the retry is unused, and
      otherwise, under policy 2 or above, by the end of the session and a reconnection timer. */
  lemma FailedDescribeIsAnswered(s: System, code: int, alive: bool)
    requires s.client.Some? && s.client.value.pending == Sessions.Describing && Plugins.Connected(s.plugin) && code != 0
    ensures var t := Step(s, Inside(Sessions.DescribeReply(code, None), alive));
            var retries := code == 454 && !s.plugin.link.value.retried;
            && (retries ==>
                  && t.client == Some(Sessions.NEW.(timeout := s.plugin.config.timeout))
                  && t.plugin.link == Some(Plugins.Link(true, true)) && t.plugin.timer == s.plugin.timer)
            && (!retries && s.plugin.config.policy >= 2 ==>
                  t.client.None? && t.plugin.link.Some? && !t.plugin.link.value.connected)
            && (!retries && s.plugin.config.policy >= 2 && alive ==> t.plugin.timer == Some(s.plugin.cooldown))
            && (!retries && s.plugin.config.policy < 2 ==> t.client.Some? && t.plugin.timer == s.plugin.timer)
  {
    var c := s.client.value;
    var c1 := c.(pending := Sessions.Nothing, reports := c.reports + [Sessions.Failed(code)]);
    assert Sessions.Step(c, Sessions.DescribeReply(code, None)) == c1;
    LastReport(s.(client := Some(c1)), c, c1, Sessions.Failed(code), alive);
  }

  /** A PLAY that succeeds starts the watch and resets retry, back-off and reconnection timer. */
  lemma StartIsHeard(s: System, alive: bool)
    requires s.client.Some? && s.client.value.pending == Sessions.StartingPlay && Plugins.Connected(s.plugin)
    ensures var t := Step(s, Inside(Sessions.PlayReply(0), alive));
            && t.client.Some? && t.client.value.active
            && (t.client.value.timeout > 0 ==> t.client.value.token && t.client.value.tasks == s.client.value.tasks + 1)
            && t.plugin.link == Some(Plugins.Link(true, false)) && t.plugin.timer == None
            && t.plugin.cooldown == s.plugin.config.minwait && t.plugin.delays == []
  {
    var c := s.client.value;
    var c1 := Sessions.Step(c, Sessions.PlayReply(0));
    assert c1.reports == c.reports + [Sessions.Started];
    LastReport(s.(client := Some(c1)), c, c1, Sessions.Started, alive);
  }

  /** The end of the only stream ends the session; under policy 3 it is followed by a reconnection timer. */
  lemma EndIsHeard(s: System, i: nat, alive: bool)
    requires s.client.Some? && s.client.value.sinks == {i} && Plugins.Connected(s.plugin)
    ensures var t := Step(s, Inside(Sessions.StreamEnded(i), alive));
            && (s.plugin.config.policy >= 3 ==> t.client.None? && t.plugin.link.Some? && !t.plugin.link.value.connected)
            && (s.plugin.config.policy >= 3 && alive ==> t.plugin.timer == Some(s.plugin.cooldown))
            && (s.plugin.config.policy < 3 ==>
                  t.client.Some? && t.client.value.subs.None? && !t.client.value.active && t.plugin == s.plugin)
  {
    var c := s.client.value;
    assert {i} - {i} == {};
    var c1 := Sessions.Step(c, Sessions.StreamEnded(i));
    assert c1.reports == (c.reports + [Sessions.SubsessionFinished(i)]) + [Sessions.Finished];
    var t := s.(client := Some(c1));
    var news := [Sessions.SubsessionFinished(i), Sessions.Finished];
    assert NewReports(c, c1) == news && news[1..] == [Sessions.Finished] && news[1..][1..] == [];
    assert Told(t, Sessions.SubsessionFinished(i), alive) == t;
    assert ToldAll(t, news, alive) == ToldAll(t, news[1..], alive)
           == ToldAll(Told(t, Sessions.Finished, alive), [], alive);
  }

  lemma LastReport(t: System, before: Sessions.Client, after: Sessions.Client, r: Sessions.Report, alive: bool)
    requires after.reports == before.reports + [r]
    ensures ToldAll(t, NewReports(before, after), alive) == Told(t, r, alive)
  {
    hide Told;
    assert NewReports(before, after) == [r] && [r][1..] == [];
    assert ToldAll(t, [r], alive) == ToldAll(Told(t, r, alive), [], alive);
  }

  const PLAYING: seq<Action> := [
    Outside(Plugins.NewUrl(false, true)),
    Inside(Sessions.DescribeReply(0, Some([Sessions.Sub(true, H264, 0, true, true)])), true),
    Inside(Sessions.SetupReply(0, true, true), true),
    Inside(Sessions.PlayReply(0), true)]

  const DESCRIBED: Sessions.Client :=
    Sessions.NEW.(timeout := 2000, pending := Sessions.SettingUp,
                  subs := Some([Sessions.Sub(true, H264, 0, true, true)]),
                  next := Some(1), current := Some(0), commands := [Sessions.Setup(0)])

  const SET_UP: Sessions.Client :=
    DESCRIBED.(pending := Sessions.StartingPlay, next := None, current := None, sinks := {0}, hasVideo := true,
               commands := [Sessions.Setup(0), Sessions.Play],
               reports := [Sessions.SubsessionStarted(0), Sessions.Ready])

  /** Sessions under watch are reached in the ordinary way: a URL and three good replies. */
  lemma WatchIsReachable(unset: int)
    ensures var s := Run(Subscribed(unset, Plugins.DEFAULTS), PLAYING);
            s.client.Some? && Sessions.Armed(s.client.value) && s.plugin.config.policy >= Plugins.ON_TIMEOUT
  {
    assert |PLAYING| == 4;
    hide *;
    var s0 := Subscribed(unset, Plugins.DEFAULTS);
    UrlArrives(unset);
    var s1 := Step(s0, PLAYING[0]);
    DescriptionArrives(s1);
    var s2 := Step(s1, PLAYING[1]);
    SetUpSucceeds(s2);
    var s3 := Step(s2, PLAYING[2]);
    PlayingStarts(s3);
    FourSteps(s0);
  }

  lemma FourSteps(s: System)
    ensures Run(s, PLAYING) == Step(Step(Step(Step(s, PLAYING[0]), PLAYING[1]), PLAYING[2]), PLAYING[3])
  {
    hide Step;
    var s1 := Step(s, PLAYING[0]);
    var s2 := Step(s1, PLAYING[1]);
    var s3 := Step(s2, PLAYING[2]);
    assert PLAYING[1..][1..] == PLAYING[2..] && PLAYING[2..][1..] == PLAYING[3..] && PLAYING[3..][1..] == [];
    assert Run(s, PLAYING) == Run(s1, PLAYING[1..]) == Run(s2, PLAYING[2..]) == Run(s3, PLAYING[3..])
           == Run(Step(s3, PLAYING[3]), []);
  }

  lemma UrlArrives(unset: int)
    ensures var s := Step(Subscribed(unset, Plugins.DEFAULTS), PLAYING[0]);
            && s.client == Some(Sessions.NEW.(timeout := 2000)) && Plugins.Connected(s.plugin)
            && s.plugin.config == Plugins.DEFAULTS && s.plugin.config.policy >= Plugins.ON_TIMEOUT
  {
  }

  lemma DescriptionArrives(s: System)
    requires s.client == Some(Sessions.NEW.(timeout := 2000))
    ensures Step(s, PLAYING[1]) == s.(client := Some(DESCRIBED))
  {
    var c := s.client.value;
    assert Sessions.Step(c, PLAYING[1].step) == DESCRIBED && NewReports(c, DESCRIBED) == [];
  }

  lemma SetUpSucceeds(s: System)
    requires s.client == Some(DESCRIBED) && Plugins.Connected(s.plugin)
    ensures Step(s, PLAYING[2]) == s.(client := Some(SET_UP))
  {
    assert Sessions.Step(DESCRIBED, PLAYING[2].step) == SET_UP;
    TwoReports(s.(client := Some(SET_UP)), DESCRIBED, SET_UP);
  }

  lemma PlayingStarts(s: System)
    requires s.client == Some(SET_UP) && Plugins.Connected(s.plugin)
    ensures var t := Step(s, PLAYING[3]);
            t.client.Some? && Sessions.Armed(t.client.value) && t.plugin.config == s.plugin.config
  {
    hide Plugins.Step;
    var c := Sessions.Step(SET_UP, PLAYING[3].step);
    assert NewReports(SET_UP, c) == [Sessions.Started];
    OneReport(s.(client := Some(c)));
  }

  lemma TwoReports(s: System, before: Sessions.Client, after: Sessions.Client)
    requires before.reports == [] && after.reports == [Sessions.SubsessionStarted(0), Sessions.Ready]
    requires s.client.Some? && Plugins.Connected(s.plugin)
    ensures ToldAll(s, NewReports(before, after), true) == s
  {
    var reports := after.reports;
    assert NewReports(before, after) == reports && reports[1..] == [Sessions.Ready] && [Sessions.Ready][1..] == [];
    assert Told(s, Sessions.SubsessionStarted(0), true) == s && Told(s, Sessions.Ready, true) == s;
    assert ToldAll(s, reports, true) == ToldAll(s, [Sessions.Ready], true) == ToldAll(s, [], true);
  }

  lemma OneReport(s: System)
    requires s.client.Some? && Plugins.Connected(s.plugin)
    ensures var t := ToldAll(s, [Sessions.Started], true);
            t.client == s.client && t.plugin.config == s.plugin.config && Plugins.Connected(t.plugin)
  {
    assert [Sessions.Started][1..] == [];
    assert ToldAll(s, [Sessions.Started], true) == ToldAll(Told(s, Sessions.Started, true), [], true);
  }
}
