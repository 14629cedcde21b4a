/** The subscriber: one client at a time, reconnected after a growing delay, and the retry of a session that
    the server does not find (status 454, section 11.3.5 of RFC 2326). */
module SubscriberPlugin {
  import opened Frames
  import opened FrameLag

  const ON_TIMEOUT: int := 1
  const ON_FAILURE: int := 2
  const ALWAYS: int := 3

  /** Durations are in milliseconds. */
  datatype Config = Config(useHwDecoder: bool, policy: int, timeout: int, minwait: int, maxwait: int)

  const DEFAULTS: Config := Config(true, ON_TIMEOUT, 2000, 100, 30000)

  /** The stream client: whether it has a connection, and whether it has used up its retry. */
  datatype Link = Link(connected: bool, retried: bool)

  datatype Event =
    | Began                    // a new client, or a session that started playing
    | Swallowed                // a failure answered by the retry
    | Forwarded(code: int)     // a failure passed to the plugin
    | AlreadyConnected         // connect() refused

  /** `timer` is the pending reconnection timer's delay; `delays` are the delays chosen since the last session
      start, new URL or parameter update. */
  datatype Plugin = Plugin(config: Config, cooldown: int, timer: Option<int>, link: Option<Link>, failed: bool,
                           delays: seq<int>, events: seq<Event>)

  datatype Action =
    | NewUrl(connectFails: bool, nodeAlive: bool)
    | Parameters(config: Config, decoderFails: bool, nodeAlive: bool)
    | SessionStarted
    | SessionFailed(code: int, nodeAlive: bool)
    | SessionTimeout(nodeAlive: bool)
    | SessionFinished(nodeAlive: bool)
    | FrameError(nodeAlive: bool)
    | TimerFires
    | ShutDown

  function Connect(s: Plugin): Plugin {
    if s.link.None? then s
    else if s.link.value.connected then s.(events := s.events + [AlreadyConnected])
    else s.(link := Some(s.link.value.(connected := true)))
  }

  function Disconnect(s: Plugin): Plugin {
    if s.link.None? then s else s.(link := Some(s.link.value.(connected := false)))
  }

  function Reconnect(s: Plugin, nodeAlive: bool): Plugin {
    var s := Disconnect(s);
    if !nodeAlive then s
    else
      var doubled := 2 * s.cooldown;
      s.(timer := Some(s.cooldown), delays := s.delays + [s.cooldown],
         cooldown := if doubled > s.config.maxwait then s.config.maxwait else doubled)
  }

  function ReconnectIf(s: Plugin, policy: int, nodeAlive: bool): Plugin {
    if s.config.policy >= policy then Reconnect(s, nodeAlive) else s
  }

  function Restarted(s: Plugin): Plugin {
    s.(cooldown := s.config.minwait, delays := [])
  }

  /** A new URL: a fresh client, not connected yet. */
  function Renewed(s: Plugin): Plugin {
    Restarted(s).(failed := false, timer := None, link := Some(Link(false, false)), events := s.events + [Began])
  }

  function Connected(s: Plugin): bool {
    s.link.Some? && s.link.value.connected
  }

  function Failure(s: Plugin, code: int, nodeAlive: bool): Plugin
    requires s.link.Some?
  {
    if code == 454 && !s.link.value.retried then
      Connect(Disconnect(s.(link := Some(s.link.value.(retried := true)), events := s.events + [Swallowed])))
    else ReconnectIf(s.(events := s.events + [Forwarded(code)]), ON_FAILURE, nodeAlive)
  }

  function Clamped(config: Config): Config {
    if config.maxwait < config.minwait then config.(maxwait := config.minwait) else config
  }

  function Configured(s: Plugin, config: Config, decoderFails: bool, nodeAlive: bool): Plugin {
    var rebuilds := config.useHwDecoder != s.config.useHwDecoder;
    var clamped := Clamped(config);
    var s := Restarted(s.(config := clamped));
    if s.link.Some? && rebuilds && decoderFails
    then ReconnectIf(s.(failed := true), ON_FAILURE, nodeAlive)
    else s
  }

  /** One callback; the library only calls back for a client that has a connection. */
  function Step(s: Plugin, a: Action): Plugin {
    match a
    case NewUrl(connectFails, alive) =>
      var s := Renewed(s);
      if connectFails then ReconnectIf(s.(failed := true), ON_FAILURE, alive) else Connect(s)
    case Parameters(config, decoderFails, alive) => Configured(s, config, decoderFails, alive)
    case SessionStarted =>
      if Connected(s)
      then Restarted(s).(timer := None, link := Some(s.link.value.(retried := false)), events := s.events + [Began])
      else s
    case SessionFailed(code, alive) => if Connected(s) then Failure(s, code, alive) else s
    case SessionTimeout(alive) => if Connected(s) then ReconnectIf(s, ON_TIMEOUT, alive) else s
    case SessionFinished(alive) => if Connected(s) then ReconnectIf(s, ALWAYS, alive) else s
    case FrameError(alive) =>
      if s.link.Some? && !s.failed then ReconnectIf(s.(failed := true), ON_FAILURE, alive) else s
    case TimerFires => if s.timer.Some? then Connect(s.(timer := None)) else s
    case ShutDown => Disconnect(s.(timer := None))
  }

  function Run(s: Plugin, acts: seq<Action>): Plugin
    decreases |acts|
  {
    if acts == [] then s else Run(Step(s, acts[0]), acts[1..])
  }

  /** The waiting times offered as parameters are never negative. */
  predicate Sane(a: Action) {
    a.Parameters? ==> a.config.minwait >= 0
  }

  // ----- backoff

  function Pow2(k: nat): (r: nat)
    ensures r >= 1
  {
    if k == 0 then 1 else 2 * Pow2(k - 1)
  }

  /** The k-th delay the configuration prescribes. */
  function Backoff(config: Config, k: nat): int {
    Min(config.minwait * Pow2(k), config.maxwait)
  }

  lemma BackoffDoubles(config: Config, k: nat)
    requires 0 <= config.minwait <= config.maxwait
    ensures Backoff(config, k + 1) == Min(2 * Backoff(config, k), config.maxwait)
    ensures config.minwait <= Backoff(config, k) <= config.maxwait
    ensures Backoff(config, 0) == config.minwait
  {
    assert Pow2(k + 1) == 2 * Pow2(k) && Pow2(k) >= 1;
    assert config.minwait * Pow2(k + 1) == 2 * (config.minwait * Pow2(k));
    assert config.minwait * Pow2(k) >= config.minwait;
  }

  predicate BackoffGood(s: Plugin) {
    && 0 <= s.config.minwait <= s.config.maxwait
    && s.cooldown == Backoff(s.config, |s.delays|)
    && (forall k :: 0 <= k < |s.delays| ==> s.delays[k] == Backoff(s.config, k))
  }

  // ----- single flight and the one-shot retry

  predicate TimerGood(s: Plugin) {
    && (s.timer.Some? ==> s.link.Some? && !s.link.value.connected)
    && AlreadyConnected !in s.events
  }

  /** A retry that no later start or new client has made up for. */
  ghost predicate RetrySpent(events: seq<Event>) {
    exists i :: 0 <= i < |events| && events[i] == Swallowed && forall k :: i < k < |events| ==> events[k] != Began
  }

  ghost predicate OneShot(events: seq<Event>) {
    forall i, j :: 0 <= i < j < |events| && events[i] == Swallowed && events[j] == Swallowed
      ==> exists k :: i < k < j && events[k] == Began
  }

  ghost predicate RetryGood(s: Plugin) {
    && OneShot(s.events)
    && (RetrySpent(s.events) <==> s.link.Some? && s.link.value.retried)
  }

  lemma EventAppend(events: seq<Event>, e: Event)
    requires OneShot(events) && (e == Swallowed ==> !RetrySpent(events))
    ensures OneShot(events + [e])
    ensures e == Began ==> !RetrySpent(events + [e])
    ensures e == Swallowed ==> RetrySpent(events + [e])
    ensures e != Began && e != Swallowed ==> (RetrySpent(events + [e]) <==> RetrySpent(events))
  {
    hide RetrySpent;
    OneShotAppend(events, e);
    SpentAppend(events, e);
  }

  lemma OneShotAppend(events: seq<Event>, e: Event)
    requires OneShot(events) && (e == Swallowed ==> !RetrySpent(events))
    ensures OneShot(events + [e])
  {
    var more := events + [e];
    forall i, j | 0 <= i < j < |more| && more[i] == Swallowed && more[j] == Swallowed
      ensures exists k :: i < k < j && more[k] == Began
    {
      assert events[i] == Swallowed;
      if j < |events| {
        assert events[j] == Swallowed;
        var k :| i < k < j && events[k] == Began;
        assert more[k] == Began;
      } else {
        var k :| i < k < |events| && events[k] == Began;
        assert more[k] == Began;
      }
    }
  }

  lemma SpentAppend(events: seq<Event>, e: Event)
    ensures e == Began ==> !RetrySpent(events + [e])
    ensures e == Swallowed ==> RetrySpent(events + [e])
    ensures e != Began && e != Swallowed ==> (RetrySpent(events + [e]) <==> RetrySpent(events))
  {
    var more := events + [e];
    if e != Began && e != Swallowed {
      if RetrySpent(events) {
        var i :| 0 <= i < |events| && events[i] == Swallowed && forall k :: i < k < |events| ==> events[k] != Began;
        assert more[i] == Swallowed && forall k :: i < k < |more| ==> more[k] != Began;
      }
      if RetrySpent(more) {
        var i :| 0 <= i < |more| && more[i] == Swallowed && forall k :: i < k < |more| ==> more[k] != Began;
        assert events[i] == Swallowed && forall k :: i < k < |events| ==> more[k] == events[k];
      }
    }
    if e == Swallowed {
      assert more[|events|] == Swallowed;
    }
    if e == Began {
      forall i | 0 <= i < |more| && more[i] == Swallowed ensures exists k :: i < k < |more| && more[k] == Began {
        assert more[|events|] == Began;
      }
    }
  }

  lemma ReconnectKeepsBackoff(s: Plugin, nodeAlive: bool)
    requires BackoffGood(s)
    ensures BackoffGood(Reconnect(s, nodeAlive))
  {
    BackoffDoubles(s.config, |s.delays|);
  }

  lemma RestartKeepsBackoff(s: Plugin)
    requires 0 <= s.config.minwait <= s.config.maxwait
    ensures BackoffGood(Restarted(s))
  {
    BackoffDoubles(s.config, 0);
  }

  lemma StepKeepsBackoff(s: Plugin, a: Action)
    requires BackoffGood(s) && Sane(a)
    ensures BackoffGood(Step(s, a))
  {
    hide BackoffGood;
    BackoffBounds(s);
    BackoffFrame(s);
    match a
    case NewUrl(connectFails, alive) =>
      var t := Renewed(s);
      RestartKeepsBackoff(s);
      BackoffFrame(Restarted(s));
      ReconnectKeepsBackoff(t.(failed := true), alive);
      BackoffFrame(t);
    case Parameters(config, decoderFails, alive) =>
      var clamped := Clamped(config);
      var t := Restarted(s.(config := clamped));
      RestartKeepsBackoff(s.(config := clamped));
      BackoffFrame(t);
      ReconnectKeepsBackoff(t.(failed := true), alive);
    case SessionStarted =>
      RestartKeepsBackoff(s);
      BackoffFrame(Restarted(s));
    case SessionFailed(code, alive) =>
      ReconnectKeepsBackoff(s.(events := s.events + [Forwarded(code)]), alive);
    case SessionTimeout(alive) => ReconnectKeepsBackoff(s, alive);
    case SessionFinished(alive) => ReconnectKeepsBackoff(s, alive);
    case FrameError(alive) => ReconnectKeepsBackoff(s.(failed := true), alive);
    case _ =>
  }

  lemma BackoffBounds(s: Plugin)
    requires BackoffGood(s)
    ensures 0 <= s.config.minwait <= s.config.maxwait
  {
  }

  /** Backoff looks at nothing but the configuration, the delay and the history of delays. */
  lemma BackoffFrame(s: Plugin)
    requires BackoffGood(s)
    ensures forall t: Plugin {:trigger BackoffGood(t)} ::
              t.config == s.config && t.cooldown == s.cooldown && t.delays == s.delays ==> BackoffGood(t)
  {
  }

  lemma StepKeepsTimer(s: Plugin, a: Action)
    requires TimerGood(s)
    ensures TimerGood(Step(s, a))
  {
  }

  lemma StepKeepsRetry(s: Plugin, a: Action)
    requires RetryGood(s) && TimerGood(s)
    ensures RetryGood(Step(s, a))
  {
    hide RetrySpent;
    hide OneShot;
    hide TimerGood;
    var t := Step(s, a);
    if t.events != s.events {
      var e := t.events[|s.events|];
      assert t.events == s.events + [e];
      EventAppend(s.events, e);
    }
  }

  /** The state right after subscribing: the constructor leaves the delay unset (`unset`) and the first
      parameter update sets it. */
  function Subscribed(unset: int, config: Config): Plugin {
    Configured(Plugin(DEFAULTS, unset, None, None, false, [], []), config, false, true)
  }

  lemma {:induction false} RunKeepsAll(s: Plugin, acts: seq<Action>)
    requires BackoffGood(s) && TimerGood(s) && RetryGood(s) && forall k :: 0 <= k < |acts| ==> Sane(acts[k])
    ensures BackoffGood(Run(s, acts)) && TimerGood(Run(s, acts)) && RetryGood(Run(s, acts))
    decreases |acts|
  {
    hide BackoffGood;
    hide TimerGood;
    hide RetryGood;
    hide Step;
    if acts != [] {
      StepKeepsBackoff(s, acts[0]);
      StepKeepsTimer(s, acts[0]);
      StepKeepsRetry(s, acts[0]);
      RunKeepsAll(Step(s, acts[0]), acts[1..]);
    }
  }

  lemma SubscribedIsGood(unset: int, config: Config)
    requires config.minwait >= 0
    ensures BackoffGood(Subscribed(unset, config))
    ensures TimerGood(Subscribed(unset, config)) && RetryGood(Subscribed(unset, config))
  {
    RestartKeepsBackoff(Subscribed(unset, config));
  }

  /** Single flight: in every reachable state a pending timer means that the client is disconnected, and no
      connect() has ever been refused. */
  lemma SingleFlight(unset: int, config: Config, acts: seq<Action>)
    requires config.minwait >= 0 && forall k :: 0 <= k < |acts| ==> Sane(acts[k])
    ensures var s := Run(Subscribed(unset, config), acts);
            && (s.timer.Some? ==> s.link.Some? && !s.link.value.connected)
            && AlreadyConnected !in s.events
  {
    SubscribedIsGood(unset, config);
    RunKeepsAll(Subscribed(unset, config), acts);
  }

  /** A pending reconnection is carried out: in every reachable state the timer connects the client again, with the
      retry, the delays and the back-off as they were. */
  lemma TimerReconnects(unset: int, config: Config, acts: seq<Action>)
    requires config.minwait >= 0 && forall k :: 0 <= k < |acts| ==> Sane(acts[k])
    ensures var s := Run(Subscribed(unset, config), acts); var t := Step(s, TimerFires);
            s.timer.Some? ==>
              && s.link.Some? && t.link == Some(Link(true, s.link.value.retried)) && t.timer == None
              && t.events == s.events && t.delays == s.delays && t.cooldown == s.cooldown
  {
    SubscribedIsGood(unset, config);
    RunKeepsAll(Subscribed(unset, config), acts);
  }

  /** Backoff law: in every reachable state the k-th delay since the last session start, new URL or parameter
      update is min(minwait * 2^k, maxwait), and so is the delay to come. */
  lemma BackoffLaw(unset: int, config: Config, acts: seq<Action>)
    requires config.minwait >= 0 && forall k :: 0 <= k < |acts| ==> Sane(acts[k])
    ensures var s := Run(Subscribed(unset, config), acts);
            && (forall k :: 0 <= k < |s.delays| ==> s.delays[k] == Min(s.config.minwait * Pow2(k), s.config.maxwait))
            && s.cooldown == Min(s.config.minwait * Pow2(|s.delays|), s.config.maxwait)
            && 0 <= s.config.minwait <= s.cooldown <= s.config.maxwait
  {
    SubscribedIsGood(unset, config);
    RunKeepsAll(Subscribed(unset, config), acts);
    var s := Run(Subscribed(unset, config), acts);
    BackoffDoubles(s.config, |s.delays|);
  }

  /** Between two swallowed failures there is always a session start or a new URL. */
  lemma RetryIsOneShot(unset: int, config: Config, acts: seq<Action>)
    requires config.minwait >= 0 && forall k :: 0 <= k < |acts| ==> Sane(acts[k])
    ensures OneShot(Run(Subscribed(unset, config), acts).events)
  {
    SubscribedIsGood(unset, config);
    RunKeepsAll(Subscribed(unset, config), acts);
  }

  /** After any run, a failure is swallowed if and only if it is a 454 and no failure has been swallowed since the
      last session start or new URL; the client is then connected again at once. Every other failure is
      forwarded, and under the policy for failures it is answered by a timer with the delay the back-off law
      prescribes. */
  lemma FailureIsSwallowedIff(unset: int, config: Config, acts: seq<Action>, code: int, alive: bool)
    requires config.minwait >= 0 && forall k :: 0 <= k < |acts| ==> Sane(acts[k])
    ensures var s := Run(Subscribed(unset, config), acts); var t := Step(s, SessionFailed(code, alive));
            Connected(s) ==>
              && (t.events == s.events + [Swallowed] <==> code == 454 && !RetrySpent(s.events))
              && (t.events == s.events + [Forwarded(code)] <==> !(code == 454 && !RetrySpent(s.events)))
              && (code == 454 && !RetrySpent(s.events) ==> Connected(t) && t.timer == None)
              && (!(code == 454 && !RetrySpent(s.events)) && s.config.policy >= ON_FAILURE && alive ==>
                    !Connected(t)
                    && t.timer == Some(Min(s.config.minwait * Pow2(|s.delays|), s.config.maxwait)))
  {
    SubscribedIsGood(unset, config);
    RunKeepsAll(Subscribed(unset, config), acts);
    BackoffLaw(unset, config, acts);
    var s := Run(Subscribed(unset, config), acts);
    assert (s.events + [Swallowed])[|s.events|] == Swallowed;
    assert (s.events + [Forwarded(code)])[|s.events|] == Forwarded(code);
  }

  // ----- the plugin itself

  class SubscriberPlugin {
    var config: Config
    var cooldown: int
    var cooldownTimer: Option<int>
    var link: Option<Link>
    var failed: bool
    var oldLag: int
    var level: DecodeFrames
    var hasDecoder: bool
    var queue: seq<FrameData>
    var warnings: seq<int>
    ghost var delays: seq<int>
    ghost var events: seq<Event>
    ghost var signs: seq<Sign>

    /** What the lag laws speak of. */
    ghost function Watching(): Watch
      reads this
    {
      Watch(queue, oldLag, level, signs)
    }

    /** The signs the lag laws speak of show exactly the warnings that were logged. */
    ghost predicate Valid()
      reads this`signs, this`warnings
    {
      Thresholds(signs) == warnings
    }

    ghost function State(): Plugin
      reads this
    {
      Plugin(config, cooldown, cooldownTimer, link, failed, delays, events)
    }

    constructor ()
      ensures Valid() && State() == Plugin(DEFAULTS, cooldown, None, None, false, [], [])
      ensures config == Config(true, 1, 2000, 100, 30000)
      ensures link == None && cooldownTimer == None && !failed && oldLag == 0 && queue == []
      ensures Watching() == Watch([], 0, All, []) && warnings == [] && !hasDecoder
    {
      config, cooldownTimer, link, failed := DEFAULTS, None, None, false;
      oldLag, level, hasDecoder, queue, warnings := 0, All, false, [], [];
      delays, events, signs := [], [], [];
    }

    method ConnectClient()
      requires Valid()
      requires link.Some?
      modifies this`link, this`events
      ensures Valid()
      ensures State() == Connect(old(State()))
      ensures link.Some? && link.value.connected && link.value.retried == old(link).value.retried
      ensures events == old(events) + (if old(link).value.connected then [AlreadyConnected] else [])
    {
      if link.value.connected {
        events := events + [AlreadyConnected];
        return;
      }
      link := Some(link.value.(connected := true));
    }

    method DisconnectClient()
      requires Valid()
      modifies this`link
      ensures Valid()
      ensures State() == Disconnect(old(State()))
      ensures link.Some? == old(link).Some?
      ensures link.Some? ==> !link.value.connected && link.value.retried == old(link).value.retried
    {
      if link.Some? {
        link := Some(link.value.(connected := false));
      }
    }

    method StartReconnect(nodeAlive: bool)
      requires Valid()
      requires link.Some?
      modifies this`link, this`queue, this`cooldownTimer, this`cooldown, this`delays
      ensures Valid()
      ensures State() == Reconnect(old(State()), nodeAlive) && queue == []
      ensures link.Some? && !link.value.connected && link.value.retried == old(link).value.retried
      ensures !nodeAlive ==> cooldownTimer == old(cooldownTimer) && cooldown == old(cooldown) && delays == old(delays)
      ensures nodeAlive ==>
                && cooldownTimer == Some(old(cooldown)) && delays == old(delays) + [old(cooldown)]
                && cooldown == (if 2 * old(cooldown) > config.maxwait then config.maxwait else 2 * old(cooldown))
    {
      DisconnectClient();
      queue := [];
      if nodeAlive {
        cooldownTimer := Some(cooldown);
        delays := delays + [cooldown];
        cooldown := cooldown * 2;
        if cooldown > config.maxwait {
          cooldown := config.maxwait;
        }
      }
    }

    /** What every callback does with an exception of its own. */
    method Fail(nodeAlive: bool)
      requires Valid()
      requires link.Some?
      modifies this`failed, this`link, this`queue, this`cooldownTimer, this`cooldown, this`delays
      ensures Valid()
      ensures State() == ReconnectIf(old(State()).(failed := true), ON_FAILURE, nodeAlive) && queue == []
      ensures failed && link.Some?
      ensures config.policy < 2 ==>
                link == old(link) && cooldownTimer == old(cooldownTimer) && cooldown == old(cooldown)
      ensures config.policy >= 2 ==> !link.value.connected
      ensures config.policy >= 2 && nodeAlive ==>
                cooldownTimer == Some(old(cooldown)) && delays == old(delays) + [old(cooldown)]
    {
      failed := true;
      queue := [];
      if config.policy >= ON_FAILURE {
        StartReconnect(nodeAlive);
      }
    }

    method Renew()
      requires Valid()
      modifies this`failed, this`oldLag, this`signs, this`cooldown, this`delays, this`cooldownTimer, this`link,
          this`events
      ensures Valid()
      ensures State() == Renewed(old(State())) && Watching() == LagStep(old(Watching()), Restart)
      ensures !failed && oldLag == 0 && cooldown == config.minwait && delays == [] && cooldownTimer == None
      ensures link == Some(Link(false, false)) && events == old(events) + [Began]
    {
      failed := false;
      RestartWatch();
      cooldown, delays := config.minwait, [];
      cooldownTimer := None;
      link := Some(Link(false, false));
      events := events + [Began];
    }

    method RestartWatch()
      requires Valid()
      modifies this`oldLag, this`signs
      ensures Valid() && Watching() == LagStep(old(Watching()), Restart)
      ensures oldLag == 0 && signs == old(signs) + [Reset]
    {
      hide Thresholds;
      RestartAndClear(Watching());
      hide LagStep;
      ResetShowsNothing(signs);
      oldLag, signs := 0, signs + [Reset];
    }

    /** Taking over new parameters, the longest wait raised to the shortest if need be. */
    method TakeOver(newConfig: Config)
      modifies this`config, this`cooldown, this`delays
      ensures State() == Restarted(old(State()).(config := Clamped(newConfig)))
      ensures config == newConfig.(maxwait := if newConfig.maxwait < newConfig.minwait then newConfig.minwait
                                              else newConfig.maxwait)
      ensures cooldown == newConfig.minwait && delays == []
    {
      config := newConfig;
      cooldown, delays := config.minwait, [];
      if config.maxwait < config.minwait {
        config := config.(maxwait := config.minwait);
      }
    }

    method InternalCallback(connectFails: bool, nodeAlive: bool)
      requires Valid()
      modifies this
      ensures Valid()
      ensures State() == Step(old(State()), NewUrl(connectFails, nodeAlive))
      ensures warnings == old(warnings) && hasDecoder == old(hasDecoder)
      ensures Watching() == var w := LagStep(old(Watching()), Restart); if connectFails then LagStep(w, Clear) else w
      ensures config == old(config)
      ensures !connectFails ==>
                && !failed && link == Some(Link(true, false)) && cooldownTimer == None
                && cooldown == config.minwait && queue == old(queue)
      ensures connectFails ==> failed && link.Some? && !link.value.connected && queue == []
      ensures connectFails && config.policy >= 2 && nodeAlive ==> cooldownTimer == Some(config.minwait)
      ensures connectFails && config.policy < 2 ==> cooldownTimer == None && cooldown == config.minwait
    {
      hide Drained;
      Renew();
      if connectFails {
        Fail(nodeAlive);
      } else {
        ConnectClient();
      }
    }

    method UpdateParameters(newConfig: Config, decoderFails: bool, nodeAlive: bool)
      requires Valid()
      modifies this
      ensures Valid()
      ensures State() == Step(old(State()), Parameters(newConfig, decoderFails, nodeAlive))
      ensures warnings == old(warnings)
      ensures var rebuilds := old(link).Some? && newConfig.useHwDecoder != old(config).useHwDecoder;
              && hasDecoder == (old(hasDecoder) || (rebuilds && !decoderFails))
              && Watching() == if rebuilds && decoderFails then LagStep(old(Watching()), Clear) else old(Watching())
      ensures config == newConfig.(maxwait := if newConfig.maxwait < newConfig.minwait then newConfig.minwait
                                              else newConfig.maxwait)
      ensures var breaks := old(link).Some? && newConfig.useHwDecoder != old(config).useHwDecoder && decoderFails;
              && (!breaks ==>
                    && failed == old(failed) && link == old(link) && cooldownTimer == old(cooldownTimer)
                    && cooldown == newConfig.minwait && delays == [] && queue == old(queue))
              && (breaks ==> failed && queue == [])
              && (breaks && config.policy >= 2 ==> link.Some? && !link.value.connected)
              && (breaks && config.policy >= 2 && nodeAlive ==> cooldownTimer == Some(newConfig.minwait))
    {
      hide LagStep;
      hide Thresholds;
      RestartAndClear(Watching());
      var rebuild := newConfig.useHwDecoder != config.useHwDecoder;
      TakeOver(newConfig);
      if link.Some? && rebuild {
        if decoderFails {
          Fail(nodeAlive);
        } else {
          hasDecoder := true;
        }
      }
    }

    method OnSessionStarted()
      requires Valid()
      requires Connected(State())
      modifies this`link, this`events, this`cooldown, this`delays, this`cooldownTimer
      ensures Valid()
      ensures State() == Step(old(State()), SessionStarted)
      ensures link == Some(Link(true, false)) && cooldown == config.minwait && delays == [] && cooldownTimer == None
    {
      link := Some(link.value.(retried := false));
      events := events + [Began];
      cooldown := config.minwait;
      delays := [];
      cooldownTimer := None;
    }

    /** A decoder that cannot be built throws after the lag has been reset. */
    method OnSubsessionStarted(decoderOk: bool)
      requires Valid()
      requires link.Some?
      modifies this`oldLag, this`hasDecoder, this`signs
      ensures Valid()
      ensures Watching() == LagStep(old(Watching()), Restart)
      ensures hasDecoder == (old(hasDecoder) || decoderOk)
      ensures oldLag == 0
    {
      RestartWatch();
      if decoderOk {
        hasDecoder := true;
      }
    }

    method OnSessionFailed(code: int, nodeAlive: bool)
      requires Valid()
      requires Connected(State())
      modifies this`link, this`queue, this`cooldownTimer, this`cooldown, this`delays, this`events
      ensures Valid()
      ensures State() == Step(old(State()), SessionFailed(code, nodeAlive))
      ensures var reconnects := config.policy >= ON_FAILURE && !(code == 454 && !old(link).value.retried);
              Watching() == if reconnects then LagStep(old(Watching()), Clear) else old(Watching())
      ensures code == 454 && !old(link).value.retried ==>
                && link == Some(Link(true, true)) && cooldownTimer == old(cooldownTimer) && queue == old(queue)
                && events == old(events) + [Swallowed]
      ensures !(code == 454 && !old(link).value.retried) ==> events == old(events) + [Forwarded(code)]
      ensures !(code == 454 && !old(link).value.retried) && config.policy >= 2 ==>
                && link.Some? && !link.value.connected && queue == []
                && (nodeAlive ==> cooldownTimer == Some(old(cooldown)))
      ensures !(code == 454 && !old(link).value.retried) && config.policy < 2 ==>
                link == old(link) && cooldownTimer == old(cooldownTimer) && queue == old(queue)
    {
      if code == 454 && !link.value.retried {
        link := Some(link.value.(retried := true));
        events := events + [Swallowed];
        DisconnectClient();
        ConnectClient();
        return;
      }
      events := events + [Forwarded(code)];
      if config.policy >= ON_FAILURE {
        StartReconnect(nodeAlive);
      }
    }

    method OnSessionTimeout(nodeAlive: bool)
      requires Valid()
      requires Connected(State())
      modifies this`link, this`queue, this`cooldownTimer, this`cooldown, this`delays
      ensures Valid()
      ensures State() == Step(old(State()), SessionTimeout(nodeAlive))
      ensures Watching() == if config.policy >= ON_TIMEOUT then LagStep(old(Watching()), Clear) else old(Watching())
      ensures config.policy >= 1 ==>
                && link.Some? && !link.value.connected && queue == []
                && (nodeAlive ==> cooldownTimer == Some(old(cooldown)) && delays == old(delays) + [old(cooldown)])
      ensures config.policy < 1 ==> link == old(link) && cooldownTimer == old(cooldownTimer) && queue == old(queue)
    {
      if config.policy >= ON_TIMEOUT {
        StartReconnect(nodeAlive);
      }
    }

    method OnSessionFinished(nodeAlive: bool)
      requires Valid()
      requires Connected(State())
      modifies this`link, this`queue, this`cooldownTimer, this`cooldown, this`delays
      ensures Valid()
      ensures State() == Step(old(State()), SessionFinished(nodeAlive))
      ensures Watching() == if config.policy >= ALWAYS then LagStep(old(Watching()), Clear) else old(Watching())
      ensures config.policy >= 3 ==>
                && link.Some? && !link.value.connected && queue == []
                && (nodeAlive ==> cooldownTimer == Some(old(cooldown)) && delays == old(delays) + [old(cooldown)])
      ensures config.policy < 3 ==> link == old(link) && cooldownTimer == old(cooldownTimer) && queue == old(queue)
    {
      if config.policy >= ALWAYS {
        StartReconnect(nodeAlive);
      }
    }

    method CooldownTimerCallback()
      requires Valid()
      requires cooldownTimer.Some? && link.Some?
      modifies this`cooldownTimer, this`queue, this`link, this`events
      ensures Valid()
      ensures State() == Step(old(State()), TimerFires) && Watching() == LagStep(old(Watching()), Clear)
      ensures cooldownTimer == None && queue == []
      ensures link.Some? && link.value.connected && link.value.retried == old(link).value.retried
    {
      cooldownTimer := None;
      queue := [];
      ConnectClient();
    }

    method Stop()
      requires Valid()
      modifies this`cooldownTimer, this`link, this`hasDecoder, this`queue
      ensures Valid()
      ensures State() == Step(old(State()), ShutDown) && !hasDecoder && Watching() == LagStep(old(Watching()), Clear)
      ensures cooldownTimer == None && queue == [] && (link.Some? ==> !link.value.connected)
    {
      cooldownTimer := None;
      DisconnectClient();
      hasDecoder := false;
      queue := [];
    }

    method PushFrame(frame: FrameData)
      requires Valid()
      modifies this`queue
      ensures Valid()
      ensures Watching() == LagStep(old(Watching()), Push(frame))
      ensures queue == old(queue) + [frame]
    {
      queue := queue + [frame];
    }

    /** The part of the drain loop that looks at the lag. */
    method AdjustLevel(lag: int)
      modifies this`oldLag, this`warnings, this`level
      ensures var r := React(old(oldLag), old(level), lag);
              oldLag == r.oldLag && level == r.level && warnings == old(warnings) + r.warnings
      ensures level == (if lag >= 500_000_000 then Intra else All)
      ensures var missed := if lag >= 2_000_000_000 then 2_000_000_000
                            else if lag >= 1_000_000_000 then 1_000_000_000 else 500_000_000;
              && (lag >= 500_000_000 && old(oldLag) < missed ==> warnings == old(warnings) + [missed] && oldLag == lag)
              && (lag >= 500_000_000 && old(oldLag) >= missed ==> warnings == old(warnings) && oldLag == old(oldLag))
              && (lag < 500_000_000 ==> warnings == old(warnings) && oldLag == (if lag == 0 then 0 else old(oldLag)))
    {
      if lag >= TWO {
        if oldLag < TWO {
          warnings := warnings + [TWO];
          oldLag := lag;
        }
        level := NoFrames;
      } else if lag >= ONE {
        if oldLag < ONE {
          warnings := warnings + [ONE];
          oldLag := lag;
        }
        level := Key;
      }
      if lag >= HALF {
        if oldLag < HALF {
          warnings := warnings + [HALF];
          oldLag := lag;
        }
        level := Intra;
      } else {
        level := All;
        if lag == 0 {
          oldLag := 0;
        }
      }
    }

    /** The drain loop; `outcomes` are the decoder's answers, frame by frame. */
    method DrainQueue(outcomes: seq<DecodeOutcome>) returns (fed: seq<FrameData>, last: DecodeOutcome)
      requires Valid()
      modifies this`queue, this`oldLag, this`level, this`warnings, this`signs
      ensures Valid()
      ensures Watching() == LagStep(old(Watching()), DrainAll(outcomes))
      ensures var d := Drained(old(queue), old(oldLag), old(level), outcomes, 0);
              fed == d.fed && last == d.last && warnings == old(warnings) + d.reaction.warnings
    {
      hide React;
      fed, last := [], Decoded;
      var k := 0;
      ghost var goal := Drained(queue, oldLag, level, outcomes, 0);
      ghost var shown := signs + Signs(oldLag, level, Lags(queue, |goal.fed|));
      DrainReactsToLags(queue, oldLag, level, outcomes, 0);
      SignsShowWarnings(oldLag, level, Lags(queue, |goal.fed|));
      ThresholdsAppend(signs, Signs(oldLag, level, Lags(queue, |goal.fed|)));
      signs := shown;
      while queue != []
        invariant var d := Drained(queue, oldLag, level, outcomes, k);
                  && goal.fed == fed + d.fed && goal.queue == d.queue && goal.last == d.last
                  && goal.reaction.oldLag == d.reaction.oldLag && goal.reaction.level == d.reaction.level
                  && old(warnings) + goal.reaction.warnings == warnings + d.reaction.warnings
        invariant last == Decoded && signs == shown
        decreases |queue|
      {
        var frame := queue[0];
        queue := queue[1..];
        ghost var r, before := React(oldLag, level, Lag(queue)), warnings;
        AdjustLevel(Lag(queue));
        Assoc(before, r.warnings, Drained(queue, oldLag, level, outcomes, k + 1).reaction.warnings);
        Assoc(fed, [frame], Drained(queue, oldLag, level, outcomes, k + 1).fed);
        fed := fed + [frame];
        last := OutcomeAt(outcomes, k);
        k := k + 1;
        if last != Decoded {
          return;
        }
      }
    }

    method ProcessFrame(outcomes: seq<DecodeOutcome>, nodeAlive: bool) returns (fed: seq<FrameData>)
      requires Valid()
      requires hasDecoder ==> link.Some?
      modifies this
      ensures Valid()
      ensures old(failed) || !old(hasDecoder) ==>
                fed == [] && State() == old(State()) && Watching() == old(Watching()) && warnings == old(warnings)
      ensures !old(failed) && old(hasDecoder) ==>
                var d := Drained(old(queue), old(oldLag), old(level), outcomes, 0);
                var w := LagStep(old(Watching()), DrainAll(outcomes));
                && fed == d.fed && warnings == old(warnings) + d.reaction.warnings
                && (d.last != OtherError ==> State() == old(State()) && Watching() == w)
                && (d.last == OtherError ==>
                      State() == Step(old(State()), FrameError(nodeAlive)) && Watching() == LagStep(w, Clear))
      ensures fed <= old(queue)
      ensures var last := Drained(old(queue), old(oldLag), old(level), outcomes, 0).last;
              !old(failed) && old(hasDecoder) && last == OtherError ==>
                && failed && queue == []
                && (config.policy >= 2 ==> link.Some? && !link.value.connected)
                && (config.policy >= 2 && nodeAlive ==> cooldownTimer == Some(old(cooldown)))
                && (config.policy < 2 ==> link == old(link) && cooldownTimer == old(cooldownTimer))
    {
      hide Drained;
      fed := [];
      if failed || !hasDecoder {
        return;
      }
      DrainFeedsInOrder(queue, oldLag, level, outcomes, 0);
      var last;
      fed, last := DrainQueue(outcomes);
      if last == OtherError {
        Fail(nodeAlive);
      }
    }
  }
}
