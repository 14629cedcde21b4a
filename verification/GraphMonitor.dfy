/** The process-wide watcher of the ROS graph: one shared instance with a detached thread of its own, made on
    first use, told to leave when its last listener goes, and replaced on the next use. All shared state but
    the shutdown flag and the thread's final reset is guarded by one lock. */
module GraphMonitor {
  import opened Frames

  /** Where a monitor's thread stands in its loop. */
  datatype LoopPc = Top | Waiting | WantLock | Notifying(rest: set<nat>) | Leaving | Gone

  datatype Monitor = Monitor(listeners: set<nat>, shutdown: bool, pc: LoopPc)

  datatype Owner = LoopOf(monitor: nat) | Spinner(listener: Option<nat>)

  datatype Event =
    | Registered(listener: nat, monitor: nat)
    | Removed(listener: nat, monitor: nat)
    | Began(monitor: nat)                        // a round of notifications
    | Called(listener: nat, monitor: nat)

  /** `monitors` are all monitors ever made; `instance` is the shared one; `lock` is who holds the lock. */
  datatype World = World(monitors: seq<Monitor>, instance: Option<nat>, lock: Option<Owner>, log: seq<Event>)

  const INITIAL: World := World([], None, None, [])

  datatype Action =
    | Instance(who: Option<nat>)                // ask for the shared monitor
    | SpinDone                                  // the wait for a leaving monitor ends
    | Remove(monitor: nat, listener: nat)
    | Check(monitor: nat)                       // the loop reads the shutdown flag
    | Wake(monitor: nat, changed: bool)         // the wait ends, with or without a change
    | Acquire(monitor: nat)
    | Notify(monitor: nat, listener: nat)
    | Release(monitor: nat)
    | Reset(monitor: nat)                       // the loop has ended; the shared pointer is cleared

  function Added(w: World, listener: Option<nat>, monitor: nat): seq<Event> {
    if listener.Some? then w.log + [Registered(listener.value, monitor)] else w.log
  }

  function AsSet(listener: Option<nat>): set<nat> {
    if listener.Some? then {listener.value} else {}
  }

  function Made(w: World, listener: Option<nat>): World {
    World(w.monitors + [Monitor(AsSet(listener), false, Top)], Some(|w.monitors|), None,
          Added(w, listener, |w.monitors|))
  }

  function Put(w: World, m: nat, v: Monitor): World
    requires m < |w.monitors|
  {
    w.(monitors := w.monitors[m := v])
  }

  function Enter(w: World, listener: Option<nat>): World {
    if w.lock.Some? then w
    else if w.instance.None? then Made(w, listener)
    else
      var m := w.instance.value;
      if m >= |w.monitors| then w
      else if !w.monitors[m].shutdown then
        Put(w, m, w.monitors[m].(listeners := w.monitors[m].listeners + AsSet(listener))).(log := Added(w, listener, m))
      else w.(lock := Some(Spinner(listener)))
  }

  function Erase(w: World, m: nat, listener: nat): World
    requires m < |w.monitors|
  {
    if w.lock.Some? then w
    else
      var mon := w.monitors[m];
      var left := mon.listeners - {listener};
      Put(w, m,
          if listener in mon.listeners then mon.(listeners := left, shutdown := mon.shutdown || left == {}) else mon)
        .(log := w.log + [Removed(listener, m)])
  }

  /** One step of one thread; a step that is not possible changes nothing. */
  function Step(w: World, a: Action): World {
    match a
    case Instance(l) => Enter(w, l)
    case SpinDone =>
      if w.lock.Some? && w.lock.value.Spinner? && w.instance.None? then Made(w, w.lock.value.listener) else w
    case Remove(m, l) => if m < |w.monitors| then Erase(w, m, l) else w
    case Check(m) =>
      if m < |w.monitors| && w.monitors[m].pc == Top
      then Put(w, m, w.monitors[m].(pc := if w.monitors[m].shutdown then Leaving else Waiting))
      else w
    case Wake(m, changed) =>
      if m < |w.monitors| && w.monitors[m].pc == Waiting
      then Put(w, m, w.monitors[m].(pc := if changed && !w.monitors[m].shutdown then WantLock else Top))
      else w
    case Acquire(m) =>
      if m < |w.monitors| && w.monitors[m].pc == WantLock && w.lock.None?
      then Put(w, m, w.monitors[m].(pc := Notifying(w.monitors[m].listeners)))
             .(lock := Some(LoopOf(m)), log := w.log + [Began(m)])
      else w
    case Notify(m, l) =>
      if m < |w.monitors| && w.monitors[m].pc.Notifying? && l in w.monitors[m].pc.rest
      then Put(w, m, w.monitors[m].(pc := Notifying(w.monitors[m].pc.rest - {l}))).(log := w.log + [Called(l, m)])
      else w
    case Release(m) =>
      if m < |w.monitors| && w.monitors[m].pc == Notifying({})
      then Put(w, m, w.monitors[m].(pc := Top)).(lock := None)
      else w
    case Reset(m) =>
      if m < |w.monitors| && w.monitors[m].pc == Leaving
      then Put(w, m, w.monitors[m].(pc := Gone)).(instance := None)
      else w
  }

  function Run(w: World, acts: seq<Action>): World
    decreases |acts|
  {
    if acts == [] then w else Run(Step(w, acts[0]), acts[1..])
  }

  // ----- who may be called

  /** The listeners registered and not yet removed, read off the log. */
  function Active(log: seq<Event>): set<(nat, nat)> {
    if log == [] then {} else After(Active(log[..|log| - 1]), log[|log| - 1])
  }

  function After(before: set<(nat, nat)>, e: Event): set<(nat, nat)> {
    match e
    case Registered(l, m) => before + {(l, m)}
    case Removed(l, m) => before - {(l, m)}
    case Began(_) => before
    case Called(_, _) => before
  }

  /** Those called by a monitor since its last round began. */
  function CalledSince(log: seq<Event>, m: nat): set<nat> {
    if log == [] then {} else More(CalledSince(log[..|log| - 1], m), log[|log| - 1], m)
  }

  function More(before: set<nat>, e: Event, m: nat): set<nat> {
    match e
    case Began(k) => if k == m then {} else before
    case Called(l, k) => if k == m then before + {l} else before
    case _ => before
  }

  lemma {:induction false} CalledMeans(log: seq<Event>, l: nat, m: nat)
    ensures l in CalledSince(log, m) <==>
              exists j :: 0 <= j < |log| && log[j] == Called(l, m) && forall k :: j < k < |log| ==> log[k] != Began(m)
  {
    if log != [] {
      var before, n := log[..|log| - 1], |log| - 1;
      CalledMeans(before, l, m);
      if l in CalledSince(log, m) {
        if log[n] != Called(l, m) {
          var j :| 0 <= j < n && before[j] == Called(l, m) && forall k :: j < k < n ==> before[k] != Began(m);
          assert log[j] == Called(l, m) && forall k :: j < k < |log| ==> log[k] != Began(m);
        }
      }
      if j :| 0 <= j < |log| && log[j] == Called(l, m) && forall k :: j < k < |log| ==> log[k] != Began(m) {
        if j < n {
          assert before[j] == Called(l, m) && log[n] != Began(m);
          assert forall k :: j < k < n ==> before[k] != Began(m);
        }
      }
    }
  }

  /** Every call went to a listener registered with that monitor at that moment. */
  predicate CallsAllowed(log: seq<Event>) {
    forall i :: 0 <= i < |log| && log[i].Called? ==> (log[i].listener, log[i].monitor) in Active(log[..i])
  }

  /** Registered somewhere in the log and not removed since. */
  ghost predicate RegisteredSince(log: seq<Event>, l: nat, m: nat) {
    exists j :: 0 <= j < |log| && log[j] == Registered(l, m) && forall k :: j < k < |log| ==> log[k] != Removed(l, m)
  }

  lemma {:induction false} ActiveMeans(log: seq<Event>, l: nat, m: nat)
    ensures (l, m) in Active(log) <==> RegisteredSince(log, l, m)
  {
    if log != [] {
      var before, n := log[..|log| - 1], |log| - 1;
      ActiveMeans(before, l, m);
      if RegisteredSince(before, l, m) && log[n] != Removed(l, m) {
        var j :| 0 <= j < n && before[j] == Registered(l, m) && forall k :: j < k < n ==> before[k] != Removed(l, m);
        assert log[j] == Registered(l, m) && forall k :: j < k < |log| ==> log[k] != Removed(l, m);
      }
      if RegisteredSince(log, l, m) && log[n] != Registered(l, m) {
        var j :| 0 <= j < |log| && log[j] == Registered(l, m) && forall k :: j < k < |log| ==> log[k] != Removed(l, m);
        assert before[j] == Registered(l, m);
        assert log[n] != Removed(l, m);
        assert forall k :: j < k < n ==> before[k] != Removed(l, m);
      }
    }
  }

  lemma LogAppend(log: seq<Event>, e: Event)
    requires CallsAllowed(log) && (e.Called? ==> (e.listener, e.monitor) in Active(log))
    ensures CallsAllowed(log + [e])
    ensures Active(log + [e]) == After(Active(log), e)
  {
    var longer := log + [e];
    assert longer[..|longer| - 1] == log;
    forall i | 0 <= i < |longer| && longer[i].Called?
      ensures (longer[i].listener, longer[i].monitor) in Active(longer[..i])
    {
      assert i < |log| ==> longer[..i] == log[..i];
    }
  }

  lemma CalledAppend(log: seq<Event>, e: Event, m: nat)
    ensures CalledSince(log + [e], m) == More(CalledSince(log, m), e, m)
  {
    assert (log + [e])[..|log + [e]| - 1] == log;
  }

  // ----- the invariant

  predicate MonitorGood(w: World, m: nat)
    requires m < |w.monitors|
  {
    var mon := w.monitors[m];
    && (mon.pc != Gone <==> w.instance == Some(m))
    && (mon.shutdown ==> mon.listeners == {})
    && (mon.pc == Leaving || mon.pc == Gone ==> mon.shutdown)
    && (mon.pc.Notifying? <==> w.lock == Some(LoopOf(m)))
    && (mon.pc.Notifying? ==> CalledSince(w.log, m) + mon.pc.rest == mon.listeners)
  }

  ghost predicate Good(w: World) {
    && (forall m :: 0 <= m < |w.monitors| ==> MonitorGood(w, m))
    && (w.instance.Some? ==> w.instance.value < |w.monitors|)
    && (w.lock.Some? && w.lock.value.Spinner? && w.instance.Some? ==> w.monitors[w.instance.value].shutdown)
    && CallsAllowed(w.log)
    && (forall l: nat, m: nat :: (l, m) in Active(w.log) <==> m < |w.monitors| && l in w.monitors[m].listeners)
  }

  lemma MadeKeepsGood(w: World, listener: Option<nat>)
    requires Good(w) && w.instance.None? && (w.lock.None? || w.lock.value.Spinner?)
    ensures Good(Made(w, listener))
  {
    hide CallsAllowed;
    hide Active;
    hide CalledSince;
    var v := Made(w, listener);
    forall k | 0 <= k < |v.monitors| ensures MonitorGood(v, k) {
      if k < |w.monitors| { assert MonitorGood(w, k); }
    }
    if listener.Some? {
      LogAppend(w.log, Registered(listener.value, |w.monitors|));
    }
  }

  lemma EnterKeepsGood(w: World, listener: Option<nat>)
    requires Good(w)
    ensures Good(Enter(w, listener))
  {
    hide CallsAllowed;
    hide Active;
    hide CalledSince;
    if w.lock.None? {
      if w.instance.None? {
        MadeKeepsGood(w, listener);
      } else {
        var m, v := w.instance.value, Enter(w, listener);
        forall k | 0 <= k < |v.monitors| ensures MonitorGood(v, k) {
          assert MonitorGood(w, k);
        }
        if !w.monitors[m].shutdown && listener.Some? {
          LogAppend(w.log, Registered(listener.value, m));
        }
      }
    }
  }

  lemma EraseKeepsGood(w: World, m: nat, listener: nat)
    requires Good(w) && m < |w.monitors|
    ensures Good(Erase(w, m, listener))
  {
    hide CallsAllowed;
    hide Active;
    hide CalledSince;
    if w.lock.None? {
      var v := Erase(w, m, listener);
      forall k | 0 <= k < |v.monitors| ensures MonitorGood(v, k) {
        assert MonitorGood(w, k);
      }
      LogAppend(w.log, Removed(listener, m));
    }
  }

  lemma LoopKeepsGood(w: World, a: Action)
    requires Good(w) && (a.Check? || a.Wake? || a.Acquire? || a.Notify? || a.Release? || a.Reset?)
    ensures Good(Step(w, a))
  {
    if a.Acquire? {
      AcquireKeepsGood(w, a.monitor);
    } else if a.Notify? {
      NotifyKeepsGood(w, a.monitor, a.listener);
    } else {
      hide CallsAllowed;
      hide Active;
      hide CalledSince;
      var v := Step(w, a);
      if v != w {
        assert MonitorGood(w, a.monitor);
        forall k | 0 <= k < |v.monitors| ensures MonitorGood(v, k) {
          assert MonitorGood(w, k);
        }
      }
    }
  }

  lemma AcquireKeepsGood(w: World, m: nat)
    requires Good(w)
    ensures Good(Step(w, Acquire(m)))
  {
    hide CallsAllowed;
    hide Active;
    hide CalledSince;
    var v := Step(w, Acquire(m));
    if v != w {
      LogAppend(w.log, Began(m));
      CalledAppend(w.log, Began(m), m);
      assert MonitorGood(w, m);
      forall k | 0 <= k < |v.monitors| ensures MonitorGood(v, k) {
        assert MonitorGood(w, k);
      }
    }
  }

  lemma NotifyKeepsGood(w: World, m: nat, l: nat)
    requires Good(w)
    ensures Good(Step(w, Notify(m, l)))
  {
    hide CallsAllowed;
    hide Active;
    hide CalledSince;
    var v := Step(w, Notify(m, l));
    if v != w {
      assert MonitorGood(w, m);
      LogAppend(w.log, Called(l, m));
      CalledAppend(w.log, Called(l, m), m);
      forall k | 0 <= k < |v.monitors| ensures MonitorGood(v, k) {
        assert MonitorGood(w, k);
      }
    }
  }

  lemma StepKeepsGood(w: World, a: Action)
    requires Good(w)
    ensures Good(Step(w, a))
  {
    match a
    case Instance(l) => EnterKeepsGood(w, l);
    case SpinDone =>
      if Step(w, a) != w {
        MadeKeepsGood(w, w.lock.value.listener);
      }
    case Remove(m, l) =>
      if m < |w.monitors| {
        EraseKeepsGood(w, m, l);
      }
    case _ => LoopKeepsGood(w, a);
  }

  lemma {:induction false} RunKeepsGood(w: World, acts: seq<Action>)
    requires Good(w)
    ensures Good(Run(w, acts))
    decreases |acts|
  {
    if acts != [] {
      StepKeepsGood(w, acts[0]);
      RunKeepsGood(Step(w, acts[0]), acts[1..]);
    }
  }

  /** In every interleaving: no listener is called by a monitor it is not registered with at that moment, so
      never after its removal has returned; a monitor told to leave has no listeners; at most one thread is
      alive, and it belongs to the shared instance. */
  lemma EveryRunIsSafe(acts: seq<Action>)
    ensures var w := Run(INITIAL, acts);
            && (forall i :: 0 <= i < |w.log| && w.log[i].Called? ==>
                  RegisteredSince(w.log[..i], w.log[i].listener, w.log[i].monitor))
            && (forall m :: 0 <= m < |w.monitors| && w.monitors[m].shutdown ==> w.monitors[m].listeners == {})
            && (forall m :: 0 <= m < |w.monitors| ==> (w.monitors[m].pc != Gone <==> w.instance == Some(m)))
  {
    RunKeepsGood(INITIAL, acts);
    var w := Run(INITIAL, acts);
    forall i | 0 <= i < |w.log| && w.log[i].Called?
      ensures RegisteredSince(w.log[..i], w.log[i].listener, w.log[i].monitor)
    {
      ActiveMeans(w.log[..i], w.log[i].listener, w.log[i].monitor);
    }
    forall m | 0 <= m < |w.monitors|
      ensures w.monitors[m].shutdown ==> w.monitors[m].listeners == {}
      ensures w.monitors[m].pc != Gone <==> w.instance == Some(m)
    {
      assert MonitorGood(w, m);
    }
  }

  /** Nobody is forgotten: when a thread ends a round of notifications, every listener of its monitor has been called
      since that round began. */
  lemma RoundCallsAll(acts: seq<Action>, m: nat, l: nat)
    ensures var w := Run(INITIAL, acts);
            Step(w, Release(m)) != w && l in w.monitors[m].listeners ==>
              exists j :: 0 <= j < |w.log| && w.log[j] == Called(l, m)
                          && forall k :: j < k < |w.log| ==> w.log[k] != Began(m)
  {
    RunKeepsGood(INITIAL, acts);
    var w := Run(INITIAL, acts);
    if Step(w, Release(m)) != w && l in w.monitors[m].listeners {
      assert MonitorGood(w, m);
      CalledMeans(w.log, l, m);
    }
  }

  /** And after a change a thread that gets the lock begins such a round, with all its listeners still to be called. */
  lemma ChangeBeginsRound(w: World, m: nat)
    requires m < |w.monitors| && w.monitors[m].pc == Waiting && !w.monitors[m].shutdown && w.lock.None?
    ensures var v := Step(Step(w, Wake(m, true)), Acquire(m));
            && m < |v.monitors| && v.monitors[m].pc == Notifying(w.monitors[m].listeners)
            && v.log == w.log + [Began(m)] && v.lock == Some(LoopOf(m))
  {
  }

  /** A caller gets a running monitor that holds its listener, at once or when its wait is over. */
  lemma InstanceIsRunning(acts: seq<Action>, a: Action)
    ensures var w := Run(INITIAL, acts); var v := Step(w, a);
            var l := if a.Instance? then a.who
                     else if w.lock.Some? && w.lock.value.Spinner? then w.lock.value.listener else None;
            (a.Instance? && w.lock.None? && v.lock.None?) || (a == SpinDone && w.lock.Some? && v.lock.None?) ==>
              && v.instance.Some? && v.instance.value < |v.monitors|
              && var mon := v.monitors[v.instance.value];
                 !mon.shutdown && mon.pc != Gone && AsSet(l) <= mon.listeners
  {
    RunKeepsGood(INITIAL, acts);
    var w := Run(INITIAL, acts);
    if w.instance.Some? {
      assert MonitorGood(w, w.instance.value);
    }
  }

  /** The thread that leaves clears the pointer to itself, never to a successor. */
  lemma ResetHitsOnlyItself(acts: seq<Action>, m: nat)
    ensures var w := Run(INITIAL, acts);
            Step(w, Reset(m)) != w ==> w.instance == Some(m)
  {
    RunKeepsGood(INITIAL, acts);
    var w := Run(INITIAL, acts);
    if m < |w.monitors| {
      assert MonitorGood(w, m);
    }
  }

  // ----- the deadlock

  predicate Spinning(w: World) {
    w.lock.Some? && w.lock.value.Spinner?
  }

  /** A caller waits with the lock for a monitor whose thread waits for the lock. */
  predicate Stuck(w: World) {
    && Spinning(w)
    && w.instance.Some? && w.instance.value < |w.monitors|
    && w.monitors[w.instance.value].pc == WantLock
  }

  lemma {:induction false} StuckForever(w: World, acts: seq<Action>)
    requires Good(w) && Stuck(w)
    ensures Run(w, acts) == w
    decreases |acts|
  {
    if acts != [] {
      var a := acts[0];
      if (a.Check? || a.Wake? || a.Acquire? || a.Notify? || a.Release? || a.Reset?) && a.monitor < |w.monitors| {
        assert MonitorGood(w, a.monitor);
      }
      assert Step(w, a) == w;
      StuckForever(w, acts[1..]);
    }
  }

  function Escape(w: World): seq<Action> {
    if w.instance.None? then [SpinDone]
    else
      var m := w.instance.value;
      (if m < |w.monitors| && w.monitors[m].pc == Waiting then [Wake(m, false)] else [])
      + [Check(m), Reset(m), SpinDone]
  }

  /** A waiting caller can still get its monitor exactly when the leaving thread does not itself wait for the
      lock; otherwise nothing in the whole process that needs the lock ever moves again. */
  lemma SpinnerEscapesIff(acts: seq<Action>)
    ensures var w := Run(INITIAL, acts);
            Spinning(w) ==> ((exists more: seq<Action> :: !Spinning(Run(w, more))) <==> !Stuck(w))
  {
    RunKeepsGood(INITIAL, acts);
    var w := Run(INITIAL, acts);
    if Spinning(w) {
      if Stuck(w) {
        forall more: seq<Action> ensures Spinning(Run(w, more)) {
          StuckForever(w, more);
        }
      } else {
        EscapeWorks(w);
      }
    }
  }

  lemma EscapeWorks(w: World)
    requires Good(w) && Spinning(w) && !Stuck(w)
    ensures !Spinning(Run(w, Escape(w)))
  {
    if w.instance.None? {
      assert Run(w, [SpinDone]) == Run(Step(w, SpinDone), []);
    } else {
      var m := w.instance.value;
      assert MonitorGood(w, m);
      var w1 := if w.monitors[m].pc == Waiting then Step(w, Wake(m, false)) else w;
      var rest := [Check(m), Reset(m), SpinDone];
      assert Run(w, Escape(w)) == Run(w1, rest) by {
        if w.monitors[m].pc == Waiting {
          assert Escape(w)[1..] == rest && Escape(w)[0] == Wake(m, false);
        } else {
          assert Escape(w) == rest;
        }
      }
      var w2 := Step(w1, Check(m));
      var w3 := Step(w2, Reset(m));
      assert rest[1..] == [Reset(m), SpinDone] && rest[1..][1..] == [SpinDone] && rest[1..][1..][1..] == [];
      assert Run(w1, rest) == Run(w2, [Reset(m), SpinDone]) == Run(w3, [SpinDone]) == Step(w3, SpinDone);
    }
  }

  const DEADLOCK: seq<Action> := [Instance(Some(1)), Check(0), Wake(0, true), Remove(0, 1), Instance(Some(2))]

  /** The stuck state is reached by five ordinary steps: a change arrives just before the last listener is
      removed and a new one is registered. */
  lemma DeadlockIsReachable()
    ensures Stuck(Run(INITIAL, DEADLOCK))
    ensures forall more: seq<Action> :: Run(INITIAL, DEADLOCK + more) == Run(INITIAL, DEADLOCK)
  {
    var w1 := Step(INITIAL, DEADLOCK[0]);
    assert w1 == World([Monitor({1}, false, Top)], Some(0), None, [Registered(1, 0)]);
    var w2 := Step(w1, DEADLOCK[1]);
    var w3 := Step(w2, DEADLOCK[2]);
    assert w3.monitors == [Monitor({1}, false, WantLock)];
    var w4 := Step(w3, DEADLOCK[3]);
    assert {1} - {1} == {};
    assert w4.monitors == [Monitor({}, true, WantLock)];
    var w5 := Step(w4, DEADLOCK[4]);
    Unroll5(INITIAL, DEADLOCK);
    RunKeepsGood(INITIAL, DEADLOCK);
    forall more: seq<Action> ensures Run(INITIAL, DEADLOCK + more) == Run(INITIAL, DEADLOCK) {
      RunAppend(INITIAL, DEADLOCK, more);
      StuckForever(Run(INITIAL, DEADLOCK), more);
    }
  }

  lemma Unroll5(w: World, a: seq<Action>)
    requires |a| == 5
    ensures Run(w, a) == Step(Step(Step(Step(Step(w, a[0]), a[1]), a[2]), a[3]), a[4])
  {
    hide Step;
    assert a[1..][0] == a[1] && a[1..][1..] == a[2..] && a[2..][1..] == a[3..] && a[3..][1..] == a[4..] &&
           a[4..][1..] == [];
    var w1 := Step(w, a[0]);
    var w2 := Step(w1, a[1]);
    var w3 := Step(w2, a[2]);
    var w4 := Step(w3, a[3]);
    assert Run(w, a) == Run(w1, a[1..]) == Run(w2, a[2..]) == Run(w3, a[3..]) == Run(w4, a[4..])
           == Run(Step(w4, a[4]), []);
  }

  lemma {:induction false} RunAppend(w: World, a: seq<Action>, b: seq<Action>)
    ensures Run(w, a + b) == Run(Run(w, a), b)
    decreases |a|
  {
    if a == [] {
      EmptyLeft(b);
    } else {
      assert (a + b)[1..] == a[1..] + b;
      RunAppend(Step(w, a[0]), a[1..], b);
    }
  }

  // ----- the shared object

  /** What thread `m` does next; `changed` and `next` are the library's and the scheduler's choices. */
  function NextOfLoop(w: World, m: nat, changed: bool, next: nat): Action
    requires m < |w.monitors|
  {
    match w.monitors[m].pc
    case Top => Check(m)
    case Waiting => Wake(m, changed)
    case WantLock => Acquire(m)
    case Notifying(rest) => if rest == {} then Release(m) else Notify(m, next)
    case _ => Reset(m)
  }

  class SharedMonitor {
    var monitors: seq<Monitor>
    var instance: Option<nat>
    var lock: Option<Owner>
    var log: seq<Event>

    ghost function State(): World
      reads this
    {
      World(monitors, instance, lock, log)
    }

    ghost predicate Valid()
      reads this
    {
      Good(State())
    }

    constructor ()
      ensures Valid() && State() == INITIAL
      ensures monitors == [] && instance == None && lock == None && log == []
    {
      monitors, instance, lock, log := [], None, None, [];
    }

    method Create(who: Option<nat>)
      requires Valid() && instance.None? && (lock.None? || lock.value.Spinner?)
      modifies this
      ensures Valid() && State() == Made(old(State()), who)
      ensures monitors == old(monitors) + [Monitor(if who.Some? then {who.value} else {}, false, Top)]
      ensures instance == Some(|old(monitors)|) && lock == None
      ensures log == old(log) + (if who.Some? then [Registered(who.value, |old(monitors)|)] else [])
    {
      MadeKeepsGood(State(), who);
      if who.Some? {
        log := log + [Registered(who.value, |monitors|)];
      }
      instance := Some(|monitors|);
      monitors := monitors + [Monitor(AsSet(who), false, Top)];
      lock := None;
    }

    /** One attempt to get the shared monitor; no result means that the caller waits, either for the lock or,
        holding it, for a leaving monitor. */
    method GetInstance(who: Option<nat>) returns (r: Option<nat>)
      requires Valid()
      modifies this
      ensures Valid() && State() == Step(old(State()), Instance(who))
      ensures r.Some? ==> r == instance && r.value < |monitors| && !monitors[r.value].shutdown
                          && AsSet(who) <= monitors[r.value].listeners
      ensures r.None? <==> lock.Some?
      ensures old(lock).Some? ==>
                lock == old(lock) && monitors == old(monitors) && instance == old(instance) && log == old(log)
      ensures old(lock).None? && old(instance).None? ==>
                && instance == Some(|old(monitors)|) && r == instance
                && monitors == old(monitors) + [Monitor(if who.Some? then {who.value} else {}, false, Top)]
                && log == old(log) + (if who.Some? then [Registered(who.value, |old(monitors)|)] else [])
      ensures old(lock).None? && old(instance).Some? && old(monitors)[old(instance).value].shutdown ==>
                lock == Some(Spinner(who)) && monitors == old(monitors) && instance == old(instance) && log == old(log)
      ensures old(lock).None? && old(instance).Some? && !old(monitors)[old(instance).value].shutdown ==>
                var m := old(instance).value;
                && instance == old(instance) && r == instance && |monitors| == |old(monitors)|
                && monitors[m].listeners == old(monitors)[m].listeners + (if who.Some? then {who.value} else {})
                && monitors[m].pc == old(monitors)[m].pc && !monitors[m].shutdown
                && (forall k :: 0 <= k < |monitors| && k != m ==> monitors[k] == old(monitors)[k])
                && log == old(log) + (if who.Some? then [Registered(who.value, m)] else [])
    {
      EnterKeepsGood(State(), who);
      if lock.Some? {
        return None;
      }
      if instance.Some? {
        var m := instance.value;
        if !monitors[m].shutdown {
          if who.Some? {
            log := log + [Registered(who.value, m)];
          }
          monitors := monitors[m := monitors[m].(listeners := monitors[m].listeners + AsSet(who))];
          return instance;
        }
        lock := Some(Spinner(who));
        return None;
      }
      Create(who);
      return instance;
    }

    /** The waiting caller looks at the shared pointer again. */
    method FinishWait() returns (done: bool)
      requires Valid() && lock.Some? && lock.value.Spinner?
      modifies this
      ensures Valid() && State() == Step(old(State()), SpinDone)
      ensures done <==> old(instance).None?
      ensures !done ==> lock == old(lock) && monitors == old(monitors) && instance == old(instance) && log == old(log)
      ensures done ==>
                var who := old(lock).value.listener;
                && instance == Some(|old(monitors)|) && lock == None
                && monitors == old(monitors) + [Monitor(if who.Some? then {who.value} else {}, false, Top)]
    {
      done := instance.None?;
      if done {
        Create(lock.value.listener);
      }
    }

    method RemoveListener(m: nat, listener: nat)
      requires Valid() && m < |monitors| && lock.None?
      modifies this
      ensures Valid() && State() == Step(old(State()), Remove(m, listener))
      ensures |monitors| == |old(monitors)| && instance == old(instance) && lock == old(lock)
      ensures log == old(log) + [Removed(listener, m)]
      ensures monitors[m].listeners == old(monitors)[m].listeners - {listener} && monitors[m].pc == old(monitors)[m].pc
      ensures monitors[m].shutdown <==>
                old(monitors)[m].shutdown || old(monitors)[m].listeners == {listener}
      ensures forall k :: 0 <= k < |monitors| && k != m ==> monitors[k] == old(monitors)[k]
    {
      ghost var goal := Erase(State(), m, listener);
      EraseKeepsGood(State(), m, listener);
      hide Good;
      if listener in monitors[m].listeners {
        var left := monitors[m].listeners - {listener};
        if left == {} {
          monitors := monitors[m := monitors[m].(listeners := left, shutdown := true)];
        } else {
          monitors := monitors[m := monitors[m].(listeners := left)];
        }
      }
      log := log + [Removed(listener, m)];
      assert monitors == goal.monitors;
      assert State() == goal;
    }

    /** The next atomic section of a monitor's thread. */
    method LoopStep(m: nat, changed: bool, next: nat)
      requires Valid() && m < |monitors|
      modifies this
      ensures Valid() && State() == Step(old(State()), NextOfLoop(old(State()), m, changed, next))
      ensures |monitors| == |old(monitors)|
      ensures forall k :: 0 <= k < |monitors| && k != m ==> monitors[k] == old(monitors)[k]
      ensures monitors[m].listeners == old(monitors)[m].listeners && monitors[m].shutdown == old(monitors)[m].shutdown
      ensures var was, now := old(monitors)[m].pc, monitors[m].pc;
              && (was == Top ==> now == (if monitors[m].shutdown then Leaving else Waiting))
              && (was == Waiting ==> now == (if changed && !monitors[m].shutdown then WantLock else Top))
              && (was == WantLock ==> now == (if old(lock).None? then Notifying(monitors[m].listeners) else WantLock))
              && (was.Notifying? && was.rest != {} ==> now == Notifying(was.rest - {next}))
              && (was == Notifying({}) ==> now == Top)
              && (was == Leaving || was == Gone ==> now == Gone)
      ensures var was := old(monitors)[m].pc;
              && lock == (if was == WantLock && old(lock).None? then Some(LoopOf(m))
                          else if was == Notifying({}) then None else old(lock))
              && instance == (if was == Leaving then None else old(instance))
              && log == old(log) + (if was == WantLock && old(lock).None? then [Began(m)]
                                    else if was.Notifying? && next in was.rest then [Called(next, m)] else [])
    {
      LoopKeepsGood(State(), NextOfLoop(State(), m, changed, next));
      hide Good;
      var mon := monitors[m];
      match mon.pc
      case Top =>
        monitors := monitors[m := mon.(pc := if mon.shutdown then Leaving else Waiting)];
      case Waiting =>
        monitors := monitors[m := mon.(pc := if changed && !mon.shutdown then WantLock else Top)];
      case WantLock =>
        if lock.None? {
          lock, log := Some(LoopOf(m)), log + [Began(m)];
          monitors := monitors[m := mon.(pc := Notifying(mon.listeners))];
        }
      case Notifying(rest) =>
        if rest == {} {
          lock := None;
          monitors := monitors[m := mon.(pc := Top)];
        } else if next in rest {
          log := log + [Called(next, m)];
          monitors := monitors[m := mon.(pc := Notifying(rest - {next}))];
        }
      case Leaving =>
        instance := None;
        monitors := monitors[m := mon.(pc := Gone)];
      case Gone =>
    }
  }
}
