/** A queue between the thread that encodes frames and the event loop that sends them. The producer pushes
    frames and raises a trigger; the consumer pulls one frame at a time; either side may be interrupted
    between any two of the steps below by a step of the other or by the shutdown. */
module FrameInjector {
  import opened Frames

  /** What one delivery hands to the consumer. */
  datatype Delivery = Delivery(data: seq<byte>, numTruncatedBytes: nat, seconds: int, microseconds: int)

  const TWO_TO_64: int := 0x1_0000_0000_0000_0000

  function Render(frame: FrameData, maxSize: nat): (d: Delivery)
    ensures |d.data| == Min(|frame.data|, maxSize) && d.data <= frame.data
    ensures |d.data| + d.numTruncatedBytes == |frame.data|
  {
    var size := Min(|frame.data|, maxSize);
    var nsec := frame.stamp % TWO_TO_64;  // the stamp is stored in an unsigned 64-bit variable
    Delivery(frame.data[..size], |frame.data| - size, nsec / 1_000_000_000, nsec % 1_000_000_000 / 1000)
  }

  /** `triggered`: the delivery event is pending; `awaiting`: the consumer has asked for a frame of at most
      `maxSize` octets; `delivering`: the event loop is about to look into the queue.
      The last four fields record what has happened so far. */
  datatype Injector = Injector(
    queue: seq<FrameData>, isShutdown: bool, triggered: bool, awaiting: bool, maxSize: nat, delivering: bool,
    closed: bool, accepted: seq<FrameData>, taken: seq<FrameData>, limits: seq<nat>, delivered: seq<Delivery>)

  const FRESH: Injector := Injector([], false, false, false, 0, false, false, [], [], [], [])

  datatype Action =
    | Inject(frame: FrameData)
    | Fire                      // the event loop takes the pending trigger
    | Request(size: nat)        // the consumer asks for a frame; the shutdown flag is read
    | Deliver                   // the event loop looks into the queue under the lock
    | Shutdown

  /** One atomic step; a step that is not possible changes nothing. */
  function Step(s: Injector, a: Action): Injector {
    match a
    case Inject(f) =>
      if s.isShutdown then s
      else s.(queue := s.queue + [f], triggered := true, accepted := s.accepted + [f])
    case Fire =>
      if !s.triggered || s.delivering then s else s.(triggered := false, delivering := true)
    case Request(size) =>
      if s.awaiting || s.delivering || s.closed then s
      else if s.isShutdown then s.(closed := true)
      else s.(awaiting := true, maxSize := size, delivering := true)
    case Deliver =>
      if !s.delivering then s
      else if !s.awaiting || s.queue == [] then s.(delivering := false)
      else s.(queue := s.queue[1..], delivering := false, awaiting := false,
              taken := s.taken + [s.queue[0]], limits := s.limits + [s.maxSize],
              delivered := s.delivered + [Render(s.queue[0], s.maxSize)])
    case Shutdown => s.(isShutdown := true, queue := [])
  }

  function Run(s: Injector, acts: seq<Action>): Injector
    decreases |acts|
  {
    if acts == [] then s else Run(Step(s, acts[0]), acts[1..])
  }

  /** No wakeup is lost: a waiting consumer and a waiting frame never coexist without a step under way. */
  predicate NoLostWakeup(s: Injector) {
    !s.isShutdown && s.queue != [] && s.awaiting ==> s.triggered || s.delivering
  }

  /** Frames leave in the order they were accepted, none twice, and until shutdown none is dropped. */
  predicate Fifo(s: Injector) {
    && (!s.isShutdown ==> s.taken + s.queue == s.accepted)
    && (s.isShutdown ==> s.queue == [] && s.taken <= s.accepted)
    && |s.limits| == |s.taken| && |s.delivered| == |s.taken|
    && (forall k :: 0 <= k < |s.taken| ==> s.delivered[k] == Render(s.taken[k], s.limits[k]))
  }

  predicate Good(s: Injector) {
    NoLostWakeup(s) && Fifo(s)
  }

  lemma DeliveringIsGood(s: Injector)
    requires Fifo(s)
    ensures Good(s.(delivering := true))
  {
  }

  lemma StepKeepsGood(s: Injector, a: Action)
    requires Good(s)
    ensures Good(Step(s, a))
    ensures s.isShutdown ==> Step(s, a).isShutdown && Step(s, a).taken == s.taken && Step(s, a).accepted == s.accepted
    ensures s.accepted <= Step(s, a).accepted && s.taken <= Step(s, a).taken
  {
    if a.Deliver? && s.delivering && s.awaiting && s.queue != [] {
      assert s.taken + s.queue == (s.taken + [s.queue[0]]) + s.queue[1..];
    }
  }

  /** Without a waiting consumer or a frame, looking into the queue changes nothing. */
  lemma LookInVain(s: Injector)
    requires !s.delivering && (!s.awaiting || s.queue == [])
    ensures Step(s.(delivering := true), Deliver) == s
  {
  }

  lemma LookAndTake(s: Injector)
    requires !s.delivering && s.awaiting && s.queue != []
    ensures Step(s.(delivering := true), Deliver)
            == s.(queue := s.queue[1..], awaiting := false, taken := s.taken + [s.queue[0]],
                  limits := s.limits + [s.maxSize], delivered := s.delivered + [Render(s.queue[0], s.maxSize)])
  {
    hide Render;
  }

  /** Both invariants hold after every interleaving of steps. */
  lemma {:induction false} RunKeepsGood(s: Injector, acts: seq<Action>)
    requires Good(s)
    ensures Good(Run(s, acts))
    ensures s.accepted <= Run(s, acts).accepted && s.taken <= Run(s, acts).taken
    ensures s.isShutdown ==>
              Run(s, acts).isShutdown && Run(s, acts).taken == s.taken && Run(s, acts).accepted == s.accepted
    decreases |acts|
  {
    if acts != [] {
      StepKeepsGood(s, acts[0]);
      RunKeepsGood(Step(s, acts[0]), acts[1..]);
    }
  }

  /** Starting fresh: before shutdown, delivered frames followed by queued frames are the accepted frames;
      after it, deliveries are a prefix of the accepted frames; no wakeup is ever lost. */
  lemma EveryRunIsGood(acts: seq<Action>)
    ensures var s := Run(FRESH, acts); NoLostWakeup(s) && Fifo(s)
  {
    RunKeepsGood(FRESH, acts);
  }

  lemma {:induction false} RunAppend(s: Injector, a: seq<Action>, b: seq<Action>)
    ensures Run(s, a + b) == Run(Run(s, a), b)
    decreases |a|
  {
    if a == [] {
      EmptyLeft(b);
    } else {
      assert (a + b)[1..] == a[1..] + b;
      RunAppend(Step(s, a[0]), a[1..], b);
    }
  }

  /** Nothing delivered once the shutdown has been executed, whatever was under way. */
  lemma NothingAfterShutdown(before: seq<Action>, after: seq<Action>)
    ensures Run(FRESH, before + [Shutdown] + after).taken == Run(FRESH, before).taken
    ensures Run(FRESH, before + [Shutdown] + after).accepted == Run(FRESH, before).accepted
    ensures Run(FRESH, before + [Shutdown] + after).delivered == Run(FRESH, before).delivered
  {
    var s := Run(FRESH, before);
    EveryRunIsGood(before);
    RunAppend(FRESH, before, [Shutdown] + after);
    Assoc(before, [Shutdown], after);
    var t := Step(s, Shutdown);
    StepKeepsGood(s, Shutdown);
    assert Run(s, [Shutdown] + after) == Run(t, after) by {
      assert ([Shutdown] + after)[1..] == after;
    }
    RunKeepsGood(t, after);
    DeliveredFollowsTaken(t, after);
  }

  lemma {:induction false} DeliveredFollowsTaken(s: Injector, acts: seq<Action>)
    requires Good(s) && s.isShutdown
    ensures Run(s, acts).delivered == s.delivered
    decreases |acts|
  {
    if acts != [] {
      StepKeepsGood(s, acts[0]);
      DeliveredFollowsTaken(Step(s, acts[0]), acts[1..]);
    }
  }

  /** The wakeup really leads to a delivery: letting the event loop act hands over the oldest frame. */
  lemma WakeupDelivers(acts: seq<Action>)
    ensures var s := Run(FRESH, acts);
            var t := Step(Step(s, Fire), Deliver);
            !s.isShutdown && s.awaiting && s.queue != [] ==>
              t.taken == s.taken + [s.queue[0]] && t.queue == s.queue[1..] && !t.awaiting
  {
    EveryRunIsGood(acts);
  }

  /** No request is lost: in every reachable state in which the consumer may ask, asking for a frame of at most `size`
      octets hands over the oldest queued frame, or leaves the consumer waiting if there is none. */
  lemma RequestIsServed(acts: seq<Action>, size: nat)
    ensures var s := Run(FRESH, acts);
            var t := Step(Step(s, Request(size)), Deliver);
            !s.isShutdown && !s.closed && !s.awaiting && !s.delivering ==>
              && (s.queue == [] ==> t.awaiting && t.maxSize == size && t.taken == s.taken && t.queue == [])
              && (s.queue != [] ==>
                    && t.taken == s.taken + [s.queue[0]] && t.queue == s.queue[1..] && !t.awaiting
                    && t.limits == s.limits + [size]
                    && |t.delivered| == |s.delivered| + 1 && t.delivered[|s.delivered|] == Render(s.queue[0], size))
  {
    EveryRunIsGood(acts);
  }

  /** A request after the shutdown closes the consumer's side instead. */
  lemma RequestAfterShutdownCloses(acts: seq<Action>, size: nat)
    ensures var s := Run(FRESH, acts); var t := Step(s, Request(size));
            s.isShutdown && !s.awaiting && !s.delivering ==> t.closed && !t.awaiting && t.delivered == s.delivered
  {
  }

  /** When the event loop has nothing left to do and the consumer still waits, everything accepted has
      been delivered. */
  lemma QuiescentMeansDelivered(acts: seq<Action>)
    ensures var s := Run(FRESH, acts);
            !s.isShutdown && s.awaiting && !s.triggered && !s.delivering ==> s.taken == s.accepted && s.queue == []
  {
    EveryRunIsGood(acts);
  }

  // ----- the object

  class FrameInjector {
    var isShutdown: bool
    var frameQueue: seq<FrameData>
    // Library side: the pending trigger and the consumer's request.
    var triggered: bool
    var awaiting: bool
    var closed: bool
    var fTo: array?<byte>
    var fMaxSize: nat
    var fFrameSize: nat
    var fNumTruncatedBytes: nat
    var fPresentationTime: (int, int)
    // History.
    ghost var accepted: seq<FrameData>
    ghost var taken: seq<FrameData>
    ghost var limits: seq<nat>
    ghost var delivered: seq<Delivery>

    ghost function State(): Injector
      reads this
    {
      Injector(frameQueue, isShutdown, triggered, awaiting, fMaxSize, false, closed, accepted, taken, limits, delivered)
    }

    ghost predicate Valid()
      reads this
    {
      && Good(State())
      && (awaiting ==> fTo != null && fMaxSize <= fTo.Length && fNumTruncatedBytes == 0)
    }

    constructor ()
      ensures Valid() && State() == FRESH
      ensures !isShutdown && frameQueue == [] && !triggered && !awaiting && !closed && accepted == [] && taken == []
    {
      isShutdown, frameQueue := false, [];
      triggered, awaiting, closed := false, false, false;
      fTo, fMaxSize, fFrameSize, fNumTruncatedBytes, fPresentationTime := null, 0, 0, 0, (0, 0);
      accepted, taken, limits, delivered := [], [], [], [];
    }

    method ShutdownSource()
      requires Valid()
      modifies this`isShutdown, this`frameQueue
      ensures Valid() && State() == Step(old(State()), Shutdown)
      ensures isShutdown && frameQueue == []
    {
      StepKeepsGood(State(), Shutdown);
      isShutdown := true;
      frameQueue := [];
    }

    method InjectFrame(frame: FrameData)
      requires Valid()
      modifies this`frameQueue, this`triggered, this`accepted
      ensures Valid() && State() == Step(old(State()), Inject(frame))
      ensures isShutdown ==> frameQueue == old(frameQueue) && triggered == old(triggered) && accepted == old(accepted)
      ensures !isShutdown ==>
                frameQueue == old(frameQueue) + [frame] && triggered && accepted == old(accepted) + [frame]
    {
      StepKeepsGood(State(), Inject(frame));
      if isShutdown {
        return;
      }
      frameQueue := frameQueue + [frame];
      triggered := true;
      accepted := accepted + [frame];
    }

    /** The body shared by requests and events, entered by the event loop. */
    method DeliverFrame()
      requires Fifo(State())
      requires awaiting ==> fTo != null && fMaxSize <= fTo.Length && fNumTruncatedBytes == 0
      modifies this, fTo
      ensures Valid() && State() == Step(old(State()).(delivering := true), Deliver)
      ensures fTo == old(fTo)
      ensures |delivered| > |old(delivered)| ==>
                && fTo != null && fFrameSize <= fTo.Length
                && delivered[|delivered| - 1]
                   == Delivery(fTo[..fFrameSize], fNumTruncatedBytes, fPresentationTime.0, fPresentationTime.1)
      ensures isShutdown == old(isShutdown) && triggered == old(triggered) && closed == old(closed)
      ensures fMaxSize == old(fMaxSize)
      ensures !old(awaiting) || old(frameQueue) == [] ==>
                && frameQueue == old(frameQueue) && awaiting == old(awaiting) && taken == old(taken)
      ensures old(awaiting) && old(frameQueue) != [] ==>
                && frameQueue == old(frameQueue)[1..] && !awaiting && taken == old(taken) + [old(frameQueue)[0]]
                && fTo != null && HoldsFrame(fTo[..], old(frameQueue)[0])
    {
      hide *;
      DeliveringIsGood(State());
      StepKeepsGood(State().(delivering := true), Deliver);
      StateMeans();
      if !awaiting {
        LookInVain(State());
        return;
      }
      if frameQueue == [] {
        LookInVain(State());
        return;
      }
      HandOver();
      StateMeans();
    }

    lemma StateMeans()
      ensures Valid() <==>
                Good(State()) && (awaiting ==> fTo != null && fMaxSize <= fTo.Length && fNumTruncatedBytes == 0)
      ensures State() == State().(queue := frameQueue, awaiting := awaiting, delivering := false)
    {
    }

    /** The oldest frame goes to the waiting consumer. */
    method HandOver()
      requires awaiting && frameQueue != [] && fTo != null && fMaxSize <= fTo.Length && fNumTruncatedBytes == 0
      modifies this, fTo
      ensures State() == Step(old(State()).(delivering := true), Deliver)
      ensures fTo == old(fTo) && isShutdown == old(isShutdown) && triggered == old(triggered) && closed == old(closed)
      ensures fMaxSize == old(fMaxSize) && !awaiting
      ensures frameQueue == old(frameQueue)[1..] && taken == old(taken) + [old(frameQueue)[0]]
      ensures HoldsFrame(fTo[..], old(frameQueue)[0])
      ensures fFrameSize <= fTo.Length
      ensures |delivered| == |old(delivered)| + 1
      ensures delivered[|delivered| - 1]
              == Delivery(fTo[..fFrameSize], fNumTruncatedBytes, fPresentationTime.0, fPresentationTime.1)
    {
      LookAndTake(State());
      hide Step;
      hide Render;
      hide HoldsFrame;
      var frame := frameQueue[0];
      frameQueue := frameQueue[1..];
      Output(frame);
      taken, limits := taken + [frame], limits + [fMaxSize];
      delivered := delivered + [Render(frame, fMaxSize)];
      awaiting := false;  // the library's afterGetting
    }

    /** The consumer's fields and memory hold as much of the frame as was asked for. */
    ghost predicate HoldsFrame(memory: seq<byte>, frame: FrameData)
      reads this`fFrameSize, this`fMaxSize, this`fNumTruncatedBytes, this`fPresentationTime
    {
      && fFrameSize <= |memory| && fFrameSize == (if |frame.data| <= fMaxSize then |frame.data| else fMaxSize)
      && memory[..fFrameSize] == frame.data[..fFrameSize]
      && fNumTruncatedBytes == |frame.data| - fFrameSize
      && (0 <= frame.stamp < TWO_TO_64 ==>
            fPresentationTime == (frame.stamp / 1_000_000_000, frame.stamp % 1_000_000_000 / 1000))
    }

    /** Filling the consumer's fields and memory. */
    method Output(frame: FrameData)
      requires fTo != null && fMaxSize <= fTo.Length && fNumTruncatedBytes == 0
      modifies this`fFrameSize, this`fNumTruncatedBytes, this`fPresentationTime, fTo
      ensures fFrameSize <= fTo.Length
      ensures Delivery(fTo[..fFrameSize], fNumTruncatedBytes, fPresentationTime.0, fPresentationTime.1)
              == Render(frame, fMaxSize)
      ensures HoldsFrame(fTo[..], frame)
    {
      if |frame.data| <= fMaxSize {
        fFrameSize := |frame.data|;
      } else {
        fFrameSize := fMaxSize;
        fNumTruncatedBytes := |frame.data| - fMaxSize;
      }
      var nsec := frame.stamp % TWO_TO_64;
      fPresentationTime := (nsec / 1_000_000_000, nsec % 1_000_000_000 / 1000);
      forall i | 0 <= i < fFrameSize {
        fTo[i] := frame.data[i];
      }
      assert fTo[..fFrameSize] == frame.data[..fFrameSize];
    }

    /** The library clears the trigger before it calls the handler. */
    method DeliverFrameEvent()
      requires Valid() && triggered
      modifies this, fTo
      ensures Valid() && State() == Step(Step(old(State()), Fire), Deliver)
      ensures fTo == old(fTo) && !triggered && isShutdown == old(isShutdown)
      ensures !old(awaiting) || old(frameQueue) == [] ==>
                frameQueue == old(frameQueue) && awaiting == old(awaiting) && taken == old(taken)
      ensures old(awaiting) && old(frameQueue) != [] ==>
                && frameQueue == old(frameQueue)[1..] && !awaiting && taken == old(taken) + [old(frameQueue)[0]]
                && fTo != null && HoldsFrame(fTo[..], old(frameQueue)[0])
    {
      hide HoldsFrame;
      triggered := false;
      DeliverFrame();
    }

    /** The library notes the request and clears the truncation count before it asks the source. */
    method GetNextFrame(to: array<byte>, maxSize: nat)
      requires Valid() && !awaiting && !closed && maxSize <= to.Length
      modifies this, to
      ensures Valid() && State() == Step(Step(old(State()), Request(maxSize)), Deliver)
      ensures isShutdown == old(isShutdown) && triggered == old(triggered)
      ensures isShutdown ==> closed && !awaiting && frameQueue == old(frameQueue) && taken == old(taken)
      ensures !isShutdown ==> !closed && fTo == to && fMaxSize == maxSize
      ensures !isShutdown && old(frameQueue) == [] ==> awaiting && frameQueue == [] && taken == old(taken)
      ensures !isShutdown && old(frameQueue) != [] ==>
                && !awaiting && frameQueue == old(frameQueue)[1..] && taken == old(taken) + [old(frameQueue)[0]]
                && HoldsFrame(to[..], old(frameQueue)[0])
    {
      hide HoldsFrame;
      if isShutdown {
        closed := true;
        return;
      }
      fTo, fMaxSize, fNumTruncatedBytes := to, maxSize, 0;
      awaiting := true;
      DeliverFrame();
    }
  }
}
