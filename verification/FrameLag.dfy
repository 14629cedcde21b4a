/** How the subscriber reacts when decoding falls behind the incoming frames. */
module FrameLag {
  import opened Frames

  datatype DecodeFrames = All | Intra | Key | NoFrames

  const HALF: int := 500_000_000
  const ONE: int := 1_000_000_000
  const TWO: int := 2_000_000_000

  /** `warnings` are the thresholds warned about while one frame is handled; `level` is what the decoder is
      told last, before it gets the frame. */
  datatype Reaction = Reaction(oldLag: int, warnings: seq<int>, level: DecodeFrames)

  /** The first of the two separate decisions: the two upper thresholds. */
  function Upper(r: Reaction, lag: int): Reaction {
    if lag >= TWO then
      (if r.oldLag < TWO then Reaction(lag, r.warnings + [TWO], NoFrames) else r.(level := NoFrames))
    else if lag >= ONE then
      (if r.oldLag < ONE then Reaction(lag, r.warnings + [ONE], Key) else r.(level := Key))
    else r
  }

  /** The second decision, taken whatever the first one was. */
  function Lower(r: Reaction, lag: int): Reaction {
    if lag >= HALF then
      (if r.oldLag < HALF then Reaction(lag, r.warnings + [HALF], Intra) else r.(level := Intra))
    else Reaction(if lag == 0 then 0 else r.oldLag, r.warnings, All)
  }

  function React(oldLag: int, level: DecodeFrames, lag: int): Reaction {
    Lower(Upper(Reaction(oldLag, [], level), lag), lag)
  }

  /** One frame causes at most one warning, for a threshold not reached before; and however late the frame is,
      the decoder is never left on the two stricter levels: the second decision overrides the first. */
  lemma OneReaction(oldLag: int, level: DecodeFrames, lag: int)
    ensures var r := React(oldLag, level, lag);
            && |r.warnings| <= 1
            && (r.warnings != [] ==> oldLag < r.warnings[0] <= lag == r.oldLag)
            && r.level == (if lag >= HALF then Intra else All)
            && (lag != 0 ==> oldLag <= r.oldLag)
            && (lag == 0 ==> r.oldLag == 0)
            && (r.warnings == [] && lag != 0 ==> r.oldLag == oldLag)
            && (r.warnings == [] <==>
                  !(lag >= HALF && oldLag < (if lag >= TWO then TWO else if lag >= ONE then ONE else HALF)))
  {
  }

  /** The reactions to a run of frames. */
  function Reactions(oldLag: int, level: DecodeFrames, lags: seq<int>): Reaction
    decreases |lags|
  {
    if lags == [] then Reaction(oldLag, [], level)
    else
      var first := React(oldLag, level, lags[0]);
      var rest := Reactions(first.oldLag, first.level, lags[1..]);
      rest.(warnings := first.warnings + rest.warnings)
  }

  ghost predicate Rising(s: seq<int>) {
    forall i, j :: 0 <= i < j < |s| ==> s[i] < s[j]
  }

  /** Warnings about ever higher thresholds, all of them above `lo` and reached by `hi`. */
  ghost predicate Escalating(w: seq<int>, lo: int, hi: int) {
    && Rising(w) && lo <= hi
    && forall k :: 0 <= k < |w| ==> lo < w[k] <= hi && w[k] in {HALF, ONE, TWO}
  }

  lemma EscalatingConcat(v: seq<int>, w: seq<int>, lo: int, mid: int, hi: int)
    requires Escalating(v, lo, mid) && Escalating(w, mid, hi)
    ensures Escalating(v + w, lo, hi)
  {
    forall i, j | 0 <= i < j < |v + w| ensures (v + w)[i] < (v + w)[j] {
      if i < |v| <= j {
        assert v[i] <= mid < w[j - |v|];
      }
    }
  }

  /** As long as the decoder does not catch up completely, warnings only ever get more serious, so each of the
      three thresholds warns at most once. */
  lemma {:induction false} WarningsEscalate(oldLag: int, level: DecodeFrames, lags: seq<int>)
    requires forall k :: 0 <= k < |lags| ==> lags[k] != 0
    ensures var r := Reactions(oldLag, level, lags); Escalating(r.warnings, oldLag, r.oldLag)
    decreases |lags|
  {
    if lags != [] {
      hide Escalating;
      hide React;
      OneStepEscalates(oldLag, level, lags[0]);
      var first := React(oldLag, level, lags[0]);
      WarningsEscalate(first.oldLag, first.level, lags[1..]);
      var rest := Reactions(first.oldLag, first.level, lags[1..]);
      EscalatingConcat(first.warnings, rest.warnings, oldLag, first.oldLag, rest.oldLag);
    }
  }

  lemma OneStepEscalates(oldLag: int, level: DecodeFrames, lag: int)
    requires lag != 0
    ensures var r := React(oldLag, level, lag); Escalating(r.warnings, oldLag, r.oldLag)
  {
    OneReaction(oldLag, level, lag);
  }

  /** How many thresholds lie above a lag. */
  function Above(lag: int): nat {
    (if lag < HALF then 1 else 0) + (if lag < ONE then 1 else 0) + (if lag < TWO then 1 else 0)
  }

  lemma {:induction false} RisingBound(w: seq<int>, lag: int)
    requires Rising(w) && forall k :: 0 <= k < |w| ==> lag < w[k] && w[k] in {HALF, ONE, TWO}
    ensures |w| <= Above(lag)
    decreases |w|
  {
    if w != [] {
      var rest := w[1..];
      assert forall k :: 0 <= k < |rest| ==> rest[k] == w[k + 1];
      RisingBound(rest, w[0]);
    }
  }

  lemma AtMostThree(oldLag: int, level: DecodeFrames, lags: seq<int>)
    requires forall k :: 0 <= k < |lags| ==> lags[k] != 0
    ensures |Reactions(oldLag, level, lags).warnings| <= Above(oldLag) <= 3
  {
    WarningsEscalate(oldLag, level, lags);
    RisingBound(Reactions(oldLag, level, lags).warnings, oldLag);
  }

  /** The lag is measured on what is left in the queue. */
  function Lag(queue: seq<FrameData>): int {
    if queue == [] then 0 else queue[|queue| - 1].stamp - queue[0].stamp
  }

  datatype DecodeOutcome = Decoded | DecodingError | OtherError

  /** The drain loop of one callback: what it leaves in the queue, how it reacted, which frames reached the
      decoder and at which level, and how it ended. `outcomes` are the decoder's answers. */
  datatype Drain = Drain(queue: seq<FrameData>, reaction: Reaction, fed: seq<FrameData>, levels: seq<DecodeFrames>,
                         last: DecodeOutcome)

  function OutcomeAt(outcomes: seq<DecodeOutcome>, k: nat): DecodeOutcome {
    if k < |outcomes| then outcomes[k] else Decoded
  }

  function Drained(queue: seq<FrameData>, oldLag: int, level: DecodeFrames, outcomes: seq<DecodeOutcome>,
                   k: nat): (d: Drain)
    ensures |d.fed| <= |queue|
    decreases |queue|
  {
    if queue == [] then Drain([], Reaction(oldLag, [], level), [], [], Decoded)
    else
      var r := React(oldLag, level, Lag(queue[1..]));
      if OutcomeAt(outcomes, k) != Decoded then Drain(queue[1..], r, [queue[0]], [r.level], OutcomeAt(outcomes, k))
      else
        var rest := Drained(queue[1..], r.oldLag, r.level, outcomes, k + 1);
        Drain(rest.queue, rest.reaction.(warnings := r.warnings + rest.reaction.warnings),
              [queue[0]] + rest.fed, [r.level] + rest.levels, rest.last)
  }

  /** Every frame goes to the decoder once and in order; only an error leaves frames behind. */
  lemma {:induction false} DrainFeedsInOrder(queue: seq<FrameData>, oldLag: int, level: DecodeFrames,
      outcomes: seq<DecodeOutcome>, k: nat)
    ensures var d := Drained(queue, oldLag, level, outcomes, k);
            && d.fed + d.queue == queue
            && (d.last == Decoded ==> d.queue == [])
            && |d.levels| == |d.fed|
            && (forall i :: 0 <= i < |d.levels| ==> d.levels[i] == All || d.levels[i] == Intra)
            && (d.last == Decoded && queue != [] ==> d.reaction.oldLag == 0 && d.reaction.level == All)
    decreases |queue|
  {
    if queue != [] {
      OneReaction(oldLag, level, Lag(queue[1..]));
      var r := React(oldLag, level, Lag(queue[1..]));
      if OutcomeAt(outcomes, k) == Decoded {
        DrainFeedsInOrder(queue[1..], r.oldLag, r.level, outcomes, k + 1);
        assert queue == [queue[0]] + queue[1..];
        var rest := Drained(queue[1..], r.oldLag, r.level, outcomes, k + 1);
        Assoc([queue[0]], rest.fed, rest.queue);
      } else {
        assert queue == [queue[0]] + queue[1..];
      }
    }
  }

  /** The decoder's answers decide how far the drain goes: it ends with the first answer that is an error. */
  lemma {:induction false} FirstErrorEnds(queue: seq<FrameData>, oldLag: int, level: DecodeFrames,
                                          outcomes: seq<DecodeOutcome>, k: nat)
    ensures var d := Drained(queue, oldLag, level, outcomes, k);
            && (forall j :: k <= j < k + |d.fed| - 1 && j < |outcomes| ==> outcomes[j] == Decoded)
            && (d.fed != [] && k + |d.fed| <= |outcomes| ==> d.last == outcomes[k + |d.fed| - 1])
            && (d.fed == [] <==> queue == [])
    decreases |queue|
  {
    hide React;
    if queue != [] && OutcomeAt(outcomes, k) == Decoded {
      var r := React(oldLag, level, Lag(queue[1..]));
      FirstErrorEnds(queue[1..], r.oldLag, r.level, outcomes, k + 1);
    }
  }

  // ----- warnings over whole runs of the queue

  /** The lags measured while the first `n` frames are taken. */
  function Lags(queue: seq<FrameData>, n: nat): (r: seq<int>)
    requires n <= |queue|
    ensures |r| == n
  {
    if n == 0 then [] else [Lag(queue[1..])] + Lags(queue[1..], n - 1)
  }

  /** A drain reacts to the lags of the queue it drains. */
  lemma {:induction false} DrainReactsToLags(queue: seq<FrameData>, oldLag: int, level: DecodeFrames,
      outcomes: seq<DecodeOutcome>, k: nat)
    ensures var d := Drained(queue, oldLag, level, outcomes, k);
            d.reaction == Reactions(oldLag, level, Lags(queue, |d.fed|))
    decreases |queue|
  {
    hide React;
    if queue != [] {
      var lag := Lag(queue[1..]);
      var r := React(oldLag, level, lag);
      if OutcomeAt(outcomes, k) == Decoded {
        DrainReactsToLags(queue[1..], r.oldLag, r.level, outcomes, k + 1);
        var n := |Drained(queue[1..], r.oldLag, r.level, outcomes, k + 1).fed|;
        assert ([lag] + Lags(queue[1..], n))[1..] == Lags(queue[1..], n);
      } else {
        OneReaction(oldLag, level, lag);
        LoneReaction(oldLag, level, lag);
        assert Lags(queue, 1) == [lag] by { assert Lags(queue[1..], 0) == []; }
      }
    }
  }

  lemma LoneReaction(oldLag: int, level: DecodeFrames, lag: int)
    ensures Reactions(oldLag, level, [lag]) == React(oldLag, level, lag)
  {
    var r := React(oldLag, level, lag);
    assert [lag][1..] == [] && r.warnings + [] == r.warnings;
    assert Reactions(r.oldLag, r.level, []) == Reaction(r.oldLag, [], r.level);
  }

  /** What a reader of the log sees, and the moments at which the remembered lag is reset. */
  datatype Sign = Warned(threshold: int) | Reset

  function SignsOf(r: Reaction, lag: int): seq<Sign> {
    (if r.warnings == [] then [] else [Warned(r.warnings[0])]) + (if lag == 0 then [Reset] else [])
  }

  function Signs(oldLag: int, level: DecodeFrames, lags: seq<int>): seq<Sign>
    decreases |lags|
  {
    if lags == [] then []
    else
      var r := React(oldLag, level, lags[0]);
      SignsOf(r, lags[0]) + Signs(r.oldLag, r.level, lags[1..])
  }

  function Thresholds(signs: seq<Sign>): seq<int> {
    if signs == [] then []
    else (if signs[0].Warned? then [signs[0].threshold] else []) + Thresholds(signs[1..])
  }

  lemma {:induction false} ThresholdsAppend(a: seq<Sign>, b: seq<Sign>)
    ensures Thresholds(a + b) == Thresholds(a) + Thresholds(b)
  {
    if a == [] {
      assert a + b == b;
    } else {
      var head := if a[0].Warned? then [a[0].threshold] else [];
      assert (a + b)[1..] == a[1..] + b && (a + b)[0] == a[0];
      assert Thresholds(a + b) == head + Thresholds(a[1..] + b);
      ThresholdsAppend(a[1..], b);
      Assoc(head, Thresholds(a[1..]), Thresholds(b));
    }
  }

  lemma ResetShowsNothing(signs: seq<Sign>)
    ensures Thresholds(signs + [Reset]) == Thresholds(signs)
  {
    ThresholdsAppend(signs, [Reset]);
    assert [Reset][1..] == [] && Thresholds([Reset]) == [];
  }

  /** The signs of a drain show exactly its warnings. */
  lemma {:induction false} SignsShowWarnings(oldLag: int, level: DecodeFrames, lags: seq<int>)
    ensures Thresholds(Signs(oldLag, level, lags)) == Reactions(oldLag, level, lags).warnings
    decreases |lags|
  {
    if lags != [] {
      OneReaction(oldLag, level, lags[0]);
      var r := React(oldLag, level, lags[0]);
      hide React;
      ThresholdsAppend(SignsOf(r, lags[0]), Signs(r.oldLag, r.level, lags[1..]));
      FewSigns(r, lags[0]);
      SignsShowWarnings(r.oldLag, r.level, lags[1..]);
    }
  }

  lemma FewSigns(r: Reaction, lag: int)
    requires |r.warnings| <= 1
    ensures Thresholds(SignsOf(r, lag)) == r.warnings
  {
    assert Thresholds([]) == [];
    assert lag == 0 ==> Thresholds([Reset]) == [] by { assert [Reset][1..] == []; }
    if r.warnings != [] {
      var w := Warned(r.warnings[0]);
      assert SignsOf(r, lag)[1..] == if lag == 0 then [Reset] else [];
    }
  }

  /** The frame queue with all that the drain loop remembers. */
  datatype Watch = Watch(queue: seq<FrameData>, oldLag: int, level: DecodeFrames, signs: seq<Sign>)

  datatype LagAction =
    | Push(frame: FrameData)
    | Take(late: seq<FrameData>)               // one turn of the drain loop; `late` arrives before the lag is read
    | DrainAll(outcomes: seq<DecodeOutcome>)   // the whole loop without interruption
    | Clear
    | Restart                 // a new URL or a new subsession

  function LagStep(w: Watch, a: LagAction): Watch {
    match a
    case Push(f) => w.(queue := w.queue + [f])
    case Take(late) =>
      if w.queue == [] then w
      else
        var rest := w.queue[1..] + late;
        var r := React(w.oldLag, w.level, Lag(rest));
        Watch(rest, r.oldLag, r.level, w.signs + SignsOf(r, Lag(rest)))
    case DrainAll(outcomes) =>
      var d := Drained(w.queue, w.oldLag, w.level, outcomes, 0);
      Watch(d.queue, d.reaction.oldLag, d.reaction.level,
            w.signs + Signs(w.oldLag, w.level, Lags(w.queue, |d.fed|)))
    case Clear => w.(queue := [])
    case Restart => w.(oldLag := 0, signs := w.signs + [Reset])
  }

  lemma RestartAndClear(w: Watch)
    ensures LagStep(w, Restart) == Watch(w.queue, 0, w.level, w.signs + [Reset])
    ensures LagStep(w, Clear) == Watch([], w.oldLag, w.level, w.signs)
  {
  }

  /** A turn of the loop, in the stamps themselves: if the frames left in the queue span at least two seconds, one
      second or half a second, and the remembered lag is shorter, there is one warning about the longest of these
      spans and the span is remembered; the decoder gets all frames exactly if they span less than half a second. */
  lemma LateFramesWarn(w: Watch, late: seq<FrameData>)
    requires w.queue != []
    ensures var v, rest := LagStep(w, Take(late)), w.queue[1..] + late;
            var span := if rest == [] then 0 else rest[|rest| - 1].stamp - rest[0].stamp;
            && v.queue == rest
            && (span >= 2_000_000_000 && w.oldLag < 2_000_000_000 ==>
                  v.signs == w.signs + [Warned(2_000_000_000)] && v.oldLag == span)
            && (1_000_000_000 <= span < 2_000_000_000 && w.oldLag < 1_000_000_000 ==>
                  v.signs == w.signs + [Warned(1_000_000_000)] && v.oldLag == span)
            && (500_000_000 <= span < 1_000_000_000 && w.oldLag < 500_000_000 ==>
                  v.signs == w.signs + [Warned(500_000_000)] && v.oldLag == span)
            && (span == 0 ==> v.oldLag == 0 && v.signs == w.signs + [Reset])
            && v.level == (if span >= 500_000_000 then Intra else All)
  {
  }

  function LagRun(w: Watch, acts: seq<LagAction>): Watch
    decreases |acts|
  {
    if acts == [] then w else LagRun(LagStep(w, acts[0]), acts[1..])
  }

  function Takes(n: nat): seq<LagAction> {
    if n == 0 then [] else [Take([])] + Takes(n - 1)
  }

  /** An uninterrupted drain is as many turns of the loop as it decodes frames. */
  lemma DrainIsTakes(w: Watch, outcomes: seq<DecodeOutcome>)
    ensures LagStep(w, DrainAll(outcomes)) == LagRun(w, Takes(|Drained(w.queue, w.oldLag, w.level, outcomes, 0).fed|))
  {
    hide Drained;
    DrainedIsTakes(w, outcomes, 0);
  }

  lemma {:induction false} DrainedIsTakes(w: Watch, outcomes: seq<DecodeOutcome>, k: nat)
    ensures var d := Drained(w.queue, w.oldLag, w.level, outcomes, k);
            LagRun(w, Takes(|d.fed|)) == Watch(d.queue, d.reaction.oldLag, d.reaction.level,
                                               w.signs + Signs(w.oldLag, w.level, Lags(w.queue, |d.fed|)))
    decreases |w.queue|
  {
    hide React;
    hide SignsOf;
    if w.queue == [] {
      assert w.signs + [] == w.signs;
    } else {
      var rest, lag := w.queue[1..], Lag(w.queue[1..]);
      assert rest + [] == rest;
      var r := React(w.oldLag, w.level, lag);
      var v := LagStep(w, Take([]));
      assert v == Watch(rest, r.oldLag, r.level, w.signs + SignsOf(r, lag));
      var n := |Drained(w.queue, w.oldLag, w.level, outcomes, k).fed|;
      assert Takes(n)[0] == Take([]) && Takes(n)[1..] == Takes(n - 1);
      assert ([lag] + Lags(rest, n - 1))[1..] == Lags(rest, n - 1);
      if OutcomeAt(outcomes, k) == Decoded {
        DrainedIsTakes(v, outcomes, k + 1);
        Assoc(w.signs, SignsOf(r, lag), Signs(r.oldLag, r.level, Lags(rest, n - 1)));
      } else {
        assert Signs(r.oldLag, r.level, []) == [] && SignsOf(r, lag) + [] == SignsOf(r, lag);
      }
    }
  }

  /** A warning that is not about a higher threshold than an earlier one comes after a reset. */
  ghost predicate Ordered(signs: seq<Sign>) {
    forall i, j ::
      0 <= i < j < |signs| && signs[i].Warned? && signs[j].Warned? && signs[j].threshold <= signs[i].threshold
      ==> exists k :: i < k < j && signs[k] == Reset
  }

  /** Warnings are about the three thresholds, and those since the last reset are about lags that have been reached. */
  ghost predicate Reached(signs: seq<Sign>, oldLag: int) {
    forall i :: 0 <= i < |signs| && signs[i].Warned? ==>
      && signs[i].threshold in {HALF, ONE, TWO}
      && (signs[i].threshold <= oldLag || exists k :: i < k < |signs| && signs[k] == Reset)
  }

  lemma OrderedAppend(signs: seq<Sign>, e: Sign)
    requires Ordered(signs)
    requires forall i :: 0 <= i < |signs| && signs[i].Warned? && e.Warned? && e.threshold <= signs[i].threshold
               ==> exists k :: i < k < |signs| && signs[k] == Reset
    ensures Ordered(signs + [e])
  {
    var more := signs + [e];
    forall i, j | 0 <= i < j < |more| && more[i].Warned? && more[j].Warned? && more[j].threshold <= more[i].threshold
      ensures exists k :: i < k < j && more[k] == Reset
    {
      var k :| i < k < j && signs[k] == Reset;
      assert more[k] == Reset;
    }
  }

  lemma WarnKeepsReached(signs: seq<Sign>, oldLag: int, t: int, lag: int)
    requires Reached(signs, oldLag) && oldLag < t <= lag && t in {HALF, ONE, TWO}
    ensures Reached(signs + [Warned(t)], lag)
  {
    var more := signs + [Warned(t)];
    forall i | 0 <= i < |signs| && signs[i].Warned?
      ensures signs[i].threshold <= lag || exists k :: i < k < |more| && more[k] == Reset
    {
      if signs[i].threshold > oldLag {
        var k :| i < k < |signs| && signs[k] == Reset;
        assert more[k] == Reset;
      }
    }
  }

  lemma WarnKeepsOrder(signs: seq<Sign>, oldLag: int, t: int, lag: int)
    requires Ordered(signs) && Reached(signs, oldLag) && oldLag < t <= lag && t in {HALF, ONE, TWO}
    ensures Ordered(signs + [Warned(t)]) && Reached(signs + [Warned(t)], lag)
  {
    hide Ordered;
    OrderedAppend(signs, Warned(t));
    hide Reached;
    WarnKeepsReached(signs, oldLag, t, lag);
  }

  lemma ResetKeepsOrder(signs: seq<Sign>, oldLag: int, lag: int)
    requires Ordered(signs) && Reached(signs, oldLag)
    ensures Ordered(signs + [Reset]) && Reached(signs + [Reset], lag)
  {
    hide Ordered;
    OrderedAppend(signs, Reset);
    assert (signs + [Reset])[|signs|] == Reset;
  }

  lemma ReactionKeepsOrder(signs: seq<Sign>, oldLag: int, level: DecodeFrames, lag: int)
    requires Ordered(signs) && Reached(signs, oldLag)
    ensures var r := React(oldLag, level, lag);
            Ordered(signs + SignsOf(r, lag)) && Reached(signs + SignsOf(r, lag), r.oldLag)
  {
    OneReaction(oldLag, level, lag);
    var r := React(oldLag, level, lag);
    assert r.warnings != [] ==> r.warnings[0] in {HALF, ONE, TWO};
    hide React;
    hide Ordered;
    hide Reached;
    if r.warnings != [] {
      WarnKeepsOrder(signs, oldLag, r.warnings[0], lag);
      assert SignsOf(r, lag) == [Warned(r.warnings[0])];
    } else if lag == 0 {
      ResetKeepsOrder(signs, oldLag, r.oldLag);
      assert SignsOf(r, lag) == [Reset];
    } else {
      assert signs + SignsOf(r, lag) == signs;
    }
  }

  lemma {:induction false} SignsKeepOrder(signs: seq<Sign>, oldLag: int, level: DecodeFrames, lags: seq<int>)
    requires Ordered(signs) && Reached(signs, oldLag)
    ensures Ordered(signs + Signs(oldLag, level, lags))
    ensures Reached(signs + Signs(oldLag, level, lags), Reactions(oldLag, level, lags).oldLag)
    decreases |lags|
  {
    hide Ordered;
    hide Reached;
    hide React;
    hide SignsOf;
    if lags == [] {
      assert signs + [] == signs;
    } else {
      var r := React(oldLag, level, lags[0]);
      ReactionKeepsOrder(signs, oldLag, level, lags[0]);
      SignsKeepOrder(signs + SignsOf(r, lags[0]), r.oldLag, r.level, lags[1..]);
      Assoc(signs, SignsOf(r, lags[0]), Signs(r.oldLag, r.level, lags[1..]));
    }
  }

  lemma StepKeepsOrder(w: Watch, a: LagAction)
    requires Ordered(w.signs) && Reached(w.signs, w.oldLag)
    ensures Ordered(LagStep(w, a).signs) && Reached(LagStep(w, a).signs, LagStep(w, a).oldLag)
  {
    hide Ordered;
    hide Reached;
    hide Drained;
    hide Signs;
    hide React;
    match a
    case Take(late) =>
      if w.queue != [] {
        ReactionKeepsOrder(w.signs, w.oldLag, w.level, Lag(w.queue[1..] + late));
      }
    case DrainAll(outcomes) =>
      var d := Drained(w.queue, w.oldLag, w.level, outcomes, 0);
      DrainReactsToLags(w.queue, w.oldLag, w.level, outcomes, 0);
      SignsKeepOrder(w.signs, w.oldLag, w.level, Lags(w.queue, |d.fed|));
    case Restart => ResetKeepsOrder(w.signs, w.oldLag, 0);
    case _ =>
  }

  lemma {:induction false} RunKeepsOrder(w: Watch, acts: seq<LagAction>)
    requires Ordered(w.signs) && Reached(w.signs, w.oldLag)
    ensures Ordered(LagRun(w, acts).signs) && Reached(LagRun(w, acts).signs, LagRun(w, acts).oldLag)
    decreases |acts|
  {
    hide Ordered;
    hide Reached;
    hide LagStep;
    if acts != [] {
      StepKeepsOrder(w, acts[0]);
      RunKeepsOrder(LagStep(w, acts[0]), acts[1..]);
    }
  }

  /** However pushes, turns of the drain loop, clearings and restarts interleave: two warnings of which the
      later is not about a higher threshold have a reset between them, so each threshold warns at most once between
      resets, and no stretch without a reset holds more than three warnings. */
  lemma WarningsOverRuns(level: DecodeFrames, acts: seq<LagAction>, i: nat, j: nat)
    requires i <= j <= |LagRun(Watch([], 0, level, []), acts).signs|
    ensures var signs := LagRun(Watch([], 0, level, []), acts).signs;
            && Ordered(signs)
            && (Reset !in signs[i..j] ==> j - i <= 3)
  {
    RunKeepsOrder(Watch([], 0, level, []), acts);
    var w := LagRun(Watch([], 0, level, []), acts);
    if Reset !in w.signs[i..j] {
      AtMostThreeSigns(w.signs, w.oldLag, i, j);
    }
  }

  lemma AtMostThreeSigns(signs: seq<Sign>, oldLag: int, i: nat, j: nat)
    requires i <= j <= |signs| && Ordered(signs) && Reached(signs, oldLag) && Reset !in signs[i..j]
    ensures j - i <= 3
  {
    var part := signs[i..j];
    forall k | 0 <= k < |part| ensures part[k].Warned? && part[k] == signs[i + k] {
      assert part[k] != Reset;
    }
    assert forall k :: i <= k < j ==> signs[k] == part[k - i];
    var w := seq(|part|, k requires 0 <= k < |part| => part[k].threshold);
    forall a, b | 0 <= a < b < |w| ensures w[a] < w[b] {
      assert signs[i + a] == part[a] && signs[i + b] == part[b];
    }
    RisingBound(w, 0);
  }
}
