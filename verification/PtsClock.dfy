/** Presentation time stamps of the encoder: 1/300 s ticks forced to increase strictly. */
module PtsClock {

  /** C++ integer conversion drops the fraction, also for negative values. */
  function Truncate(num: int, den: int): int
    requires den > 0
  {
    if num >= 0 then num / den else -((-num) / den)
  }

  /** Elapsed nanoseconds in ticks of the encoder's time base. */
  function Ticks(elapsed: int): int {
    Truncate(300 * elapsed, 1_000_000_000)
  }

  /** What a tick is: a three-hundredth of a second of elapsed time, counted toward zero. */
  lemma TicksMeasure(elapsed: int)
    ensures elapsed >= 0 ==> Ticks(elapsed) * 1_000_000_000 <= 300 * elapsed < (Ticks(elapsed) + 1) * 1_000_000_000
    ensures elapsed <= 0 ==> (Ticks(elapsed) - 1) * 1_000_000_000 < 300 * elapsed <= Ticks(elapsed) * 1_000_000_000
    ensures Ticks(-elapsed) == -Ticks(elapsed)
  {
  }

  /** Raw ticks of images measured from a first stamp. */
  function RawFrom(first: int, stamps: seq<int>): (r: seq<int>)
    ensures |r| == |stamps|
  {
    seq(|stamps|, k requires 0 <= k < |stamps| => Ticks(stamps[k] - first))
  }

  /** Whole three-hundredths of a second, said of the stamps themselves. */
  ghost predicate Measure(first: int, stamps: seq<int>, raws: seq<int>) {
    && |raws| == |stamps|
    && (forall k :: 0 <= k < |stamps| && stamps[k] >= first ==>
          raws[k] * 1_000_000_000 <= 300 * (stamps[k] - first) < (raws[k] + 1) * 1_000_000_000)
    && (forall k :: 0 <= k < |stamps| && stamps[k] <= first ==>
          (raws[k] - 1) * 1_000_000_000 < 300 * (stamps[k] - first) <= raws[k] * 1_000_000_000)
  }

  lemma RawFromMeasures(first: int, stamps: seq<int>)
    ensures Measure(first, stamps, RawFrom(first, stamps))
  {
    forall k | 0 <= k < |stamps|
      ensures var t, e := RawFrom(first, stamps)[k], stamps[k] - first;
              && (e >= 0 ==> t * 1_000_000_000 <= 300 * e < (t + 1) * 1_000_000_000)
              && (e <= 0 ==> (t - 1) * 1_000_000_000 < 300 * e <= t * 1_000_000_000)
    {
      TicksMeasure(stamps[k] - first);
    }
  }

  /** There is no other sequence of whole three-hundredths. */
  lemma MeasureIsUnique(first: int, stamps: seq<int>, raws: seq<int>)
    requires Measure(first, stamps, raws)
    ensures raws == RawFrom(first, stamps)
  {
    RawFromMeasures(first, stamps);
    forall k | 0 <= k < |stamps| ensures raws[k] == RawFrom(first, stamps)[k] {
      TicksMeasure(stamps[k] - first);
      var t := Ticks(stamps[k] - first);
      assert RawFrom(first, stamps)[k] == t;
    }
  }

  lemma RawFromAppend(first: int, stamps: seq<int>, stamp: int)
    ensures RawFrom(first, stamps + [stamp]) == RawFrom(first, stamps) + [Ticks(stamp - first)]
  {
  }

  function RawTicks(stamps: seq<int>): (r: seq<int>)
    ensures |r| == |stamps|
    ensures stamps != [] ==> r[0] == 0
  {
    if stamps == [] then [] else RawFrom(stamps[0], stamps)
  }

  function NextPts(last: int, raw: int): int {
    if raw <= last then last + 1 else raw
  }

  /** The time stamps handed to the codec for a run of raw ticks, `last` being the one before. */
  function PtsRun(last: int, raws: seq<int>): (r: seq<int>)
    ensures |r| == |raws|
    decreases |raws|
  {
    if raws == [] then [] else
      var p := NextPts(last, raws[0]);
      [p] + PtsRun(p, raws[1..])
  }

  function LastPts(last: int, raws: seq<int>): int
    decreases |raws|
  {
    if raws == [] then last else LastPts(NextPts(last, raws[0]), raws[1..])
  }

  lemma {:induction false} PtsRunAppend(last: int, raws: seq<int>, raw: int)
    ensures PtsRun(last, raws + [raw]) == PtsRun(last, raws) + [NextPts(LastPts(last, raws), raw)]
    ensures LastPts(last, raws + [raw]) == NextPts(LastPts(last, raws), raw)
    decreases |raws|
  {
    if raws == [] {
      assert raws + [raw] == [raw] && [raw][1..] == [];
    } else {
      assert (raws + [raw])[1..] == raws[1..] + [raw];
      PtsRunAppend(NextPts(last, raws[0]), raws[1..], raw);
    }
  }

  ghost predicate StrictlyIncreasing(s: seq<int>) {
    forall j, k :: 0 <= j < k < |s| ==> s[j] < s[k]
  }

  ghost predicate Dominates(s: seq<int>, raws: seq<int>) {
    |s| == |raws| && forall k :: 0 <= k < |s| ==> raws[k] <= s[k]
  }

  /** Admissible stampings of `raws` above `last`. */
  ghost predicate Admissible(last: int, raws: seq<int>, s: seq<int>) {
    StrictlyIncreasing(s) && Dominates(s, raws) && (forall k :: 0 <= k < |s| ==> last < s[k])
  }

  lemma {:induction false} RunIsAdmissible(last: int, raws: seq<int>)
    ensures Admissible(last, raws, PtsRun(last, raws))
    decreases |raws|
  {
    if raws != [] {
      var p := NextPts(last, raws[0]);
      RunIsAdmissible(p, raws[1..]);
      var tail := PtsRun(p, raws[1..]);
      assert PtsRun(last, raws) == [p] + tail;
      forall j, k | 0 <= j < k < |raws| ensures ([p] + tail)[j] < ([p] + tail)[k] {
        assert ([p] + tail)[k] == tail[k - 1];
      }
      forall k | 0 <= k < |raws| ensures raws[k] <= ([p] + tail)[k] && last < ([p] + tail)[k] {
        if k > 0 { assert raws[k] == raws[1..][k - 1] && ([p] + tail)[k] == tail[k - 1]; }
      }
    }
  }

  lemma {:induction false} RunIsLeast(last: int, raws: seq<int>, s: seq<int>, k: nat)
    requires Admissible(last, raws, s) && k < |raws|
    ensures PtsRun(last, raws)[k] <= s[k]
    decreases k
  {
    var p := NextPts(last, raws[0]);
    if k > 0 {
      var t := s[1..];
      forall i, j | 0 <= i < j < |t| ensures t[i] < t[j] {
        assert t[i] == s[i + 1] && t[j] == s[j + 1];
      }
      forall i | 0 <= i < |t| ensures raws[1..][i] <= t[i] && p < t[i] {
        assert t[i] == s[i + 1] && s[0] < s[i + 1];
      }
      RunIsLeast(p, raws[1..], t, k - 1);
    }
  }

  /** For any stamps whatever: with the whole three-hundredths of a second elapsed since the first stamp as raw ticks,
      the emitted values start at 0, strictly increase, never fall behind the raw ticks, and are pointwise the least
      values that do so. */
  lemma PtsOptimal(stamps: seq<int>, raws: seq<int>)
    requires stamps != [] && Measure(stamps[0], stamps, raws)
    ensures raws == RawTicks(stamps)
    ensures var pts := PtsRun(-1, RawTicks(stamps));
            && pts[0] == 0
            && StrictlyIncreasing(pts) && Dominates(pts, raws)
            && (forall s: seq<int>, k: nat ::
                  StrictlyIncreasing(s) && Dominates(s, raws) && k < |s| ==> pts[k] <= s[k])
  {
    MeasureIsUnique(stamps[0], stamps, raws);
    RunIsAdmissible(-1, raws);
    forall s: seq<int>, k: nat | StrictlyIncreasing(s) && Dominates(s, raws) && k < |s|
      ensures PtsRun(-1, raws)[k] <= s[k]
    {
      assert forall i :: 0 <= i < |s| ==> s[0] <= s[i];
      RunIsLeast(-1, raws, s, k);
    }
  }

  /** The repair leaves a run alone exactly when it needs none. */
  lemma PtsUnchangedIff(stamps: seq<int>)
    ensures PtsRun(-1, RawTicks(stamps)) == RawTicks(stamps) <==> StrictlyIncreasing(RawTicks(stamps))
  {
    var raws := RawTicks(stamps);
    RunIsAdmissible(-1, raws);
    if StrictlyIncreasing(raws) {
      forall k: nat | k < |raws| ensures PtsRun(-1, raws)[k] == raws[k] {
        assert forall i :: 0 <= i < |raws| ==> raws[0] <= raws[i];
        RunIsLeast(-1, raws, raws, k);
      }
    }
  }

  /** Closed form: the k-th value is the greatest of raws[j] + k - j over j <= k (or of last + 1 + k). */
  lemma {:induction false} PtsClosedForm(last: int, raws: seq<int>, k: nat)
    requires k < |raws|
    ensures forall j: nat :: j <= k ==> raws[j] + k - j <= PtsRun(last, raws)[k]
    ensures last + 1 + k <= PtsRun(last, raws)[k]
    ensures PtsRun(last, raws)[k] == last + 1 + k
            || exists j: nat :: j <= k && PtsRun(last, raws)[k] == raws[j] + k - j
    decreases k
  {
    var p := NextPts(last, raws[0]);
    if k == 0 {
      assert p == last + 1 || p == raws[0] + 0 - 0;
    } else {
      var tail := raws[1..];
      PtsClosedForm(p, tail, k - 1);
      var v := PtsRun(last, raws)[k];
      assert v == PtsRun(p, tail)[k - 1];
      forall j: nat | j <= k ensures raws[j] + k - j <= v {
        if j > 0 { assert tail[j - 1] == raws[j]; }
      }
      if v == p + k {
        assert v == last + 1 + k || v == raws[0] + k - 0;
      } else {
        var j: nat :| j <= k - 1 && v == tail[j] + (k - 1) - j;
        assert v == raws[j + 1] + k - (j + 1);
      }
    }
  }
}
