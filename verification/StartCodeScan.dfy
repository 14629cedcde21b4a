/** Start codes of ITU-T Rec. H.264 Annex B, section B.1, and the skip-ahead search for them. */
module StartCodeScan {
  import opened Frames

  datatype StartCode = StartCode(pos: nat, length: nat)

  predicate Code3At(d: seq<byte>, i: nat) {
    i + 3 <= |d| && d[i] == 0 && d[i + 1] == 0 && d[i + 2] == 1
  }

  predicate Code4At(d: seq<byte>, i: nat) {
    i + 4 <= |d| && d[i] == 0 && d[i + 1] == 0 && d[i + 2] == 0 && d[i + 3] == 1
  }

  predicate CodeAt(d: seq<byte>, i: nat) {
    Code3At(d, i) || Code4At(d, i)
  }

  /** A code that really sits in the data, inside the window the search looks at. */
  predicate Genuine(d: seq<byte>, c: StartCode) {
    && c.pos + 4 < |d|
    && (c.length == 3 || c.length == 4)
    && (c.length == 3 ==> Code3At(d, c.pos))
    && (c.length == 4 ==> Code4At(d, c.pos))
  }

  /** Reference definition: try every position of the window in turn. */
  function Leftmost(d: seq<byte>, from: nat): (r: Option<StartCode>)
    ensures r.Some? ==> from <= r.value.pos && Genuine(d, r.value)
    ensures forall i: nat :: from <= i < (if r.Some? then r.value.pos else |d| - 4) ==> !CodeAt(d, i)
    decreases |d| - from
  {
    if from + 4 >= |d| then None
    else if Code3At(d, from) then Some(StartCode(from, 3))
    else if Code4At(d, from) then Some(StartCode(from, 4))
    else Leftmost(d, from + 1)
  }

  /** How far the search jumps from a position that does not hold a code. */
  function Advance(d: seq<byte>, i: nat): (n: nat)
    requires i + 4 < |d| && !CodeAt(d, i)
    ensures 1 <= n <= 4
  {
    if d[i + 2] == 1 then 3
    else if d[i + 3] == 1 then 4
    else if d[i + 3] != 0 then 4
    else if d[i + 2] != 0 then 3
    else if d[i + 1] != 0 then 2
    else 1
  }

  /** What the skip-ahead search reports when it stands at position `i`. */
  function Scan(d: seq<byte>, i: nat): (r: Option<StartCode>)
    ensures r.Some? ==> i <= r.value.pos && Genuine(d, r.value)
    decreases |d| - i
  {
    if i + 4 >= |d| then None
    else if Code3At(d, i) then Some(StartCode(i, 3))
    else if Code4At(d, i) then Some(StartCode(i, 4))
    else Scan(d, i + Advance(d, i))
  }

  /** One past the last position the search claims to have looked at. */
  function ScanLimit(d: seq<byte>, from: nat): int {
    var r := Scan(d, from);
    if r.Some? then r.value.pos else |d| - 4
  }

  method ScanForStartCode(data: seq<byte>, offset: nat) returns (found: bool, startCodePos: nat, startCodeLength: nat)
    requires |data| >= 4
    ensures found <==> Scan(data, offset).Some?
    ensures found ==> Scan(data, offset) == Some(StartCode(startCodePos, startCodeLength))
    ensures found ==> offset <= startCodePos && Genuine(data, StartCode(startCodePos, startCodeLength))
    ensures forall i: nat :: offset <= i < (if found then startCodePos else |data| - 4) ==> !Code4At(data, i)
  {
    startCodePos, startCodeLength := 0, 0;
    var i, last := offset, |data| - 4;
    while i < last
      invariant offset <= i
      invariant Scan(data, offset) == Scan(data, i)
      invariant forall k: nat :: offset <= k < i && k < last ==> !Code4At(data, k)
      decreases |data| - i
    {
      if data[i + 2] == 1 {
        if data[i] == 0 && data[i + 1] == 0 {
          return true, i, 3;
        } else {
          i := i + 3;
        }
      } else if data[i + 3] == 1 {
        if data[i] == 0 && data[i + 1] == 0 && data[i + 2] == 0 {
          return true, i, 4;
        } else {
          i := i + 4;
        }
      } else if data[i + 3] != 0 {
        i := i + 4;
      } else if data[i + 2] != 0 {
        i := i + 3;
      } else if data[i + 1] != 0 {
        i := i + 2;
      } else {
        i := i + 1;
      }
    }
    return false, 0, 0;
  }

  /** No four-octet code in front of the result is passed over, and a three-octet code can only be
      passed over when it follows a non-zero octet that the search also looked past. */
  lemma {:induction false} NothingElseSkipped(d: seq<byte>, from: nat, i: nat)
    requires from <= i < ScanLimit(d, from)
    ensures !Code4At(d, i)
    ensures Code3At(d, i) ==> from < i && d[i - 1] != 0
    decreases |d| - from
  {
    var next := from + Advance(d, from);
    if next <= i {
      NothingElseSkipped(d, next, i);
    }
  }

  // ----- where the search and the reference part company

  /** From a non-zero octet directly before a three-octet code the search jumps over that code. */
  predicate BlindSpot(d: seq<byte>, q: nat) {
    q + 5 < |d| && d[q] != 0 && Code3At(d, q + 1)
  }

  /** The search, before it reports anything, comes to stand on a blind spot. */
  predicate HitsBlindSpot(d: seq<byte>, i: nat)
    decreases |d| - i
  {
    && i + 4 < |d|
    && !CodeAt(d, i)
    && (BlindSpot(d, i) || HitsBlindSpot(d, i + Advance(d, i)))
  }

  /** A jump from anywhere but a blind spot passes over no code of the window. */
  lemma JumpIsSafe(d: seq<byte>, i: nat)
    requires i + 4 < |d| && !CodeAt(d, i) && !BlindSpot(d, i)
    ensures Leftmost(d, i) == Leftmost(d, i + Advance(d, i))
  {
    LeftmostSkips(d, i, i + Advance(d, i));
  }

  lemma {:induction false} LeftmostSkips(d: seq<byte>, i: nat, j: nat)
    requires i <= j
    requires forall k: nat :: i <= k < j && k + 4 < |d| ==> !CodeAt(d, k)
    ensures Leftmost(d, i) == Leftmost(d, j)
    decreases j - i
  {
    if i < j && i + 4 < |d| {
      assert !CodeAt(d, i);
      LeftmostSkips(d, i + 1, j);
    }
  }

  /** The search is the leftmost search exactly when it never comes to stand on a blind spot. */
  lemma {:induction false} ScanIsLeftmostIff(d: seq<byte>, from: nat)
    ensures Scan(d, from) == Leftmost(d, from) <==> !HitsBlindSpot(d, from)
    decreases |d| - from
  {
    if from + 4 < |d| && !CodeAt(d, from) {
      var next := from + Advance(d, from);
      if BlindSpot(d, from) {
        assert Leftmost(d, from) == Leftmost(d, from + 1);
        assert next == from + 4;
      } else {
        JumpIsSafe(d, from);
        ScanIsLeftmostIff(d, next);
      }
    }
  }

  /** Seen over all starting points: data without blind spots is exactly the data on which the search can
      be trusted wherever it starts. */
  lemma ScanIsLeftmostEverywhereIff(d: seq<byte>, lo: nat)
    ensures (forall o: nat | lo <= o :: Scan(d, o) == Leftmost(d, o)) <==> (forall q: nat | lo <= q :: !BlindSpot(d, q))
  {
    if forall q: nat | lo <= q :: !BlindSpot(d, q) {
      forall o: nat | lo <= o ensures Scan(d, o) == Leftmost(d, o) {
        NoBlindSpotNoHit(d, o);
        ScanIsLeftmostIff(d, o);
      }
    } else {
      var q: nat :| lo <= q && BlindSpot(d, q);
      ScanIsLeftmostIff(d, q);
      assert HitsBlindSpot(d, q);
    }
  }

  lemma {:induction false} NoBlindSpotNoHit(d: seq<byte>, from: nat)
    requires forall q: nat | from <= q :: !BlindSpot(d, q)
    ensures !HitsBlindSpot(d, from)
    decreases |d| - from
  {
    if from + 4 < |d| && !CodeAt(d, from) {
      NoBlindSpotNoHit(d, from + Advance(d, from));
    }
  }

  /** The concrete departure: a three-octet code behind one non-zero octet goes unreported. */
  lemma MissedCode()
    ensures var d: seq<byte> := [0xFF, 0, 0, 1, 0x65, 0x88];
            Scan(d, 0) == None && Leftmost(d, 0) == Some(StartCode(1, 3))
  {
    var d: seq<byte> := [0xFF, 0, 0, 1, 0x65, 0x88];
    assert BlindSpot(d, 0);
    assert Scan(d, 0) == Scan(d, 4) == None;
    assert Leftmost(d, 0) == Leftmost(d, 1);
  }

  /** The same loop with the one unsafe jump shortened to a single step is the leftmost search. */
  method ScanRepaired(data: seq<byte>, offset: nat) returns (r: Option<StartCode>)
    requires |data| >= 4
    ensures r == Leftmost(data, offset)
  {
    var i := offset;
    while i < |data| - 4
      invariant offset <= i
      invariant Leftmost(data, offset) == Leftmost(data, i)
      decreases |data| - i
    {
      if Code3At(data, i) { return Some(StartCode(i, 3)); }
      if Code4At(data, i) { return Some(StartCode(i, 4)); }
      if data[i + 2] != 1 && data[i + 3] == 1 && data[i + 1] == 0 && data[i + 2] == 0 {
        i := i + 1;
      } else {
        JumpIsSafe(data, i);
        i := i + Advance(data, i);
      }
    }
    return None;
  }
}
