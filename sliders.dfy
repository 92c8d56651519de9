/**
 * The step tables behind the ISO and shutter sliders
 * (ui/components/CameraSliders.kt): filtering a fixed ascending table to the
 * device's range, snapping a value to the nearest step, and mapping between
 * slider positions in [0, 1] and shutter steps. Slider positions, Floats in
 * the source, are exact `real`s here.
 */
module CameraSliders {
  import opened Numerics

  /** The ISO values the slider can show, ascending. */
  const AllIsoSteps: seq<int> :=
    [50, 100, 200, 400, 800, 1600, 3200, 6400, 12800, 25600, 51200]

  /** The shutter speeds (nanoseconds) the slider can show, ascending. */
  const AllShutterSpeeds: seq<int> :=
    [31_250, 62_500, 125_000, 250_000, 500_000, 1_000_000, 2_000_000,
     4_000_000, 8_000_000, 16_666_666, 33_333_333, 66_666_666,
     125_000_000, 250_000_000, 500_000_000, 1_000_000_000]

  /** The shutter speed shown when there are no steps (1/60 s). */
  const DefaultShutterNs: int := 16_666_666

  predicate StrictlyAscending(s: seq<int>)
  {
    forall i, j :: 0 <= i < j < |s| ==> s[i] < s[j]
  }

  lemma AllIsoStepsAscending()
    ensures StrictlyAscending(AllIsoSteps)
  {
  }

  lemma AllShutterSpeedsAscending()
    ensures StrictlyAscending(AllShutterSpeeds)
  {
  }

  /**
   * Kotlin's `table.filter { it in first..last }`: the entries of the table
   * inside the closed range, in table order.
   */
  function FilterRange(table: seq<int>, first: int, last: int): (r: seq<int>)
    ensures forall x :: x in r <==> x in table && first <= x <= last
    ensures |r| <= |table|
  {
    if table == [] then []
    else if first <= table[0] <= last then [table[0]] + FilterRange(table[1..], first, last)
    else FilterRange(table[1..], first, last)
  }

  /** Filtering an ascending table keeps it ascending. */
  lemma {:induction false} FilterRangeAscending(table: seq<int>, first: int, last: int)
    requires StrictlyAscending(table)
    ensures StrictlyAscending(FilterRange(table, first, last))
  {
    if table != [] {
      var rest := FilterRange(table[1..], first, last);
      FilterRangeAscending(table[1..], first, last);
      if first <= table[0] <= last {
        var r := [table[0]] + rest;
        forall i, j | 0 <= i < j < |r| ensures r[i] < r[j] {
          if i > 0 {
            assert r[i] == rest[i - 1] && r[j] == rest[j - 1];
          } else {
            assert r[j] == rest[j - 1];
            assert rest[j - 1] in table[1..];
          }
        }
      }
    }
  }

  /**
   * Two strictly ascending lists with the same elements are equal: a strictly
   * ascending list is determined by its set of elements.
   */
  lemma {:induction false} AscendingDeterminedByElements(a: seq<int>, b: seq<int>)
    requires StrictlyAscending(a) && StrictlyAscending(b)
    requires forall x :: x in a <==> x in b
    ensures a == b
  {
    SameElementsBothEmpty(a, b);
    if a != [] {
      assert a[0] in a;
      assert b[0] in a;
      assert a[0] == b[0] by {
        var i :| 0 <= i < |a| && a[i] == b[0];
        var j :| 0 <= j < |b| && b[j] == a[0];
        assert a[0] <= a[i] && b[0] <= b[j];
      }
      forall x ensures x in a[1..] <==> x in b[1..] {
        if x in a[1..] {
          var i :| 1 <= i < |a| && a[i] == x;
          assert x != a[0];
          assert x in b;
        }
        if x in b[1..] {
          var j :| 1 <= j < |b| && b[j] == x;
          assert x != b[0];
          assert x in a;
        }
      }
      AscendingDeterminedByElements(a[1..], b[1..]);
      assert a == [a[0]] + a[1..];
      assert b == [b[0]] + b[1..];
    }
  }

  lemma SameElementsBothEmpty(a: seq<int>, b: seq<int>)
    requires forall x :: x in a ==> x in b
    requires forall x :: x in b ==> x in a
    ensures a == [] <==> b == []
  {
    if a != [] {
      var x := a[0];
      assert x in a;
      assert x in b;
    }
    if b != [] {
      var y := b[0];
      assert y in b;
      assert y in a;
    }
  }

  /** generateIsoSteps: the ISO entries inside the device's ISO range. */
  function GenerateIsoSteps(first: int, last: int): (r: seq<int>)
    ensures StrictlyAscending(r)
    ensures forall x :: x in r <==> x in AllIsoSteps && first <= x <= last
  {
    AllIsoStepsAscending();
    FilterRangeAscending(AllIsoSteps, first, last);
    FilterRange(AllIsoSteps, first, last)
  }

  /** generateShutterSteps: the shutter entries inside the exposure-time range. */
  function GenerateShutterSteps(first: int, last: int): (r: seq<int>)
    ensures StrictlyAscending(r)
    ensures forall x :: x in r <==> x in AllShutterSpeeds && first <= x <= last
  {
    AllShutterSpeedsAscending();
    FilterRangeAscending(AllShutterSpeeds, first, last);
    FilterRange(AllShutterSpeeds, first, last)
  }

  /**
   * The generated ISO steps are the only strictly ascending list made of
   * exactly the table entries inside the range.
   */
  lemma IsoStepsUnique(first: int, last: int, s: seq<int>)
    requires StrictlyAscending(s)
    requires forall x :: x in s <==> x in AllIsoSteps && first <= x <= last
    ensures s == GenerateIsoSteps(first, last)
  {
    AscendingDeterminedByElements(s, GenerateIsoSteps(first, last));
  }

  /** The same uniqueness for the generated shutter steps. */
  lemma ShutterStepsUnique(first: int, last: int, s: seq<int>)
    requires StrictlyAscending(s)
    requires forall x :: x in s <==> x in AllShutterSpeeds && first <= x <= last
    ensures s == GenerateShutterSteps(first, last)
  {
    AscendingDeterminedByElements(s, GenerateShutterSteps(first, last));
  }

  function Dist(a: int, b: int): nat
  {
    Abs(a - b)
  }

  /**
   * The index Kotlin's `minByOrNull { abs(it - v) }` settles on: a step at
   * least as near to v as every other, and strictly nearer than every step
   * before it (the first one wins a tie).
   */
  function NearestIndex(steps: seq<int>, v: int): (k: nat)
    requires |steps| > 0
    ensures k < |steps|
    ensures forall j :: 0 <= j < |steps| ==> Dist(steps[k], v) <= Dist(steps[j], v)
    ensures forall j :: 0 <= j < k ==> Dist(steps[j], v) > Dist(steps[k], v)
  {
    if |steps| == 1 then 0
    else
      var k' := NearestIndex(steps[1..], v);
      if Dist(steps[0], v) <= Dist(steps[1 + k'], v) then 0 else 1 + k'
  }

  /**
   * snapToNearestIso / snapToNearestShutter: the nearest step (first on a
   * tie), or the value itself when there are no steps.
   */
  function SnapToNearest(v: int, steps: seq<int>): (r: int)
    ensures |steps| == 0 ==> r == v
    ensures |steps| > 0 ==> r in steps
    ensures forall s :: s in steps ==> Dist(r, v) <= Dist(s, v)
    ensures |steps| > 0 ==> exists k :: 0 <= k < |steps| && steps[k] == r && forall j :: 0 <= j < k ==> Dist(steps[j], v) > Dist(r, v)
  {
    if |steps| == 0 then v else steps[NearestIndex(steps, v)]
  }

  /** snapToNearestIso (CameraSliders.kt) is SnapToNearest on ISO values. */
  function SnapToNearestIso(iso: int, steps: seq<int>): int
  {
    SnapToNearest(iso, steps)
  }

  /** snapToNearestShutter (CameraSliders.kt) is SnapToNearest on nanoseconds. */
  function SnapToNearestShutter(ns: int, steps: seq<int>): int
  {
    SnapToNearest(ns, steps)
  }

  /** A value that already is a step snaps to itself, so snapping is idempotent. */
  lemma SnapIdempotent(v: int, steps: seq<int>)
    ensures v in steps ==> SnapToNearest(v, steps) == v
    ensures SnapToNearest(SnapToNearest(v, steps), steps) == SnapToNearest(v, steps)
  {
    var r := SnapToNearest(v, steps);
    if |steps| > 0 {
      assert Dist(SnapToNearest(r, steps), r) <= Dist(r, r);
    }
  }

  /**
   * positionToShutter: the step at index `position * (size - 1)` truncated
   * and clamped to the list, or 1/60 s when there are no steps.
   */
  function PositionToShutter(position: real, steps: seq<int>): (r: int)
    ensures |steps| == 0 ==> r == DefaultShutterNs
    ensures |steps| > 0 ==> r in steps
  {
    if |steps| == 0 then DefaultShutterNs
    else steps[PositionIndex(position, (|steps| - 1) as real, |steps| - 1)]
  }

  /**
   * The index a position selects in a table whose last index is `hi`;
   * `span` is that last index as a float.
   */
  function PositionIndex(position: real, span: real, hi: nat): (k: int)
    ensures 0 <= k <= hi
  {
    ClampedTruncation(position * span, hi)
  }

  /** `x.toInt().coerceIn(0, hi)`. */
  function ClampedTruncation(x: real, hi: int): (k: int)
    requires 0 <= hi
    ensures 0 <= k <= hi
  {
    CoerceIn(FloatToInt(x), 0, hi)
  }

  lemma ClampedTruncationMonotone(x: real, y: real, hi: int)
    requires x <= y && 0 <= hi
    ensures ClampedTruncation(x, hi) <= ClampedTruncation(y, hi)
  {
    FloatToIntMonotone(x, y);
  }

  /** A larger slider position never gives a shorter shutter speed. */
  lemma PositionToShutterMonotone(p: real, q: real, steps: seq<int>)
    requires StrictlyAscending(steps)
    requires p <= q
    ensures PositionToShutter(p, steps) <= PositionToShutter(q, steps)
  {
    if |steps| > 0 {
      var span, hi := (|steps| - 1) as real, |steps| - 1;
      PositionIndexMonotone(p, q, span, hi);
      AscendingAt(steps, PositionIndex(p, span, hi), PositionIndex(q, span, hi));
    }
  }

  lemma PositionIndexMonotone(p: real, q: real, span: real, hi: nat)
    requires p <= q && 0.0 <= span
    ensures PositionIndex(p, span, hi) <= PositionIndex(q, span, hi)
  {
    ScaleMonotone(p, q, span);
    ClampedTruncationMonotone(p * span, q * span, hi);
  }

  lemma AscendingAt(steps: seq<int>, i: int, j: int)
    requires StrictlyAscending(steps)
    requires 0 <= i <= j < |steps|
    ensures steps[i] <= steps[j]
  {
    if i < j {
      assert steps[i] < steps[j];
    }
  }

  lemma ScaleMonotone(p: real, q: real, d: real)
    requires p <= q && 0.0 <= d
    ensures p * d <= q * d
  {
    assert q * d - p * d == (q - p) * d;
  }

  lemma FloatToIntMonotone(x: real, y: real)
    requires x <= y
    ensures FloatToInt(x) <= FloatToInt(y)
  {
  }

  lemma FractionInUnit(a: int, d: int)
    requires 0 <= a <= d && 0 < d
    ensures 0.0 <= a as real / d as real <= 1.0
  {
  }

  /**
   * Kotlin's `steps.indexOfFirst { it >= shutter }`: the first index whose
   * step is at least `shutter`, or -1 when there is none.
   */
  function IndexOfFirstAtLeast(steps: seq<int>, shutter: int): (i: int)
    ensures -1 <= i < |steps|
    ensures i >= 0 ==> steps[i] >= shutter
    ensures forall j :: 0 <= j < |steps| && (i == -1 || j < i) ==> steps[j] < shutter
  {
    if steps == [] then -1
    else if steps[0] >= shutter then 0
    else
      var i' := IndexOfFirstAtLeast(steps[1..], shutter);
      if i' == -1 then -1 else 1 + i'
  }

  /**
   * shutterToPosition: 0.5 for fewer than two steps; otherwise the index of
   * the first step at least `shutter` (the last index when none is) divided
   * by size - 1, so always a position in [0, 1].
   */
  function ShutterToPosition(shutter: int, steps: seq<int>): (p: real)
    ensures 0.0 <= p <= 1.0
    ensures |steps| <= 1 ==> p == 0.5
  {
    if |steps| <= 1 then 0.5
    else
      var found := IndexOfFirstAtLeast(steps, shutter);
      var index := if found >= 0 then found else |steps| - 1;
      FractionInUnit(index, |steps| - 1);
      index as real / (|steps| - 1) as real
  }

  /**
   * Round trip: the slider position of a step maps back to that step.
   */
  lemma PositionOfStepRoundTrip(steps: seq<int>, i: int)
    requires StrictlyAscending(steps)
    requires 0 <= i < |steps|
    ensures PositionToShutter(ShutterToPosition(steps[i], steps), steps) == steps[i]
  {
    if |steps| > 1 {
      var found := IndexOfFirstAtLeast(steps, steps[i]);
      assert found == i;
      var d := (|steps| - 1) as real;
      var p := i as real / d;
      assert ShutterToPosition(steps[i], steps) == p;
      assert p * d == i as real;
      assert FloatToInt(p * d) == i;
      assert ClampedTruncation(p * d, |steps| - 1) == i;
    }
  }
}
