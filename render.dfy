/**
 * Render preparation (the two chart loops of `main`): the zero-traffic
 * guard and the construction of one point per polling interval.
 */
module Render {
  import opened MachineInts

  /** One chart point: the tick index and the bytes counted in the interval ending there. */
  datatype Point = Point(tick: nat, bytes: uint64)

  /** The guard: a series is not drawn if it is empty or ends where it started. */
  predicate Skipped(a: seq<uint64>): (r: bool)
    ensures |a| <= 1 ==> r
    ensures !r ==> |a| >= 2 && a[0] != a[|a| - 1]
  {
    |a| == 0 || a[0] == a[|a| - 1]
  }

  /**
   * The points of a series: the `i`-th one sits at tick `i + 1` and holds
   * the wrapping `uint64` difference between the samples at `i + 1` and `i`.
   */
  function Deltas(a: seq<uint64>): (r: seq<Point>)
    requires |a| > 0
  {
    seq(|a| - 1, i requires 0 <= i < |a| - 1 => Point(i + 1, Sub64(a[i + 1], a[i])))
  }

  /** Rebuild the cumulative series from its first sample and its interval deltas. */
  function Replay(start: uint64, points: seq<Point>): (a: seq<uint64>)
    ensures |a| == |points| + 1 && a[0] == start
    decreases points
  {
    if points == [] then [start]
    else [start] + Replay(Add64(start, points[0].bytes), points[1..])
  }

  /** The deltas lose nothing: replaying them from the first sample gives back the series. */
  lemma ReplayDeltas(a: seq<uint64>)
    requires |a| > 0
    ensures Replay(a[0], Deltas(a)) == a
  {
    ReplayDeltasFrom(a, 0);
  }

  /** `ReplayDeltas` for the suffix of the series that starts at sample `k`. */
  lemma {:induction false} ReplayDeltasFrom(a: seq<uint64>, k: nat)
    requires k < |a|
    ensures Replay(a[k], Deltas(a)[k..]) == a[k..]
    decreases |a| - k
  {
    if k + 1 < |a| {
      var d := Deltas(a)[k..];
      assert d[0].bytes == Sub64(a[k + 1], a[k]);
      AddSub64(a[k + 1], a[k]);
      assert d[1..] == Deltas(a)[k + 1..];
      ReplayDeltasFrom(a, k + 1);
      assert a[k..] == [a[k]] + a[k + 1..];
    } else {
      assert Deltas(a)[k..] == [];
      assert a[k..] == [a[k]];
    }
  }

  /**
   * A counter that never went down yields its plain increments, and a
   * counter that went down yields a wrapped-around value 2^64 - (drop).
   */
  lemma DeltaMeaning(a: seq<uint64>, i: nat)
    requires i + 1 < |a|
    ensures |Deltas(a)| == |a| - 1 && Deltas(a)[i].tick == i + 1
    ensures a[i] <= a[i + 1] ==> Deltas(a)[i].bytes as int == a[i + 1] as int - a[i] as int
    ensures a[i + 1] < a[i] ==> Deltas(a)[i].bytes as int == TWO_64 - (a[i] as int - a[i + 1] as int)
  {
  }

  /** Every interval of the series carries no bytes. */
  ghost predicate NoTraffic(a: seq<uint64>)
    requires |a| > 0
  {
    forall i :: 0 <= i < |a| - 1 ==> Deltas(a)[i].bytes == 0
  }

  /** The counter never goes down over the series. */
  ghost predicate NonDecreasing(a: seq<uint64>)
  {
    forall i, j :: 0 <= i <= j < |a| ==> a[i] <= a[j]
  }

  /** With no traffic in any interval, every sample equals the first one. */
  lemma {:induction false} NoTrafficConstant(a: seq<uint64>, k: nat)
    requires |a| > 0 && NoTraffic(a) && k < |a|
    ensures a[k] == a[0]
  {
    if k > 0 {
      NoTrafficConstant(a, k - 1);
      assert Deltas(a)[k - 1].bytes == Sub64(a[k], a[k - 1]) == 0;
    }
  }

  /** A series that is drawn has at least one interval with traffic. */
  lemma DrawnHasTraffic(a: seq<uint64>)
    requires |a| > 0 && !Skipped(a)
    ensures exists i :: 0 <= i < |a| - 1 && Deltas(a)[i].bytes != 0
  {
    if !exists i :: 0 <= i < |a| - 1 && Deltas(a)[i].bytes != 0 {
      NoTrafficConstant(a, |a| - 1);
    }
  }

  /**
   * For a well-behaved cumulative counter, the guard skips exactly the
   * series without traffic in any interval.
   */
  lemma SkippedIffNoTraffic(a: seq<uint64>)
    requires |a| > 0 && NonDecreasing(a)
    ensures Skipped(a) <==> NoTraffic(a)
  {
    if NoTraffic(a) {
      NoTrafficConstant(a, |a| - 1);
    }
    if Skipped(a) {
      forall i | 0 <= i < |a| - 1 ensures Deltas(a)[i].bytes == 0 {
        assert a[0] <= a[i] <= a[i + 1] <= a[|a| - 1];
      }
    }
  }

  /**
   * Example: cumulative received bytes [1000, 1000, 2024, 2024] give one
   * chart of three points with 0, 1024 and 0 bytes, while a constant sent
   * series [500, 500, 500, 500] is not drawn.
   */
  lemma ChartExample()
    ensures !Skipped([1000, 1000, 2024, 2024])
    ensures Deltas([1000, 1000, 2024, 2024]) == [Point(1, 0), Point(2, 1024), Point(3, 0)]
    ensures Skipped([500, 500, 500, 500])
  {
    var d := Deltas([1000, 1000, 2024, 2024]);
    assert d[0] == Point(1, 0) && d[1] == Point(2, 1024) && d[2] == Point(3, 0);
  }

  /** A counter that drops from 3000 to 1000 yields a wrapped-around, not a negative, delta. */
  lemma CounterDropWraps()
    ensures Deltas([3000, 1000]) == [Point(1, (TWO_64 - 2000) as uint64)]
  {
    assert Deltas([3000, 1000])[0] == Point(1, (TWO_64 - 2000) as uint64);
  }

  /**
   * The loop that fills the preallocated point array of one chart; the
   * point count is one less than the sample count.
   */
  method BuildPoints(a: seq<uint64>) returns (points: array<Point>)
    requires |a| > 0
    ensures fresh(points)
    ensures points.Length == |a| - 1
    ensures forall i :: 0 <= i < points.Length ==> points[i] == Point(i + 1, Sub64(a[i + 1], a[i]))
    ensures points[..] == Deltas(a)
  {
    points := new Point[|a| - 1](_ => Point(0, 0));
    for i := 1 to |a|
      invariant forall j :: 0 <= j < i - 1 ==> points[j] == Point(j + 1, Sub64(a[j + 1], a[j]))
    {
      points[i - 1] := Point(i, Sub64(a[i], a[i - 1]));
    }
  }

  /** The charts drawn from one map of series: every port that passes the guard, with its points. */
  ghost predicate IsRendering(series: map<uint32, seq<uint64>>, charts: map<uint32, seq<Point>>)
  {
    && (forall k :: k in charts <==> k in series && !Skipped(series[k]))
    && (forall k :: k in charts ==> charts[k] == Deltas(series[k]))
  }

  /**
   * One of the two chart loops of `main`. The ports are visited in an
   * unspecified order, as Go's map iteration is; the result does not
   * depend on it.
   */
  method RenderAll(series: map<uint32, seq<uint64>>) returns (charts: map<uint32, seq<Point>>)
    ensures IsRendering(series, charts)
  {
    charts := map[];
    var todo := series.Keys;
    while todo != {}
      invariant todo <= series.Keys
      invariant forall k :: k in charts <==> k in series && k !in todo && !Skipped(series[k])
      invariant forall k :: k in charts ==> charts[k] == Deltas(series[k])
      decreases todo
    {
      var k :| k in todo;
      var a := series[k];
      if !Skipped(a) {
        var points := BuildPoints(a);
        charts := charts[k := points[..]];
      }
      todo := todo - {k};
    }
  }
}
