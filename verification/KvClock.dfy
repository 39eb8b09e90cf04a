/** What the clock of the snapshots does to the trend: when two clocks can be told apart by the
    returned value, and what a timestamp of 0.0, which counts as missing, does to a line. */
module KvClock {
  import opened Basics
  import opened Sums
  import opened KvSlope

  // ---- Which times a trend can tell apart ----

  /** The returned value, from the times and the usages. */
  function Trend(x: seq<real>, y: seq<real>): real
    requires |x| == |y| >= 2
  {
    if Denominator(x) < SMALL then Slope(x, y) else RoundTo4(Slope(x, y))
  }

  lemma TrendOfSnapshots(snapshots: seq<Snapshot>)
    requires |snapshots| >= 2
    ensures |Times(snapshots)| == |Usages(snapshots)| == |snapshots|
    ensures CalculateKvSlope(snapshots) == Trend(Times(snapshots), Usages(snapshots))
  {
    DenominatorSign(Times(snapshots));
    hide Denominator, Slope, RoundTo4;
  }

  /** `u` is `x` on another clock. */
  ghost predicate SameGaps(x: seq<real>, u: seq<real>) {
    |x| == |u| && forall i | 0 <= i < |x| :: u[i] - u[0] == x[i] - x[0]
  }

  lemma PairsCommute(x: seq<real>, y: seq<real>)
    requires |x| == |y|
    ensures Pairs(x, y) == Pairs(y, x)
  {
    SpreadIsPairs(x, y);
    SpreadIsPairs(y, x);
    assert Dots(x, y) == Dots(y, x);
    hide RealSumUpTo;
    SpreadCommutes(|x| as real, RealSumUpTo(x, |x|), RealSumUpTo(y, |x|), Dot(x, y, |x|));
  }

  lemma SpreadCommutes(n: real, sx: real, sy: real, d: real)
    ensures SpreadOf(n, sx, sy, d) == SpreadOf(n, sy, sx, d)
  {
  }

  lemma RoundedApart(a: real, b: real)
    requires a - b == 1.0
    ensures RoundTo4(a) != RoundTo4(b)
  {
    Nearest(a, 0);
    Nearest(b, 0);
    hide RoundTo4;
  }

  lemma OneApart(s: real, h: real, uu: real, ux: real, uy: real)
    requires Product(s, uu) == uy == h * ux && uu > 0.0 && uu != ux && h == uu / (uu - ux)
    ensures h - s == 1.0
  {
    DivideBack(uu, uu - ux);
    assert h * uu - h * ux == uu;
    assert (h - s - 1.0) * uu == 0.0;
  }

  /** Usage that grows along `x`, steeply enough, is rounded differently over `u`. */
  lemma ToldApart(x: seq<real>, u: seq<real>) returns (y: seq<real>)
    requires |x| == |u| >= 2 && Denominator(x) >= SMALL && Denominator(u) >= SMALL && Pairs(u, x) != Pairs(u, u)
    ensures |y| == |x| && Trend(x, y) != Trend(u, y)
  {
    var h := Pairs(u, u) / (Pairs(u, u) - Pairs(u, x));
    y := Scaled(h, x);
    OnScaledLine(h, x);
    hide *;
    SlopeOnLine(x, y, h, 0.0);
    SlopeOfPairs(u, y);
    PairsOnLine(u, x, y, h, 0.0);
    OneApart(Slope(u, y), h, Pairs(u, u), Pairs(u, x), Pairs(u, y));
    RoundedApart(h, Slope(u, y));
    RegressionTrend(x, y);
    RegressionTrend(u, y);
  }

  lemma OnScaledLine(h: real, x: seq<real>)
    ensures OnLine(x, Scaled(h, x), h, 0.0)
  {
  }

  lemma RegressionTrend(x: seq<real>, y: seq<real>)
    requires |x| == |y| >= 2 && Denominator(x) >= SMALL
    ensures Trend(x, y) == RoundTo4(Slope(x, y))
  {
  }

  lemma FallbackTrend(x: seq<real>, y: seq<real>)
    requires |x| == |y| >= 2 && Denominator(x) < SMALL
    ensures Trend(x, y) == y[|y| - 1] - y[0]
  {
    FallbackIsPlainChange(x, y);
  }

  /** The fallback does not round, which gives it away. */
  lemma FallbackToldApart(x: seq<real>, u: seq<real>) returns (y: seq<real>)
    requires |x| == |u| >= 2 && Denominator(x) < SMALL <= Denominator(u)
    ensures |y| == |x| && Trend(x, y) != Trend(u, y)
  {
    y := seq(|x|, i requires 0 <= i < |x| => if i == 0 then 0.0 else 0.00005);
    hide Denominator, Slope, Trend, RoundHalfEven;
    FallbackTrend(x, y);
    RegressionTrend(u, y);
    var k := RoundHalfEven(Slope(u, y) * 10000.0);
    assert RoundTo4(Slope(u, y)) == k as real / 10000.0;
  }

  lemma SameGapsIsShift(x: seq<real>, u: seq<real>)
    requires |x| > 0 && |u| > 0
    ensures SameGaps(x, u) <==> u == Shift(x, u[0] - x[0])
  {
  }

  lemma ShiftedTrend(x: seq<real>, c: real, y: seq<real>)
    requires |x| == |y| >= 2
    ensures Trend(Shift(x, c), y) == Trend(x, y)
  {
    assert Shift(y, 0.0) == y;
    hide Denominator, Slope, RoundTo4;
    SlopeIgnoresShifts(x, y, c, 0.0);
    DenominatorOfShift(x, c);
  }

  /** Two regressions that agree on usage along `x` and on usage along `u` are over the same
      times, up to the clock. */
  lemma SamePairsSameGaps(x: seq<real>, u: seq<real>)
    requires |x| == |u| >= 2 && Pairs(u, x) == Pairs(u, u) && Pairs(x, u) == Pairs(x, x)
    ensures SameGaps(x, u)
  {
    var r := Residuals(x, u, 1.0, 0.0);
    hide Pairs;
    PairsCommute(x, u);
    PairsOfResiduals(x, u, 1.0, 0.0, r, -2.0, 1.0);
    PairsOfSelf(r);
    forall i | 0 <= i < |x|
      ensures u[i] - u[0] == x[i] - x[0]
    {
      ResidualAt(x, u, 1.0, 0.0, i);
      ResidualAt(x, u, 1.0, 0.0, 0);
      assert i > 0 ==> r[0] == r[i];
    }
  }

  /** The trend of every usage is the same over `x` and over `u` if and only if one is the other
      on another clock, or both are so narrow that only first and last usage count. */
  lemma TimesToldApartExactly(x: seq<real>, u: seq<real>)
    requires |x| == |u| >= 2
    ensures (forall y: seq<real> | |y| == |x| :: Trend(x, y) == Trend(u, y))
       <==> SameGaps(x, u) || (Denominator(x) < SMALL && Denominator(u) < SMALL)
  {
    hide Denominator, Trend, Pairs, SameGaps, Shift;
    if SameGaps(x, u) {
      SameGapsIsShift(x, u);
      forall y: seq<real> | |y| == |x|
        ensures Trend(x, y) == Trend(u, y)
      {
        ShiftedTrend(x, u[0] - x[0], y);
      }
    } else if Denominator(x) < SMALL && Denominator(u) < SMALL {
      forall y: seq<real> | |y| == |x|
        ensures Trend(x, y) == Trend(u, y)
      {
        FallbackTrend(x, y);
        FallbackTrend(u, y);
      }
    } else {
      var y := SomeUsage(x, u);
      assert |y| == |x| && Trend(x, y) != Trend(u, y);
    }
  }

  lemma SomeUsage(x: seq<real>, u: seq<real>) returns (y: seq<real>)
    requires |x| == |u| >= 2 && !SameGaps(x, u) && !(Denominator(x) < SMALL && Denominator(u) < SMALL)
    ensures |y| == |x| && Trend(x, y) != Trend(u, y)
  {
    hide Denominator, Trend, Pairs, SameGaps;
    if Denominator(x) < SMALL {
      y := FallbackToldApart(x, u);
    } else if Denominator(u) < SMALL {
      y := FallbackToldApart(u, x);
    } else if Pairs(u, x) != Pairs(u, u) {
      y := ToldApart(x, u);
    } else if Pairs(x, u) != Pairs(x, x) {
      y := ToldApart(u, x);
    } else {
      SamePairsSameGaps(x, u);
      y := [];
    }
  }

  // ---- Two clocks ----

  /** The same snapshots on a clock that shows `c` more. */
  function OnOtherClock(snapshots: seq<Snapshot>, c: real): seq<Snapshot>
    requires forall s | s in snapshots :: s.timestamp.Some?
  {
    seq(|snapshots|, i requires 0 <= i < |snapshots| => snapshots[i].(timestamp := Some(snapshots[i].timestamp.value + c)))
  }

  /** The clock's zero does not matter, as long as no timestamp behind the first is 0.0 on
      either clock. */
  lemma ClockDoesNotMatter(snapshots: seq<Snapshot>, c: real)
    requires |snapshots| >= 2 && forall s | s in snapshots :: s.timestamp.Some?
    requires forall i | 0 < i < |snapshots| ::
      snapshots[i].timestamp.value != 0.0 && snapshots[i].timestamp.value + c != 0.0
    ensures CalculateKvSlope(OnOtherClock(snapshots, c)) == CalculateKvSlope(snapshots)
  {
    var x, y := Times(snapshots), Usages(snapshots);
    var other := OnOtherClock(snapshots, c);
    assert Times(other) == Shift(x, c) by {
      assert forall i | 0 <= i < |snapshots| :: snapshots[i] in snapshots;
    }
    assert Usages(other) == y == Shift(y, 0.0);
    hide Slope, Denominator, RoundTo4, Times, Usages, Shift;
    SlopeIgnoresShifts(x, y, c, 0.0);
    DenominatorOfShift(x, c);
  }

  /** A window of snapshots taken at the times `ts`. */
  function Window(ts: seq<real>, us: seq<real>): (snapshots: seq<Snapshot>)
    requires |ts| == |us|
    ensures |snapshots| == |ts|
  {
    seq(|ts|, i requires 0 <= i < |ts| => Snapshot(Some(ts[i]), Some(us[i])))
  }

  /** The times such a window is read at. */
  function Used(ts: seq<real>): (x: seq<real>)
    ensures |x| == |ts|
  {
    seq(|ts|, i requires 0 <= i < |ts| => if ts[i] == 0.0 then i as real else ts[i])
  }

  lemma TrendOfWindow(ts: seq<real>, us: seq<real>)
    requires |ts| == |us| >= 2
    ensures CalculateKvSlope(Window(ts, us)) == Trend(Used(ts), us)
  {
    TrendOfSnapshots(Window(ts, us));
    assert Times(Window(ts, us)) == Used(ts);
    assert Usages(Window(ts, us)) == us;
  }

  /** No timestamp behind the first is 0.0, on this clock or on one that shows `c` more. */
  ghost predicate NoneIsZero(ts: seq<real>, c: real) {
    forall i | 0 < i < |ts| :: ts[i] != 0.0 && ts[i] != -c
  }

  lemma GapsOfClocks(ts: seq<real>, c: real)
    requires |ts| >= 2 && c != 0.0
    ensures SameGaps(Used(ts), Used(Shift(ts, c))) <==> NoneIsZero(ts, c)
    ensures !NoneIsZero(ts, c) ==> !(Denominator(Used(ts)) < SMALL && Denominator(Used(Shift(ts, c))) < SMALL)
  {
    var x, u := Used(ts), Used(Shift(ts, c));
    if !NoneIsZero(ts, c) {
      hide Denominator, SMALL;
      var i :| 0 < i < |ts| && (ts[i] == 0.0 || ts[i] == -c);
      assert u[0] - x[0] == c && (u[i] - x[i] == c - i as real || u[i] - x[i] == c + i as real);
      if Denominator(x) < SMALL && Denominator(u) < SMALL {
        FallbackIsNarrow(x, i);
        FallbackIsNarrow(u, i);
      }
    }
  }

  lemma ShiftByNothing(ts: seq<real>)
    ensures Shift(ts, 0.0) == ts
  {
  }

  lemma ClocksAsTimes(ts: seq<real>, c: real, x: seq<real>, u: seq<real>)
    requires |ts| >= 2 && x == Used(ts) && u == Used(Shift(ts, c))
    ensures (forall us: seq<real> | |us| == |ts| ::
               CalculateKvSlope(Window(Shift(ts, c), us)) == CalculateKvSlope(Window(ts, us)))
       <==> forall us: seq<real> | |us| == |x| :: Trend(x, us) == Trend(u, us)
  {
    hide *;
    forall us: seq<real> | |us| == |ts|
      ensures CalculateKvSlope(Window(ts, us)) == Trend(x, us)
      ensures CalculateKvSlope(Window(Shift(ts, c), us)) == Trend(u, us)
    {
      TrendOfWindow(ts, us);
      TrendOfWindow(Shift(ts, c), us);
    }
  }

  /** The trend of every usage recorded at the times `ts` is the same on a clock that shows `c`
      more if and only if no timestamp behind the first is 0.0 on either clock. */
  lemma ClockMattersExactly(ts: seq<real>, c: real)
    requires |ts| >= 2
    ensures (forall us: seq<real> | |us| == |ts| ::
               CalculateKvSlope(Window(Shift(ts, c), us)) == CalculateKvSlope(Window(ts, us)))
       <==> c == 0.0 || NoneIsZero(ts, c)
  {
    hide *;
    if c == 0.0 {
      ShiftByNothing(ts);
    } else {
      ClocksAsTimes(ts, c, Used(ts), Used(Shift(ts, c)));
      GapsOfClocks(ts, c);
      TimesToldApartExactly(Used(ts), Used(Shift(ts, c)));
    }
  }

  lemma TwoPoints(a: Snapshot, b: Snapshot, x0: real, x1: real, m: real, c: real)
    requires Times([a, b]) == [x0, x1] && OnLine([x0, x1], Usages([a, b]), m, c) && x1 - x0 >= 1.0
    ensures CalculateKvSlope([a, b]) == RoundTo4(m)
  {
    hide CalculateKvSlope, RoundTo4, Times, Usages;
    DenominatorAtLeast([x0, x1], 1, x1 - x0);
    SquareOfOne(x1 - x0);
    LineOfSnapshots([a, b], m, c);
  }

  lemma SquareOfOne(d: real)
    requires d >= 1.0
    ensures Square(d) >= 1.0
  {
    assert d * d >= d * 1.0;
  }

  /** The clock does matter when it shows 0.0 behind the first snapshot: the same two snapshots,
      a second apart, and another value. */
  lemma ClockMatters()
    ensures var snapshots := [Snapshot(Some(-1.0), Some(1.0)), Snapshot(Some(0.0), Some(2.0))];
      CalculateKvSlope(snapshots) == 0.5 && CalculateKvSlope(OnOtherClock(snapshots, 2.0)) == 1.0
  {
    var a, b := Snapshot(Some(-1.0), Some(1.0)), Snapshot(Some(0.0), Some(2.0));
    var a', b' := Snapshot(Some(1.0), Some(1.0)), Snapshot(Some(2.0), Some(2.0));
    assert OnOtherClock([a, b], 2.0) == [a', b'];
    assert Times([a, b]) == [-1.0, 1.0] && Times([a', b']) == [1.0, 2.0];
    TwoPoints(a, b, -1.0, 1.0, 0.5, 1.5);
    TwoPoints(a', b', 1.0, 2.0, 1.0, 0.0);
  }

  // ---- A timestamp of 0.0 counts as missing ----

  /** The timestamps as they were recorded. */
  function Recorded(snapshots: seq<Snapshot>): (t: seq<real>)
    requires forall s | s in snapshots :: s.timestamp.Some?
    ensures |t| == |snapshots|
  {
    seq(|snapshots|, i requires 0 <= i < |snapshots| => snapshots[i].timestamp.value)
  }

  /** How far the time used is from the time recorded: the position in the window where 0.0
      was recorded, and nothing elsewhere. */
  function Displaced(snapshots: seq<Snapshot>): (d: seq<real>)
    requires forall s | s in snapshots :: s.timestamp.Some?
    ensures |d| == |snapshots|
  {
    seq(|snapshots|, i requires 0 <= i < |snapshots| => if snapshots[i].timestamp.value == 0.0 then i as real else 0.0)
  }

  lemma RecordedIs(snapshots: seq<Snapshot>, i: nat)
    requires i < |snapshots| && forall s | s in snapshots :: s.timestamp.Some?
    ensures |Times(snapshots)| == |Usages(snapshots)| == |snapshots|
    ensures Recorded(snapshots)[i] == Times(snapshots)[i] - Displaced(snapshots)[i]
  {
    assert snapshots[i] in snapshots;
  }

  lemma DifferenceProduct(xk: real, xi: real, tk: real, ti: real, dk: real, di: real)
    requires tk == xk - dk && ti == xi - di
    ensures ProductOfDifferences(xk, tk, xi, ti)
         == ProductOfDifferences(xk, xk, xi, xi) + -1.0 * ProductOfDifferences(xk, dk, xi, di)
            + 0.0 * ProductOfDifferences(xk, dk, xi, di)
  {
    var p, q := xk - xi, dk - di;
    assert p * (p - q) == p * p - p * q;
  }

  lemma CrossOfDifference(x: seq<real>, t: seq<real>, d: seq<real>, k: nat)
    requires k < |x| == |t| == |d| && forall i | 0 <= i < |x| :: t[i] == x[i] - d[i]
    ensures Crosses(x, t)[k] == Crosses(x, x)[k] + -1.0 * Crosses(x, d)[k] + 0.0 * Crosses(x, d)[k]
  {
    hide *;
    forall i | 0 <= i < k
      ensures Products(x, t, k)[i] == Products(x, x, k)[i] + -1.0 * Products(x, d, k)[i] + 0.0 * Products(x, d, k)[i]
    {
      ProductAt(x, t, k, i);
      ProductAt(x, x, k, i);
      ProductAt(x, d, k, i);
      DifferenceProduct(x[k], x[i], t[k], t[i], d[k], d[i]);
    }
    Combination(Products(x, t, k), Products(x, x, k), Products(x, d, k), Products(x, d, k), -1.0, 0.0);
    CrossIsSum(x, t, k);
    CrossIsSum(x, x, k);
    CrossIsSum(x, d, k);
  }

  lemma PairsOfDifference(x: seq<real>, t: seq<real>, d: seq<real>)
    requires |x| == |t| == |d| && forall i | 0 <= i < |x| :: t[i] == x[i] - d[i]
    ensures Pairs(x, t) == Pairs(x, x) - Pairs(x, d)
  {
    hide *;
    forall k | 0 <= k < |x|
      ensures Crosses(x, t)[k] == Crosses(x, x)[k] + -1.0 * Crosses(x, d)[k] + 0.0 * Crosses(x, d)[k]
    {
      CrossOfDifference(x, t, d, k);
    }
    Combination(Crosses(x, t), Crosses(x, x), Crosses(x, d), Crosses(x, d), -1.0, 0.0);
    PairsIs(x, t);
    PairsIs(x, x);
    PairsIs(x, d);
  }

  /** The slope of `y` on a line over `t`, when `x` is used for `t`. */
  lemma BentSlope(x: seq<real>, t: seq<real>, d: seq<real>, y: seq<real>, m: real, c: real)
    requires |x| == |t| == |d| == |y| >= 2 && OnLine(t, y, m, c) && Denominator(x) >= SMALL
    requires forall i | 0 <= i < |x| :: t[i] == x[i] - d[i]
    ensures Slope(x, y) == m <==> m == 0.0 || Spread(x, d, |x|) == 0.0
  {
    hide *;
    SlopeOfPairs(x, y);
    PairsOnLine(x, t, y, m, c);
    PairsOfDifference(x, t, d);
    SpreadIsPairs(x, d);
    Bent(Slope(x, y), m, Pairs(x, x), Pairs(x, d), Pairs(x, t), Pairs(x, y));
  }

  lemma Bent(slope: real, m: real, xx: real, xd: real, xt: real, xy: real)
    requires Product(slope, xx) == xy && xx > 0.0 && xy == m * xt && xt == xx - xd
    ensures slope == m <==> m == 0.0 || xd == 0.0
  {
    assert xy == m * xx - m * xd;
    assert (slope - m) * xx == -(m * xd);
  }

  lemma EndsAreDisplaced(snapshots: seq<Snapshot>, x: seq<real>, t: seq<real>, last: nat)
    requires |snapshots| == last + 1 && forall s | s in snapshots :: s.timestamp.Some?
    requires x == Times(snapshots) && t == Recorded(snapshots)
    ensures |x| == |snapshots| && t[0] == x[0]
    ensures t[last] == x[last] || (t[last] == 0.0 && x[last] == last as real)
  {
    assert snapshots[0] in snapshots && snapshots[last] in snapshots;
  }

  /** In the fallback the recorded ends are less than a second apart as well. */
  lemma BentChange(snapshots: seq<Snapshot>, x: seq<real>, y: seq<real>, t: seq<real>, m: real, c: real)
    requires |snapshots| == |y| >= 2 && forall s | s in snapshots :: s.timestamp.Some?
    requires x == Times(snapshots) && t == Recorded(snapshots) && OnLine(t, y, m, c)
    requires |x| == |y| && Denominator(x) < SMALL
    ensures Slope(x, y) == m <==> m == 0.0
  {
    hide *;
    var last := |snapshots| - 1;
    EndsAreDisplaced(snapshots, x, t, last);
    FallbackIsPlainChange(x, y);
    var d := t[last] - t[0];
    LastChangeOnLine(t, y, m, c, d);
    assert Slope(x, y) == y[|y| - 1] - y[0] == m * d;
    OnlyZero(m, d);
  }

  /** Usage on a line over the recorded timestamps, some of which may be 0.0: the line's slope
      is found if and only if the line is flat, or the window is out of the fallback and the
      displacements are uncorrelated with the times used. */
  lemma ZeroTimestampsBendLines(snapshots: seq<Snapshot>, m: real, c: real)
    requires |snapshots| >= 2 && forall s | s in snapshots :: s.timestamp.Some?
    requires OnLine(Recorded(snapshots), Usages(snapshots), m, c)
    ensures |Usages(snapshots)| == |Times(snapshots)| == |snapshots|
    ensures var x := Times(snapshots);
      (Slope(x, Usages(snapshots)) == m <==>
        m == 0.0 || (Denominator(x) >= SMALL && Spread(x, Displaced(snapshots), |x|) == 0.0))
  {
    var x := Times(snapshots);
    forall i | 0 <= i < |snapshots|
      ensures Recorded(snapshots)[i] == x[i] - Displaced(snapshots)[i]
    {
      RecordedIs(snapshots, i);
    }
    RecordedIs(snapshots, 0);
    hide Slope, Denominator, Spread, Times, Usages, Recorded, Displaced;
    if Denominator(x) >= SMALL {
      BentSlope(x, Recorded(snapshots), Displaced(snapshots), Usages(snapshots), m, c);
    } else {
      BentChange(snapshots, x, Usages(snapshots), Recorded(snapshots), m, c);
    }
  }

  lemma {:induction false} SumOfSpike(s: seq<real>, j: nat, n: nat)
    requires j < |s| && n <= |s| && forall i | 0 <= i < |s| && i != j :: s[i] == 0.0
    ensures RealSumUpTo(s, n) == if j < n then s[j] else 0.0
  {
    if n > 0 {
      SumOfSpike(s, j, n - 1);
    }
  }

  lemma SpreadOfSpike(x: seq<real>, d: seq<real>, j: nat, n: nat)
    requires j < |x| == |d| == n && forall i | 0 <= i < |d| && i != j :: d[i] == 0.0
    ensures Spread(x, d, n) == (n as real * x[j] - RealSum(x)) * d[j]
  {
    var p := Dots(x, d);
    forall i | 0 <= i < |p| && i != j
      ensures p[i] == 0.0
    {
      assert p[i] == Product(x[i], d[i]);
    }
    SumOfSpike(p, j, n);
    SumOfSpike(d, j, n);
    hide RealSumUpTo, Dots;
    SpikeInNumbers(n as real, RealSum(x), x[j], d[j], Dot(x, d, n));
  }

  lemma SpikeInNumbers(n: real, sx: real, x: real, d: real, p: real)
    requires p == x * d
    ensures SpreadOf(n, sx, d, p) == (n * x - sx) * d
  {
  }

  lemma NoSpread(x: seq<real>, d: seq<real>, j: nat)
    requires j < |x| == |d| && x[j] == d[j] > 0.0 && forall i | 0 <= i < |d| && i != j :: d[i] == 0.0
    ensures Spread(x, d, |x|) == 0.0 <==> Product(|x| as real, x[j]) == RealSum(x)
  {
    SpreadOfSpike(x, d, j, |x|);
    hide Spread, RealSum;
    ZeroProduct(|x| as real, x[j], RealSum(x), d[j]);
  }

  lemma ZeroProduct(n: real, x: real, sum: real, d: real)
    requires d > 0.0
    ensures (n * x - sum) * d == 0.0 <==> Product(n, x) == sum
  {
    var gap := n * x - sum;
    assert gap * d == 0.0 ==> gap == 0.0;
  }

  lemma OnlyOneDisplaced(snapshots: seq<Snapshot>, j: nat)
    requires forall s | s in snapshots :: s.timestamp.Some?
    requires 0 < j < |snapshots| && snapshots[j].timestamp.value == 0.0
    requires forall i | 0 < i < |snapshots| && i != j :: snapshots[i].timestamp.value != 0.0
    ensures |Times(snapshots)| == |snapshots| && Times(snapshots)[j] == Displaced(snapshots)[j] == j as real
    ensures forall i | 0 <= i < |snapshots| && i != j :: Displaced(snapshots)[i] == 0.0
  {
    assert snapshots[j] in snapshots;
  }

  /** One timestamp of 0.0, behind the first: a line that is not flat is recovered only when
      the position of that snapshot happens to be the mean of the times used. */
  lemma OneZeroTimestamp(snapshots: seq<Snapshot>, m: real, c: real, j: nat)
    requires |snapshots| >= 2 && forall s | s in snapshots :: s.timestamp.Some?
    requires OnLine(Recorded(snapshots), Usages(snapshots), m, c)
    requires 0 < j < |snapshots| && snapshots[j].timestamp.value == 0.0
    requires forall i | 0 < i < |snapshots| && i != j :: snapshots[i].timestamp.value != 0.0
    ensures |Usages(snapshots)| == |Times(snapshots)| == |snapshots|
    ensures var x := Times(snapshots);
      (Slope(x, Usages(snapshots)) == m <==>
        m == 0.0 || (Denominator(x) >= SMALL && Product(|x| as real, j as real) == RealSum(x)))
  {
    hide *;
    OnlyOneDisplaced(snapshots, j);
    ZeroTimestampsBendLines(snapshots, m, c);
    NoSpread(Times(snapshots), Displaced(snapshots), j);
  }
}
