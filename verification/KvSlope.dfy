/** The trend of the KV-cache usage over a window of snapshots: the closed-form regression
    slope, in exact arithmetic, against what makes a slope the right one - the pairwise
    differences, the lines it recovers and the squared residuals it minimises. */
module KvSlope {
  import opened Basics
  import opened Sums

  /** A snapshot; a field is absent when it is missing or null. */
  datatype Snapshot = Snapshot(timestamp: Option<real>, kvCacheUsage: Option<real>)

  /** Python's `value or default`: an absent value and 0.0 both give way. */
  function Or(value: Option<real>, default_: real): real {
    if value.None? || value.value == 0.0 then default_ else value.value
  }

  function Times(snapshots: seq<Snapshot>): seq<real> {
    seq(|snapshots|, i requires 0 <= i < |snapshots| => Or(snapshots[i].timestamp, i as real))
  }

  function Usages(snapshots: seq<Snapshot>): seq<real> {
    seq(|snapshots|, i requires 0 <= i < |snapshots| => Or(snapshots[i].kvCacheUsage, 0.0))
  }

  function Product(x: real, y: real): real {
    x * y
  }

  function Dots(x: seq<real>, y: seq<real>): (d: seq<real>)
    requires |x| == |y|
    ensures |d| == |x|
  {
    seq(|x|, i requires 0 <= i < |x| => Product(x[i], y[i]))
  }

  /** The sum of products of the first `n` entries. */
  function Dot(x: seq<real>, y: seq<real>, n: nat): real
    requires n <= |x| == |y|
  {
    RealSumUpTo(Dots(x, y), n)
  }

  /** `n` times the sum of products less the product of the sums. */
  function SpreadOf(n: real, sx: real, sy: real, d: real): real {
    n * d - sx * sy
  }

  /** The denominator of the slope for `y == x`, its numerator otherwise. */
  function Spread(x: seq<real>, y: seq<real>, n: nat): real
    requires n <= |x| == |y|
  {
    SpreadOf(n as real, RealSumUpTo(x, n), RealSumUpTo(y, n), Dot(x, y, n))
  }

  function Denominator(x: seq<real>): real {
    Spread(x, x, |x|)
  }

  const SMALL := 0.000001

  function Abs(x: real): real {
    if x < 0.0 then -x else x
  }

  /** The slope before rounding. */
  function Slope(x: seq<real>, y: seq<real>): real
    requires |x| == |y| >= 2
  {
    if Abs(Denominator(x)) < SMALL then
      (y[|y| - 1] - y[0]) / RealMax(x[|x| - 1] - x[0], 1.0)
    else
      Spread(x, y, |x|) / Denominator(x)
  }

  /** The nearest integer, a tie going to the even one. */
  function RoundHalfEven(v: real): (r: int)
    ensures Abs(r as real - v) <= 0.5
    ensures Abs(r as real - v) == 0.5 ==> r % 2 == 0
  {
    var low := v.Floor;
    if v - low as real < 0.5 then low
    else if v - low as real > 0.5 then low + 1
    else if low % 2 == 0 then low else low + 1
  }

  function RoundTo4(v: real): real {
    RoundHalfEven(v * 10000.0) as real / 10000.0
  }

  /** The slope of a window, per second; the finite difference of the fallback is not rounded. */
  function CalculateKvSlope(snapshots: seq<Snapshot>): real {
    if |snapshots| < 2 then 0.0 else
    var x, y := Times(snapshots), Usages(snapshots);
    if Abs(Denominator(x)) < SMALL then Slope(x, y) else RoundTo4(Slope(x, y))
  }

  // ---- The spread is a sum over pairs ----

  function ProductOfDifferences(xk: real, yk: real, xi: real, yi: real): real {
    (xk - xi) * (yk - yi)
  }

  /** The products of the differences between entry `k` and each entry before it. */
  function Products(x: seq<real>, y: seq<real>, k: nat): (p: seq<real>)
    requires k < |x| == |y|
    ensures |p| == k
  {
    seq(k, i requires 0 <= i < k => ProductOfDifferences(x[k], y[k], x[i], y[i]))
  }

  /** Their sums, for every `k`. */
  function Crosses(x: seq<real>, y: seq<real>): (c: seq<real>)
    requires |x| == |y|
    ensures |c| == |x|
  {
    seq(|x|, k requires 0 <= k < |x| => RealSum(Products(x, y, k)))
  }

  /** The sum over all pairs of the products of the differences. */
  function Pairs(x: seq<real>, y: seq<real>): real
    requires |x| == |y|
  {
    RealSum(Crosses(x, y))
  }

  // Sums of combined series. The lemmas hide the bodies of the functions they combine, so that
  // no product is multiplied out; what they need of a body comes from a lemma.

  lemma SumStep(s: seq<real>, n: nat)
    requires 0 < n <= |s|
    ensures RealSumUpTo(s, n) == RealSumUpTo(s, n - 1) + s[n - 1]
  {
  }

  lemma SumOfAll(s: seq<real>)
    ensures RealSum(s) == RealSumUpTo(s, |s|)
  {
  }

  function Scaled(m: real, s: seq<real>): (r: seq<real>)
    ensures |r| == |s|
  {
    seq(|s|, i requires 0 <= i < |s| => m * s[i])
  }

  lemma ScaledAt(m: real, s: seq<real>, i: nat)
    requires i < |s|
    ensures Scaled(m, s)[i] == m * s[i]
  {
  }

  lemma Distribute(m: real, a: real, b: real, sum: real)
    requires sum == a + b
    ensures m * sum == m * a + m * b
  {
  }

  lemma {:induction false} SumOfScaled(m: real, s: seq<real>, n: nat)
    requires n <= |s|
    ensures RealSumUpTo(Scaled(m, s), n) == m * RealSumUpTo(s, n)
  {
    if n > 0 {
      SumOfScaled(m, s, n - 1);
      SumStep(s, n);
      SumStep(Scaled(m, s), n);
      ScaledAt(m, s, n - 1);
      Distribute(m, RealSumUpTo(s, n - 1), s[n - 1], RealSumUpTo(s, n));
    }
  }

  lemma {:induction false} SumOfThree(p: seq<real>, u: seq<real>, v: seq<real>, w: seq<real>, n: nat)
    requires n <= |p| == |u| == |v| == |w| && forall i | 0 <= i < n :: p[i] == u[i] + v[i] + w[i]
    ensures RealSumUpTo(p, n) == RealSumUpTo(u, n) + RealSumUpTo(v, n) + RealSumUpTo(w, n)
  {
    if n > 0 {
      SumOfThree(p, u, v, w, n - 1);
    }
  }

  /** The sum of a linear combination of series is that combination of their sums. */
  lemma Combination(p: seq<real>, u: seq<real>, v: seq<real>, w: seq<real>, a: real, b: real)
    requires |p| == |u| == |v| == |w| && forall i | 0 <= i < |p| :: p[i] == u[i] + a * v[i] + b * w[i]
    ensures RealSum(p) == RealSum(u) + a * RealSum(v) + b * RealSum(w)
  {
    hide *;
    forall i | 0 <= i < |p|
      ensures p[i] == u[i] + Scaled(a, v)[i] + Scaled(b, w)[i]
    {
      ScaledAt(a, v, i);
      ScaledAt(b, w, i);
    }
    SumOfThree(p, u, Scaled(a, v), Scaled(b, w), |p|);
    SumOfScaled(a, v, |v|);
    SumOfScaled(b, w, |w|);
    SumOfAll(p);
    SumOfAll(u);
    SumOfAll(v);
    SumOfAll(w);
  }

  lemma MultipleOf(p: seq<real>, v: seq<real>, m: real)
    requires |p| == |v| && forall i | 0 <= i < |p| :: p[i] == m * v[i]
    ensures RealSum(p) == m * RealSum(v)
  {
    hide *;
    forall i | 0 <= i < |p|
      ensures p[i] == Scaled(m, v)[i]
    {
      ScaledAt(m, v, i);
    }
    assert p == Scaled(m, v);
    SumOfScaled(m, v, |v|);
    SumOfAll(p);
    SumOfAll(v);
  }

  lemma {:induction false} SumOfConstant(s: seq<real>, c: real, n: nat)
    requires n <= |s| && forall i | 0 <= i < n :: s[i] == c
    ensures RealSumUpTo(s, n) == n as real * c
  {
    if n > 0 {
      SumOfConstant(s, c, n - 1);
      SumStep(s, n);
      Distribute(c, (n - 1) as real, 1.0, n as real);
    }
  }

  lemma DotStep(x: seq<real>, y: seq<real>, n: nat)
    requires 0 < n <= |x| == |y|
    ensures Dot(x, y, n) == Dot(x, y, n - 1) + Product(x[n - 1], y[n - 1])
  {
    SumStep(Dots(x, y), n);
  }

  lemma ProductAt(x: seq<real>, y: seq<real>, k: nat, i: nat)
    requires i < k < |x| == |y|
    ensures Products(x, y, k)[i] == ProductOfDifferences(x[k], y[k], x[i], y[i])
  {
  }

  lemma CrossAt(x: seq<real>, y: seq<real>, k: nat)
    requires k < |x| == |y|
    ensures Crosses(x, y)[k] == RealSumUpTo(Products(x, y, k), k)
  {
  }

  /** What the products of `n` entries with an entry (x, y) add up to. */
  function CrossOf(n: real, x: real, y: real, sx: real, sy: real, d: real): real {
    n * x * y - x * sy - y * sx + d
  }

  lemma CrossStep(n: real, m: real, xk: real, yk: real, xi: real, yi: real,
                  sx: real, sx': real, sy: real, sy': real, d: real, d': real)
    requires m == n + 1.0 && sx' == sx + xi && sy' == sy + yi && d' == d + Product(xi, yi)
    ensures CrossOf(n, xk, yk, sx, sy, d) + ProductOfDifferences(xk, yk, xi, yi) == CrossOf(m, xk, yk, sx', sy', d')
  {
  }

  lemma {:induction false} CrossExpands(x: seq<real>, y: seq<real>, k: nat, n: nat)
    requires n <= k < |x| == |y|
    ensures RealSumUpTo(Products(x, y, k), n)
         == CrossOf(n as real, x[k], y[k], RealSumUpTo(x, n), RealSumUpTo(y, n), Dot(x, y, n))
    decreases n, 1
  {
    if n > 0 {
      CrossExpandsNext(x, y, k, n);
    }
  }

  lemma {:induction false} CrossExpandsNext(x: seq<real>, y: seq<real>, k: nat, n: nat)
    requires 0 < n <= k < |x| == |y|
    ensures RealSumUpTo(Products(x, y, k), n)
         == CrossOf(n as real, x[k], y[k], RealSumUpTo(x, n), RealSumUpTo(y, n), Dot(x, y, n))
    decreases n, 0
  {
    hide *;
    CrossExpands(x, y, k, n - 1);
    SumStep(Products(x, y, k), n);
    ProductAt(x, y, k, n - 1);
    SumStep(x, n);
    SumStep(y, n);
    DotStep(x, y, n);
    CrossStep((n - 1) as real, n as real, x[k], y[k], x[n - 1], y[n - 1], RealSumUpTo(x, n - 1), RealSumUpTo(x, n),
              RealSumUpTo(y, n - 1), RealSumUpTo(y, n), Dot(x, y, n - 1), Dot(x, y, n));
  }

  lemma SpreadStep(n: real, m: real, x: real, y: real, sx: real, sx': real, sy: real, sy': real, d: real, d': real)
    requires m == n + 1.0 && sx' == sx + x && sy' == sy + y && d' == d + Product(x, y)
    ensures SpreadOf(m, sx', sy', d') == SpreadOf(n, sx, sy, d) + CrossOf(n, x, y, sx, sy, d)
  {
  }

  lemma {:induction false} SpreadUpTo(x: seq<real>, y: seq<real>, n: nat)
    requires n <= |x| == |y|
    ensures Spread(x, y, n) == RealSumUpTo(Crosses(x, y), n)
    decreases n, 1
  {
    if n > 0 {
      SpreadUpToNext(x, y, n);
    }
  }

  lemma SpreadIs(x: seq<real>, y: seq<real>, n: nat)
    requires n <= |x| == |y|
    ensures Spread(x, y, n) == SpreadOf(n as real, RealSumUpTo(x, n), RealSumUpTo(y, n), Dot(x, y, n))
  {
  }

  lemma {:induction false} SpreadUpToNext(x: seq<real>, y: seq<real>, n: nat)
    requires 0 < n <= |x| == |y|
    ensures Spread(x, y, n) == RealSumUpTo(Crosses(x, y), n)
    decreases n, 0
  {
    hide *;
    SpreadUpTo(x, y, n - 1);
    SpreadIs(x, y, n - 1);
    SpreadIs(x, y, n);
    SumStep(Crosses(x, y), n);
    CrossAt(x, y, n - 1);
    CrossExpands(x, y, n - 1, n - 1);
    SumStep(x, n);
    SumStep(y, n);
    DotStep(x, y, n);
    SpreadStep((n - 1) as real, n as real, x[n - 1], y[n - 1], RealSumUpTo(x, n - 1), RealSumUpTo(x, n),
               RealSumUpTo(y, n - 1), RealSumUpTo(y, n), Dot(x, y, n - 1), Dot(x, y, n));
  }

  /** Numerator and denominator are sums over all pairs of snapshots of the products of their
      differences. */
  lemma SpreadIsPairs(x: seq<real>, y: seq<real>)
    requires |x| == |y|
    ensures Spread(x, y, |x|) == Pairs(x, y)
  {
    SpreadUpTo(x, y, |x|);
  }

  // ---- The denominator ----

  function Square(a: real): real {
    a * a
  }

  lemma SquareSign(a: real)
    ensures a != 0.0 ==> Square(a) > 0.0
    ensures a == 0.0 ==> Square(a) == 0.0
  {
    if a > 0.0 {
      PositiveSquare(a);
    } else if a < 0.0 {
      NegativeSquare(a);
    }
  }

  lemma PositiveSquare(a: real)
    requires a > 0.0
    ensures Square(a) > 0.0
  {
    ProductIsPositive(a, a, Square(a));
  }

  lemma ProductIsPositive(a: real, b: real, product: real)
    requires a > 0.0 && b > 0.0 && product == a * b
    ensures product > 0.0
  {
  }

  lemma SquareOfNegation(a: real)
    ensures Square(-a) == Square(a)
  {
  }

  lemma NegativeSquare(a: real)
    requires a < 0.0
    ensures Square(a) > 0.0
  {
    hide *;
    PositiveSquare(-a);
    SquareOfNegation(a);
  }

  /** A sum of terms that are not negative. */
  lemma {:induction false} SumOfNonNegative(s: seq<real>, n: nat)
    requires n <= |s| && forall i | 0 <= i < n :: s[i] >= 0.0
    ensures RealSumUpTo(s, n) >= 0.0
    ensures forall i | 0 <= i < n :: RealSumUpTo(s, n) >= s[i]
    ensures RealSumUpTo(s, n) == 0.0 <==> forall i | 0 <= i < n :: s[i] == 0.0
  {
    if n > 0 {
      SumOfNonNegative(s, n - 1);
    }
  }

  predicate AllEqual(x: seq<real>) {
    forall i, j | 0 <= i < j < |x| :: x[i] == x[j]
  }

  lemma CrossOfSelf(x: seq<real>, k: nat)
    requires k < |x|
    ensures Crosses(x, x)[k] >= 0.0
    ensures forall i | 0 <= i < k :: Crosses(x, x)[k] >= Products(x, x, k)[i]
    ensures Crosses(x, x)[k] == 0.0 <==> forall i | 0 <= i < k :: x[i] == x[k]
  {
    var p := Products(x, x, k);
    forall i | 0 <= i < k
      ensures p[i] >= 0.0 && (p[i] == 0.0 <==> x[i] == x[k])
    {
      SquareOfGap(x[k], x[i]);
    }
    SumOfNonNegative(p, k);
  }

  lemma SquareOfGap(xk: real, xi: real)
    ensures xi == xk ==> ProductOfDifferences(xk, xk, xi, xi) == 0.0
    ensures xi != xk ==> ProductOfDifferences(xk, xk, xi, xi) > 0.0
  {
    hide *;
    SquareSign(xk - xi);
    GapSquared(xk, xi);
  }

  lemma GapSquared(xk: real, xi: real)
    ensures ProductOfDifferences(xk, xk, xi, xi) == Square(xk - xi)
  {
  }

  lemma PairsOfSelf(x: seq<real>)
    ensures Pairs(x, x) >= 0.0
    ensures Pairs(x, x) == 0.0 <==> AllEqual(x)
    ensures forall k | 0 <= k < |x| :: Pairs(x, x) >= Crosses(x, x)[k]
  {
    var c := Crosses(x, x);
    forall k | 0 <= k < |x|
      ensures c[k] >= 0.0 && (c[k] == 0.0 <==> forall i | 0 <= i < k :: x[i] == x[k])
    {
      CrossOfSelf(x, k);
    }
    SumOfNonNegative(c, |x|);
  }

  /** The denominator is never negative, and zero exactly when all timestamps coincide. */
  lemma DenominatorSign(x: seq<real>)
    ensures Denominator(x) >= 0.0
    ensures Denominator(x) == 0.0 <==> AllEqual(x)
  {
    SpreadIsPairs(x, x);
    PairsOfSelf(x);
  }

  lemma DenominatorAtLeast(x: seq<real>, k: nat, d: real)
    requires 0 < k < |x| && d == x[k] - x[0]
    ensures Denominator(x) >= d * d
  {
    DenominatorIsPairs(x);
    PairsOfSelf(x);
    CrossOfSelf(x, k);
    ProductWithFirst(x, k, d);
  }

  lemma ProductWithFirst(x: seq<real>, k: nat, d: real)
    requires 0 < k < |x| && d == x[k] - x[0]
    ensures Products(x, x, k)[0] == d * d
  {
  }

  lemma SmallSquare(d: real)
    requires d * d < SMALL
    ensures Abs(d) < 0.001
  {
    if Abs(d) >= 0.001 {
      SquareGrows(0.001, Abs(d));
      assert false;
    }
  }

  lemma SquareGrows(a: real, b: real)
    requires 0.0 <= a <= b
    ensures a * a <= b * b
  {
    assert a * a <= a * b <= b * b;
  }

  lemma DivideByOne(a: real)
    ensures a / 1.0 == a
  {
  }

  /** In the fallback all timestamps are less than a millisecond apart. */
  lemma FallbackIsNarrow(x: seq<real>, k: nat)
    requires 0 < k < |x| && Denominator(x) < SMALL
    ensures -0.001 < x[k] - x[0] < 0.001
  {
    var d := x[k] - x[0];
    DenominatorAtLeast(x, k, d);
    SmallSquare(d);
  }

  /** So its divisor is always 1.0: it is the plain change of the usage, not a change per second. */
  lemma FallbackIsPlainChange(x: seq<real>, y: seq<real>)
    requires |x| == |y| >= 2 && Denominator(x) < SMALL
    ensures -0.001 < x[|x| - 1] - x[0] < 0.001
    ensures Slope(x, y) == y[|y| - 1] - y[0]
  {
    FallbackIsNarrow(x, |x| - 1);
    DenominatorSign(x);
    DivideByOne(y[|y| - 1] - y[0]);
  }

  /** The fallback is not only for identical timestamps: half a millisecond apart is enough. */
  lemma FallbackForDistinctTimes()
    ensures var x := [1.0, 1.0005];
      !AllEqual(x) && Denominator(x) < SMALL
  {
    var x := [1.0, 1.0005];
    assert RealSumUpTo(x, 2) == RealSumUpTo(x, 1) + 1.0005 == RealSumUpTo(x, 0) + 1.0 + 1.0005 == 2.0005;
    assert Dot(x, x, 2) == Dot(x, x, 1) + 1.0005 * 1.0005 == Dot(x, x, 0) + 1.0 + 1.00100025 == 2.00100025;
    assert Spread(x, x, 2) == 2.0 * 2.00100025 - 2.0005 * 2.0005;
    assert x[0] != x[1];
  }

  // ---- Shifts and lines ----

  function Shift(x: seq<real>, c: real): (r: seq<real>)
    ensures |r| == |x|
  {
    seq(|x|, i requires 0 <= i < |x| => x[i] + c)
  }

  lemma SameProduct(a: real, b: real, c: real, d: real)
    requires a == c && b == d
    ensures a * b == c * d
  {
  }

  lemma ShiftedProduct(x: seq<real>, y: seq<real>, c: real, d: real, k: nat, i: nat)
    requires i < k < |x| == |y|
    ensures Products(Shift(x, c), Shift(y, d), k)[i] == Products(x, y, k)[i]
  {
    var u, v := Shift(x, c), Shift(y, d);
    SameProduct(u[k] - u[i], v[k] - v[i], x[k] - x[i], y[k] - y[i]);
  }

  lemma ProductsOfShift(x: seq<real>, y: seq<real>, c: real, d: real, k: nat)
    requires k < |x| == |y|
    ensures Products(Shift(x, c), Shift(y, d), k) == Products(x, y, k)
  {
    forall i | 0 <= i < k
      ensures Products(Shift(x, c), Shift(y, d), k)[i] == Products(x, y, k)[i]
    {
      ShiftedProduct(x, y, c, d, k, i);
    }
  }

  lemma CrossesOfShift(x: seq<real>, y: seq<real>, c: real, d: real)
    requires |x| == |y|
    ensures Crosses(Shift(x, c), Shift(y, d)) == Crosses(x, y)
  {
    forall k | 0 <= k < |x|
      ensures Crosses(Shift(x, c), Shift(y, d))[k] == Crosses(x, y)[k]
    {
      ProductsOfShift(x, y, c, d, k);
    }
  }

  /** Only differences matter: moving the clock or the usage by a constant changes nothing, in
      the fallback as well. */
  lemma SlopeIgnoresShifts(x: seq<real>, y: seq<real>, c: real, d: real)
    requires |x| == |y| >= 2
    ensures Slope(Shift(x, c), Shift(y, d)) == Slope(x, y)
  {
    var u, v, n := Shift(x, c), Shift(y, d), |x|;
    CrossesOfShift(x, x, c, c);
    CrossesOfShift(x, y, c, d);
    SpreadIsPairs(x, x);
    SpreadIsPairs(x, y);
    SpreadIsPairs(u, u);
    SpreadIsPairs(u, v);
    assert u[n - 1] - u[0] == x[n - 1] - x[0] && v[n - 1] - v[0] == y[n - 1] - y[0];
    SameSlope(u, v, x, y);
  }

  lemma SameSlope(u: seq<real>, v: seq<real>, x: seq<real>, y: seq<real>)
    requires |u| == |v| == |x| == |y| >= 2
    requires Denominator(u) == Denominator(x) && Spread(u, v, |u|) == Spread(x, y, |x|)
    requires u[|u| - 1] - u[0] == x[|x| - 1] - x[0] && v[|v| - 1] - v[0] == y[|y| - 1] - y[0]
    ensures Slope(u, v) == Slope(x, y)
  {
    if Denominator(x) < SMALL {
      FallbackIsPlainChange(u, v);
      FallbackIsPlainChange(x, y);
    } else {
      SameQuotient(Spread(u, v, |u|), Denominator(u), Spread(x, y, |x|), Denominator(x));
    }
  }

  lemma SameQuotient(a: real, b: real, c: real, d: real)
    requires a == c && b == d && d != 0.0
    ensures a / b == c / d
  {
  }

  lemma DenominatorOfShift(x: seq<real>, c: real)
    ensures Denominator(Shift(x, c)) == Denominator(x)
  {
    hide Crosses, Spread;
    CrossesOfShift(x, x, c, c);
    SpreadIsPairs(x, x);
    SpreadIsPairs(Shift(x, c), Shift(x, c));
  }

  ghost predicate OnLine(x: seq<real>, y: seq<real>, m: real, c: real) {
    |x| == |y| && forall i | 0 <= i < |x| :: y[i] == m * x[i] + c
  }

  lemma LineProduct(m: real, c: real, xk: real, xi: real, tk: real, ti: real, yk: real, yi: real)
    requires yk == m * tk + c && yi == m * ti + c
    ensures ProductOfDifferences(xk, yk, xi, yi) == m * ProductOfDifferences(xk, tk, xi, ti)
  {
    assert yk - yi == m * (tk - ti);
    assert (xk - xi) * (m * (tk - ti)) == m * ((xk - xi) * (tk - ti));
  }

  lemma ProductOnLine(x: seq<real>, t: seq<real>, y: seq<real>, m: real, c: real, k: nat, i: nat)
    requires OnLine(t, y, m, c) && i < k < |x| == |t| == |y|
    ensures Products(x, y, k)[i] == m * Products(x, t, k)[i]
  {
    LineProduct(m, c, x[k], x[i], t[k], t[i], y[k], y[i]);
  }

  lemma CrossOnLine(x: seq<real>, t: seq<real>, y: seq<real>, m: real, c: real, k: nat)
    requires OnLine(t, y, m, c) && k < |x| == |t| == |y|
    ensures Crosses(x, y)[k] == m * Crosses(x, t)[k]
  {
    hide *;
    forall i | 0 <= i < k
      ensures Products(x, y, k)[i] == m * Products(x, t, k)[i]
    {
      ProductOnLine(x, t, y, m, c, k, i);
    }
    MultipleOf(Products(x, y, k), Products(x, t, k), m);
    CrossIsSum(x, y, k);
    CrossIsSum(x, t, k);
  }

  /** When `y` lies on a line over `t`, its pairs with any `x` are those of `t`, scaled. */
  lemma PairsOnLine(x: seq<real>, t: seq<real>, y: seq<real>, m: real, c: real)
    requires OnLine(t, y, m, c) && |x| == |t| == |y|
    ensures Pairs(x, y) == m * Pairs(x, t)
  {
    forall k | 0 <= k < |x|
      ensures Crosses(x, y)[k] == m * Crosses(x, t)[k]
    {
      CrossOnLine(x, t, y, m, c, k);
    }
    MultipleOf(Crosses(x, y), Crosses(x, t), m);
  }

  lemma SlopeIsQuotient(x: seq<real>, y: seq<real>)
    requires |x| == |y| >= 2 && Denominator(x) >= SMALL
    ensures Product(Slope(x, y), Denominator(x)) == Spread(x, y, |x|)
  {
    DivideBack(Spread(x, y, |x|), Denominator(x));
  }

  /** Outside the fallback the slope is the quotient of the pair sums. */
  lemma SlopeOfPairs(x: seq<real>, y: seq<real>)
    requires |x| == |y| >= 2 && Denominator(x) >= SMALL
    ensures Product(Slope(x, y), Pairs(x, x)) == Pairs(x, y) && Pairs(x, x) > 0.0
  {
    hide *;
    SlopeIsQuotient(x, y);
    DenominatorIsPairs(x);
    SpreadIsPairs(x, y);
    SmallIsPositive();
  }

  lemma SmallIsPositive()
    ensures SMALL > 0.0
  {
  }

  lemma DenominatorIsPairs(x: seq<real>)
    ensures Denominator(x) == Pairs(x, x)
  {
    SpreadIsPairs(x, x);
  }

  lemma Cancel(m: real, m': real, d: real, a: real)
    requires d > 0.0 && Product(m, d) == a && a == m' * d
    ensures m == m'
  {
    assert (m - m') * d == 0.0;
  }

  /** Usage that grows along a line gives exactly the line's slope, if and only if the
      timestamps are far enough apart to stay out of the fallback, or the line is flat. */
  lemma LineIsRecovered(x: seq<real>, y: seq<real>, m: real, c: real)
    requires OnLine(x, y, m, c) && |x| == |y| >= 2
    ensures Slope(x, y) == m <==> Denominator(x) >= SMALL || m == 0.0
  {
    if Denominator(x) >= SMALL {
      SlopeOnLine(x, y, m, c);
    } else {
      var d := x[|x| - 1] - x[0];
      ChangeOnLine(x, y, m, c, d);
      OnlyZero(m, d);
    }
  }

  lemma SlopeOnLine(x: seq<real>, y: seq<real>, m: real, c: real)
    requires OnLine(x, y, m, c) && |x| == |y| >= 2 && Denominator(x) >= SMALL
    ensures Slope(x, y) == m
  {
    hide *;
    SlopeOfPairs(x, y);
    PairsOnLine(x, x, y, m, c);
    Cancel(Slope(x, y), m, Pairs(x, x), Pairs(x, y));
  }

  lemma ChangeOnLine(x: seq<real>, y: seq<real>, m: real, c: real, d: real)
    requires OnLine(x, y, m, c) && |x| == |y| >= 2 && Denominator(x) < SMALL && d == x[|x| - 1] - x[0]
    ensures -0.001 < d < 0.001
    ensures Slope(x, y) == m * d
  {
    FallbackIsPlainChange(x, y);
    LastChangeOnLine(x, y, m, c, d);
  }

  lemma LastChangeOnLine(x: seq<real>, y: seq<real>, m: real, c: real, d: real)
    requires OnLine(x, y, m, c) && |x| >= 2 && d == x[|x| - 1] - x[0]
    ensures y[|y| - 1] - y[0] == m * d
  {
    LineChange(m, c, x[|x| - 1], x[0], y[|x| - 1], y[0]);
  }

  lemma LineChange(m: real, c: real, xk: real, xi: real, yk: real, yi: real)
    requires yk == m * xk + c && yi == m * xi + c
    ensures yk - yi == m * (xk - xi)
  {
  }

  lemma OnlyZero(m: real, d: real)
    requires d < 1.0
    ensures m * d == m <==> m == 0.0
  {
    if m * d == m {
      assert m * (1.0 - d) == 0.0;
    }
  }

  // ---- Least squares ----

  /** What the line `m * x + c` leaves unexplained. */
  function Residuals(x: seq<real>, y: seq<real>, m: real, c: real): (r: seq<real>)
    requires |x| == |y|
    ensures |r| == |x|
  {
    seq(|x|, i requires 0 <= i < |x| => y[i] - (m * x[i] + c))
  }

  function SquaredError(x: seq<real>, y: seq<real>, m: real, c: real): real
    requires |x| == |y|
  {
    var r := Residuals(x, y, m, c);
    Dot(r, r, |x|)
  }

  lemma ResidualAt(x: seq<real>, y: seq<real>, m: real, c: real, i: nat)
    requires i < |x| == |y|
    ensures Residuals(x, y, m, c)[i] == y[i] - (m * x[i] + c)
  {
  }

  lemma ResidualProduct(m: real, c: real, rk: real, ri: real, yk: real, yi: real, xk: real, xi: real, a: real, b: real)
    requires rk == yk - (m * xk + c) && ri == yi - (m * xi + c) && a == -2.0 * m && b == m * m
    ensures ProductOfDifferences(rk, rk, ri, ri)
         == ProductOfDifferences(yk, yk, yi, yi) + a * ProductOfDifferences(xk, yk, xi, yi) + b * ProductOfDifferences(xk, xk, xi, xi)
  {
    ResidualSquare(m, rk - ri, yk - yi, xk - xi);
    Coefficients(m, a, b, (xk - xi) * (yk - yi), (xk - xi) * (xk - xi));
  }

  lemma ResidualSquare(m: real, dr: real, dy: real, dx: real)
    requires dr == dy - m * dx
    ensures dr * dr == dy * dy - 2.0 * m * (dx * dy) + m * m * (dx * dx)
  {
    SquareOfDifference(m * dx, dr, dy);
    MultipleProducts(m, dx, dy, m * dx);
  }

  lemma SquareOfDifference(p: real, dr: real, dy: real)
    requires dr == dy - p
    ensures dr * dr == dy * dy - 2.0 * (p * dy) + p * p
  {
  }

  lemma MultipleProducts(m: real, dx: real, dy: real, p: real)
    requires p == m * dx
    ensures p * dy == m * (dx * dy) && p * p == m * m * (dx * dx)
  {
  }

  lemma Coefficients(m: real, a: real, b: real, u: real, v: real)
    requires a == -2.0 * m && b == m * m
    ensures -2.0 * m * u + m * m * v == a * u + b * v
  {
  }

  lemma CrossOfResiduals(x: seq<real>, y: seq<real>, m: real, c: real, r: seq<real>, a: real, b: real, k: nat)
    requires k < |x| == |y| && r == Residuals(x, y, m, c) && a == -2.0 * m && b == m * m
    ensures Crosses(r, r)[k] == Crosses(y, y)[k] + a * Crosses(x, y)[k] + b * Crosses(x, x)[k]
  {
    hide *;
    forall i | 0 <= i < k
      ensures Products(r, r, k)[i] == Products(y, y, k)[i] + a * Products(x, y, k)[i] + b * Products(x, x, k)[i]
    {
      ProductOfResiduals(x, y, m, c, r, a, b, k, i);
    }
    Combination(Products(r, r, k), Products(y, y, k), Products(x, y, k), Products(x, x, k), a, b);
    CrossIsSum(r, r, k);
    CrossIsSum(y, y, k);
    CrossIsSum(x, y, k);
    CrossIsSum(x, x, k);
  }

  lemma CrossIsSum(x: seq<real>, y: seq<real>, k: nat)
    requires k < |x| == |y|
    ensures Crosses(x, y)[k] == RealSum(Products(x, y, k))
  {
  }

  lemma ProductOfResiduals(x: seq<real>, y: seq<real>, m: real, c: real, r: seq<real>, a: real, b: real, k: nat, i: nat)
    requires i < k < |x| == |y| && r == Residuals(x, y, m, c) && a == -2.0 * m && b == m * m
    ensures Products(r, r, k)[i] == Products(y, y, k)[i] + a * Products(x, y, k)[i] + b * Products(x, x, k)[i]
  {
    hide *;
    ResidualAt(x, y, m, c, k);
    ResidualAt(x, y, m, c, i);
    ProductAt(r, r, k, i);
    ProductAt(y, y, k, i);
    ProductAt(x, y, k, i);
    ProductAt(x, x, k, i);
    ResidualProduct(m, c, r[k], r[i], y[k], y[i], x[k], x[i], a, b);
  }

  lemma PairsOfResiduals(x: seq<real>, y: seq<real>, m: real, c: real, r: seq<real>, a: real, b: real)
    requires |x| == |y| && r == Residuals(x, y, m, c) && a == -2.0 * m && b == m * m
    ensures Pairs(r, r) == Pairs(y, y) + a * Pairs(x, y) + b * Pairs(x, x)
  {
    hide *;
    forall k | 0 <= k < |x|
      ensures Crosses(r, r)[k] == Crosses(y, y)[k] + a * Crosses(x, y)[k] + b * Crosses(x, x)[k]
    {
      CrossOfResiduals(x, y, m, c, r, a, b, k);
    }
    Combination(Crosses(r, r), Crosses(y, y), Crosses(x, y), Crosses(x, x), a, b);
    PairsIs(r, r);
    PairsIs(y, y);
    PairsIs(x, y);
    PairsIs(x, x);
  }

  lemma PairsIs(x: seq<real>, y: seq<real>)
    requires |x| == |y|
    ensures Pairs(x, y) == RealSum(Crosses(x, y))
  {
  }

  lemma SumOfResiduals(x: seq<real>, y: seq<real>, m: real, c: real, a: real, b: real)
    requires |x| == |y| && a == -m && b == -c
    ensures RealSum(Residuals(x, y, m, c)) == RealSum(y) + a * RealSum(x) + b * (|x| as real)
  {
    var ones := seq(|x|, _ => 1.0);
    hide *;
    forall i | 0 <= i < |x|
      ensures Residuals(x, y, m, c)[i] == y[i] + a * x[i] + b * ones[i]
    {
      ResidualAt(x, y, m, c, i);
      ResidualEntry(x[i], y[i], m, c, a, b);
    }
    Combination(Residuals(x, y, m, c), y, x, ones, a, b);
    SumOfConstant(ones, 1.0, |ones|);
    SumOfAll(ones);
  }

  lemma ResidualEntry(x: real, y: real, m: real, c: real, a: real, b: real)
    requires a == -m && b == -c
    ensures y - (m * x + c) == y + a * x + b * 1.0
  {
  }

  /** The intercept that goes with a slope: the line runs through the mean point. */
  function Intercept(x: seq<real>, y: seq<real>, m: real): real
    requires |x| == |y| > 0
  {
    (RealSum(y) - m * RealSum(x)) / (|x| as real)
  }

  /** The sum of a line's residuals: how far it misses the mean point, times the number of points. */
  function Miss(n: real, sx: real, sy: real, m: real, c: real): real {
    sy - m * sx - n * c
  }

  /** `n` times the squared error of a line: its squared miss, and a square in the slope alone. */
  function ErrorFormula(miss: real, m: real, yy: real, xy: real, xx: real): real {
    miss * miss + (yy - 2.0 * m * xy + m * m * xx)
  }

  lemma ErrorInNumbers(n: real, error: real, s: real, sx: real, sy: real, m: real, c: real, a: real, b: real, a': real, b': real,
                       yy: real, xy: real, xx: real)
    requires a == -2.0 * m && b == m * m && a' == -m && b' == -c && s == sy + a' * sx + b' * n
    requires SpreadOf(n, s, s, error) == yy + a * xy + b * xx
    ensures Product(n, error) == ErrorFormula(Miss(n, sx, sy, m, c), m, yy, xy, xx)
  {
    assert s == Miss(n, sx, sy, m, c);
    assert s * s == Miss(n, sx, sy, m, c) * Miss(n, sx, sy, m, c);
  }

  /** How the squared error of a line depends on its slope and intercept. */
  lemma ErrorOfLine(x: seq<real>, y: seq<real>, m: real, c: real)
    requires |x| == |y|
    ensures Product(|x| as real, SquaredError(x, y, m, c))
         == ErrorFormula(Miss(|x| as real, RealSum(x), RealSum(y), m, c), m, Pairs(y, y), Pairs(x, y), Pairs(x, x))
  {
    hide *;
    var r := Residuals(x, y, m, c);
    PairsOfResiduals(x, y, m, c, r, -2.0 * m, m * m);
    SpreadIsPairs(r, r);
    ErrorIsSpread(x, y, m, c, r);
    SumOfResiduals(x, y, m, c, -m, -c);
    ErrorInNumbers(|x| as real, SquaredError(x, y, m, c), RealSum(r), RealSum(x), RealSum(y), m, c,
                   -2.0 * m, m * m, -m, -c, Pairs(y, y), Pairs(x, y), Pairs(x, x));
  }

  lemma ErrorIsSpread(x: seq<real>, y: seq<real>, m: real, c: real, r: seq<real>)
    requires |x| == |y| && r == Residuals(x, y, m, c)
    ensures Spread(r, r, |r|) == SpreadOf(|x| as real, RealSum(r), RealSum(r), SquaredError(x, y, m, c))
  {
  }

  lemma CompleteTheSquare(a: real, b: real, d: real, best: real, m: real)
    requires best * d == b
    ensures (a - 2.0 * m * b + m * m * d) - (a - 2.0 * best * b + best * best * d) == d * ((m - best) * (m - best))
  {
    assert best * best * d == best * b;
    assert m * best * d == m * b;
    assert (m - best) * (m - best) == m * m - 2.0 * (m * best) + best * best;
    assert d * ((m - best) * (m - best)) == m * m * d - 2.0 * (m * best * d) + best * best * d;
  }

  lemma PositiveProduct(a: real, b: real)
    requires a > 0.0
    ensures b > 0.0 ==> a * b > 0.0
    ensures b == 0.0 ==> a * b == 0.0
    ensures b < 0.0 ==> a * b < 0.0
  {
  }

  lemma LeastOf(n: real, error: real, least: real, s: real, d: real, gap: real)
    requires n > 0.0 && d > 0.0 && n * (error - least) == Square(s) + d * Square(gap)
    ensures s == 0.0 && gap == 0.0 ==> least == error
    ensures s != 0.0 || gap != 0.0 ==> least < error
  {
    hide *;
    SquareSign(s);
    SquareSign(gap);
    PositiveProduct(d, Square(gap));
    PositiveProduct(n, error - least);
  }

  /** In numbers: `error` and `least` are the squared errors of the lines (m, c) and
      (best, through), and the second line runs through the mean point. */
  lemma Compare(n: real, sx: real, sy: real, yy: real, xy: real, xx: real,
                best: real, through: real, least: real, m: real, c: real, error: real)
    requires n > 0.0 && xx > 0.0 && Product(best, xx) == xy && Product(through, n) == sy - Product(best, sx)
    requires Product(n, error) == ErrorFormula(Miss(n, sx, sy, m, c), m, yy, xy, xx)
    requires Product(n, least) == ErrorFormula(Miss(n, sx, sy, best, through), best, yy, xy, xx)
    ensures least <= error
    ensures least == error <==> m == best && c == through
  {
    hide *;
    MissOfMean(n, sx, sy, best, through, through);
    NoGap(n, through);
    ExcessOfLines(n, error, least, Miss(n, sx, sy, m, c), Miss(n, sx, sy, best, through), yy, xy, xx, m, best);
    LeastOf(n, error, least, Miss(n, sx, sy, m, c), xx, m - best);
    if m == best {
      MissOfMean(n, sx, sy, m, c, through);
      PositiveProduct(n, through - c);
    }
  }

  lemma NoGap(n: real, through: real)
    ensures n * (through - through) == 0.0
  {
  }

  lemma ExcessOfLines(n: real, error: real, least: real, miss: real, none: real, yy: real, xy: real, xx: real, m: real, best: real)
    requires none == 0.0 && Product(best, xx) == xy
    requires Product(n, error) == ErrorFormula(miss, m, yy, xy, xx) && Product(n, least) == ErrorFormula(none, best, yy, xy, xx)
    ensures n * (error - least) == Square(miss) + xx * Square(m - best)
  {
    CompleteTheSquare(yy, xy, xx, best, m);
    ExcessIs(n, error, least, miss, yy - 2.0 * m * xy + m * m * xx, yy - 2.0 * best * xy + best * best * xx, xx, m - best);
  }

  lemma ExcessIs(n: real, error: real, least: real, miss: real, a: real, b: real, d: real, gap: real)
    requires n * error == miss * miss + a && n * least == b && a - b == d * (gap * gap)
    ensures n * (error - least) == Square(miss) + d * Square(gap)
  {
  }

  lemma MissOfMean(n: real, sx: real, sy: real, m: real, c: real, through: real)
    requires Product(through, n) == sy - Product(m, sx)
    ensures Miss(n, sx, sy, m, c) == n * (through - c)
  {
  }

  /** The intercept undoes its division. */
  lemma InterceptFits(x: seq<real>, y: seq<real>, m: real)
    requires |x| == |y| > 0
    ensures Product(Intercept(x, y, m), |x| as real) == RealSum(y) - Product(m, RealSum(x))
  {
    DivideBack(RealSum(y) - m * RealSum(x), |x| as real);
  }

  /** A line through the mean point whose slope fits the pair sums has the least error. */
  lemma FittedLineIsBest(x: seq<real>, y: seq<real>, best: real, through: real, m: real, c: real)
    requires |x| == |y| > 0 && Pairs(x, x) > 0.0 && Product(best, Pairs(x, x)) == Pairs(x, y)
    requires Product(through, |x| as real) == RealSum(y) - Product(best, RealSum(x))
    ensures SquaredError(x, y, best, through) <= SquaredError(x, y, m, c)
    ensures SquaredError(x, y, best, through) == SquaredError(x, y, m, c) <==> m == best && c == through
  {
    hide *;
    ErrorOfLine(x, y, m, c);
    ErrorOfLine(x, y, best, through);
    Compare(|x| as real, RealSum(x), RealSum(y), Pairs(y, y), Pairs(x, y), Pairs(x, x),
            best, through, SquaredError(x, y, best, through), m, c, SquaredError(x, y, m, c));
  }

  /** Outside the fallback the slope, with its intercept, is the one line whose squared error
      is least: every other line is strictly worse. */
  lemma SlopeIsLeastSquares(x: seq<real>, y: seq<real>, m: real, c: real)
    requires |x| == |y| >= 2 && Denominator(x) >= SMALL
    ensures var best := Slope(x, y);
      var through := Intercept(x, y, best);
      && SquaredError(x, y, best, through) <= SquaredError(x, y, m, c)
      && (SquaredError(x, y, best, through) == SquaredError(x, y, m, c) <==> m == best && c == through)
  {
    hide *;
    SlopeOfPairs(x, y);
    InterceptFits(x, y, Slope(x, y));
    FittedLineIsBest(x, y, Slope(x, y), Intercept(x, y, Slope(x, y)), m, c);
  }

  // ---- The returned value ----

  /** What is returned is a multiple of 0.0001 within 0.00005 of the slope, and no multiple is
      closer; in the fallback it is the slope itself. */
  lemma ReturnedValue(snapshots: seq<Snapshot>, k: int)
    requires |snapshots| >= 2
    ensures var x, y := Times(snapshots), Usages(snapshots);
      var exact, returned := Slope(x, y), CalculateKvSlope(snapshots);
      && (Denominator(x) < SMALL ==> returned == exact == y[|y| - 1] - y[0])
      && (Denominator(x) >= SMALL ==>
           && Abs(returned - exact) <= 0.00005
           && Abs(returned - exact) <= Abs(k as real / 10000.0 - exact))
  {
    var x, y := Times(snapshots), Usages(snapshots);
    DenominatorSign(x);
    if Denominator(x) < SMALL {
      FallbackIsPlainChange(x, y);
    } else {
      Nearest(Slope(x, y), k);
    }
  }

  lemma Scale(v: real, r: real)
    ensures Abs(r - v * 10000.0) == 10000.0 * Abs(r / 10000.0 - v)
  {
  }

  lemma Nearest(v: real, k: int)
    ensures Abs(RoundTo4(v) - v) <= 0.00005
    ensures Abs(RoundTo4(v) - v) <= Abs(k as real / 10000.0 - v)
  {
    var r := RoundHalfEven(v * 10000.0);
    NearestInteger(v * 10000.0, k);
    Scale(v, r as real);
    Scale(v, k as real);
  }

  lemma NearestInteger(v: real, k: int)
    ensures Abs(RoundHalfEven(v) as real - v) <= Abs(k as real - v)
  {
    var r := RoundHalfEven(v);
    if k < r {
      assert k as real <= r as real - 1.0;
    } else if k > r {
      assert k as real >= r as real + 1.0;
    }
  }

  /** A window that lies on a line: the returned value is the line's slope rounded, except that
      in the fallback it is the slope times the few moments between first and last. */
  lemma LineOfSnapshots(snapshots: seq<Snapshot>, m: real, c: real)
    requires |snapshots| >= 2 && OnLine(Times(snapshots), Usages(snapshots), m, c)
    ensures var x := Times(snapshots);
      CalculateKvSlope(snapshots) == if Denominator(x) >= SMALL then RoundTo4(m) else m * (x[|x| - 1] - x[0])
  {
    var x, y := Times(snapshots), Usages(snapshots);
    DenominatorSign(x);
    if Denominator(x) >= SMALL {
      SlopeOnLine(x, y, m, c);
    } else {
      ChangeOnLine(x, y, m, c, x[|x| - 1] - x[0]);
    }
  }

  // ---- What the fields of a snapshot count as ----

  /** Fewer than two snapshots have no trend. */
  lemma ShortWindow(snapshots: seq<Snapshot>)
    requires |snapshots| < 2
    ensures CalculateKvSlope(snapshots) == 0.0
  {
  }

  /** A missing timestamp counts as the position in the window, a missing usage as 0.0. */
  lemma MissingFields(snapshots: seq<Snapshot>, filled: seq<Snapshot>)
    requires |snapshots| == |filled|
    requires forall i | 0 <= i < |snapshots| ::
      && filled[i].timestamp == (if snapshots[i].timestamp.None? then Some(i as real) else snapshots[i].timestamp)
      && filled[i].kvCacheUsage == (if snapshots[i].kvCacheUsage.None? then Some(0.0) else snapshots[i].kvCacheUsage)
    ensures CalculateKvSlope(snapshots) == CalculateKvSlope(filled)
  {
    assert Times(snapshots) == Times(filled);
    assert Usages(snapshots) == Usages(filled);
    hide Times, Usages, Slope, Denominator, RoundTo4;
  }

  lemma TwoTimes(x0: real, x1: real)
    ensures Denominator([x0, x1]) == Square(x1 - x0)
  {
    DenominatorIsPairs([x0, x1]);
    var c := Crosses([x0, x1], [x0, x1]);
    assert Products([x0, x1], [x0, x1], 1)[0] == ProductOfDifferences(x1, x1, x0, x0);
    GapSquared(x1, x0);
    hide Products, ProductOfDifferences, Square;
    assert c[0] == 0.0 && c[1] == RealSumUpTo(Products([x0, x1], [x0, x1], 1), 0) + Products([x0, x1], [x0, x1], 1)[0];
    assert Pairs([x0, x1], [x0, x1]) == RealSumUpTo(c, 1) + c[1] == RealSumUpTo(c, 0) + c[0] + c[1];
  }

  lemma SmallExactly(d: real)
    ensures Square(d) < SMALL <==> -0.001 < d < 0.001
  {
    if Square(d) < SMALL {
      SmallSquare(d);
    } else if -0.001 < d < 0.001 {
      SquareBelow(if d < 0.0 then -d else d);
      SquareOfNegation(d);
    }
  }

  lemma SquareBelow(a: real)
    requires 0.0 <= a < 0.001
    ensures Square(a) < SMALL
  {
    assert a * a <= 0.001 * a;
  }

  /** Two snapshots: the change of the usage per second, rounded, if they are a millisecond or
      more apart, and the plain change otherwise. */
  lemma TwoSnapshots(t0: real, t1: real, u0: real, u1: real)
    requires t1 != 0.0
    ensures var snapshots := [Snapshot(Some(t0), Some(u0)), Snapshot(Some(t1), Some(u1))];
      CalculateKvSlope(snapshots) == if -0.001 < t1 - t0 < 0.001 then u1 - u0 else RoundTo4((u1 - u0) / (t1 - t0))
  {
    var snapshots := [Snapshot(Some(t0), Some(u0)), Snapshot(Some(t1), Some(u1))];
    var x, y, d := [t0, t1], [u0, u1], t1 - t0;
    assert Times(snapshots) == x && Usages(snapshots) == y;
    TwoTimes(t0, t1);
    SmallExactly(d);
    hide Denominator, Slope, RoundTo4, Times, Usages, Square;
    DenominatorSign(x);
    if -0.001 < d < 0.001 {
      FallbackIsPlainChange(x, y);
    } else {
      LineThrough(t0, t1, u0, u1, (u1 - u0) / d);
      SlopeOnLine(x, y, (u1 - u0) / d, u0 - (u1 - u0) / d * t0);
    }
  }

  lemma LineThrough(t0: real, t1: real, u0: real, u1: real, m: real)
    requires t1 != t0 && m == (u1 - u0) / (t1 - t0)
    ensures OnLine([t0, t1], [u0, u1], m, u0 - m * t0)
  {
    DivideBack(u1 - u0, t1 - t0);
    assert m * t1 - m * t0 == m * (t1 - t0);
  }
}
