/** Finite sums, quotients and the positive variation of a counter, shared by the timing, replay,
    summary and trend modules. */
module Sums {

  function RealSumUpTo(s: seq<real>, n: nat): real
    requires n <= |s|
  {
    if n == 0 then 0.0 else RealSumUpTo(s, n - 1) + s[n - 1]
  }

  function RealSum(s: seq<real>): real {
    RealSumUpTo(s, |s|)
  }

  lemma {:induction false} RealSumAppend(a: seq<real>, b: seq<real>)
    ensures RealSum(a + b) == RealSum(a) + RealSum(b)
  {
    RealSumPrefix(a + b, a, |a|);
    RealSumSuffix(a, b, |b|);
  }

  lemma RealSumSnoc(s: seq<real>, x: real)
    ensures RealSum(s + [x]) == RealSum(s) + x
  {
    RealSumPrefix(s + [x], s, |s|);
  }

  lemma RealSumCons(x: real, s: seq<real>)
    ensures RealSum([x] + s) == x + RealSum(s)
  {
    RealSumAppend([x], s);
    assert RealSumUpTo([x], 1) == RealSumUpTo([x], 0) + x;
  }

  lemma {:induction false} RealSumPrefix(s: seq<real>, t: seq<real>, n: nat)
    requires n <= |s| && n <= |t| && forall i | 0 <= i < n :: s[i] == t[i]
    ensures RealSumUpTo(s, n) == RealSumUpTo(t, n)
  {
    if n > 0 {
      RealSumPrefix(s, t, n - 1);
    }
  }

  lemma {:induction false} RealSumSuffix(a: seq<real>, b: seq<real>, n: nat)
    requires n <= |b|
    ensures RealSumUpTo(a + b, |a| + n) == RealSumUpTo(a + b, |a|) + RealSumUpTo(b, n)
  {
    if n > 0 {
      RealSumSuffix(a, b, n - 1);
    }
  }

  function IntSumUpTo(s: seq<int>, n: nat): int
    requires n <= |s|
  {
    if n == 0 then 0 else IntSumUpTo(s, n - 1) + s[n - 1]
  }

  function IntSum(s: seq<int>): int {
    IntSumUpTo(s, |s|)
  }

  lemma {:induction false} IntSumAppend(a: seq<int>, b: seq<int>)
    ensures IntSum(a + b) == IntSum(a) + IntSum(b)
  {
    IntSumPrefix(a + b, a, |a|);
    IntSumSuffix(a, b, |b|);
  }

  lemma IntSumSnoc(s: seq<int>, x: int)
    ensures IntSum(s + [x]) == IntSum(s) + x
  {
    IntSumPrefix(s + [x], s, |s|);
  }

  lemma IntSumCons(x: int, s: seq<int>)
    ensures IntSum([x] + s) == x + IntSum(s)
  {
    IntSumAppend([x], s);
    assert IntSumUpTo([x], 1) == IntSumUpTo([x], 0) + x;
  }

  lemma {:induction false} IntSumPrefix(s: seq<int>, t: seq<int>, n: nat)
    requires n <= |s| && n <= |t| && forall i | 0 <= i < n :: s[i] == t[i]
    ensures IntSumUpTo(s, n) == IntSumUpTo(t, n)
  {
    if n > 0 {
      IntSumPrefix(s, t, n - 1);
    }
  }

  lemma {:induction false} IntSumSuffix(a: seq<int>, b: seq<int>, n: nat)
    requires n <= |b|
    ensures IntSumUpTo(a + b, |a| + n) == IntSumUpTo(a + b, |a|) + IntSumUpTo(b, n)
  {
    if n > 0 {
      IntSumSuffix(a, b, n - 1);
    }
  }

  function RealMin(a: real, b: real): real {
    if a < b then a else b
  }

  function RealMax(a: real, b: real): real {
    if a < b then b else a
  }

  lemma DivideBack(a: real, d: real)
    requires d != 0.0
    ensures a / d * d == a
  {
  }

  /** A mean, weighted with how many values it stands for. */
  function Weigh(mean: real, count: real): real {
    mean * count
  }

  lemma MeanTimesCount(sum: real, count: real)
    requires count != 0.0
    ensures Weigh(sum / count, count) == sum
  {
    DivideBack(sum, count);
  }

  function Max(a: int, b: int): int {
    if a < b then b else a
  }

  /** The gaps between neighbouring readings. */
  function Gaps(s: seq<real>): seq<real> {
    if |s| < 2 then [] else [s[1] - s[0]] + Gaps(s[1..])
  }

  lemma {:induction false} GapsSnoc(s: seq<real>, x: real)
    requires s != []
    ensures Gaps(s + [x]) == Gaps(s) + [x - s[|s| - 1]]
  {
    var rest := s[1..];
    assert (s + [x])[1..] == rest + [x];
    if |s| > 1 {
      GapsSnoc(rest, x);
      assert Gaps(s + [x]) == [s[1] - s[0]] + Gaps(rest + [x]);
    }
  }

  lemma {:induction false} GapsAt(s: seq<real>)
    ensures |Gaps(s)| == if s == [] then 0 else |s| - 1
    ensures forall i | 0 <= i < |Gaps(s)| :: Gaps(s)[i] == s[i + 1] - s[i]
  {
    if |s| >= 2 {
      GapsAt(s[1..]);
    }
  }

  /** Gaps telescope. */
  lemma {:induction false} GapsTelescope(s: seq<real>)
    requires s != []
    ensures RealSum(Gaps(s)) == s[|s| - 1] - s[0]
  {
    if |s| > 1 {
      GapsTelescope(s[1..]);
      RealSumCons(s[1] - s[0], Gaps(s[1..]));
    }
  }

  /** The rises of a counter: how much each reading exceeds the one before it. */
  function Rises(s: seq<int>): seq<int> {
    if |s| < 2 then [] else [Max(0, s[1] - s[0])] + Rises(s[1..])
  }

  function PositiveVariation(s: seq<int>): int {
    IntSum(Rises(s))
  }

  predicate Ascending(s: seq<int>) {
    forall i, j | 0 <= i < j < |s| :: s[i] <= s[j]
  }

  lemma {:induction false} PositiveVariationSnoc(s: seq<int>, x: int)
    ensures PositiveVariation(s + [x]) ==
      if s == [] then 0 else PositiveVariation(s) + Max(0, x - s[|s| - 1])
  {
    if s != [] {
      PositiveVariationCons(s + [x]);
      assert (s + [x])[1..] == s[1..] + [x];
      if |s| > 1 {
        PositiveVariationCons(s);
        PositiveVariationSnoc(s[1..], x);
      }
    }
  }

  lemma PositiveVariationCons(s: seq<int>)
    requires |s| > 1
    ensures PositiveVariation(s) == Max(0, s[1] - s[0]) + PositiveVariation(s[1..])
  {
    IntSumCons(Max(0, s[1] - s[0]), Rises(s[1..]));
  }

  /** The rises of a counter add up to at least its net change, and to exactly that when and
      only when it never falls. */
  lemma {:induction false} VariationBoundsChange(s: seq<int>)
    requires s != []
    ensures PositiveVariation(s) >= Max(0, s[|s| - 1] - s[0])
    ensures PositiveVariation(s) == s[|s| - 1] - s[0] <==> Ascending(s)
  {
    if |s| > 1 {
      var rest := s[1..];
      PositiveVariationCons(s);
      VariationBoundsChange(rest);
      assert Ascending(s) <==> Ascending(rest) && s[0] <= s[1] by {
        if Ascending(s) {
          assert forall i, j | 0 <= i < j < |rest| :: rest[i] == s[i + 1] <= s[j + 1] == rest[j];
        }
        if Ascending(rest) && s[0] <= s[1] {
          assert forall i, j | 0 < i < j < |s| :: s[i] == rest[i - 1] <= rest[j - 1] == s[j];
        }
      }
    }
  }
}
