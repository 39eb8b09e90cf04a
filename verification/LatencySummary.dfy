/** Summaries (count, minimum, maximum, mean) of latencies, and their merge. */
module LatencySummary {
  import opened Sums

  datatype Summary = Summary(count: nat, min: real, max: real, avg: real)

  /** Insertion into an ascending list. */
  function Insert(x: real, s: seq<real>): seq<real> {
    if s == [] || x <= s[0] then [x] + s else [s[0]] + Insert(x, s[1..])
  }

  /** The first `n` values in ascending order. */
  function SortUpTo(values: seq<real>, n: nat): seq<real>
    requires n <= |values|
  {
    if n == 0 then [] else Insert(values[n - 1], SortUpTo(values, n - 1))
  }

  function Sorted(values: seq<real>): (ordered: seq<real>)
    ensures |ordered| == |values|
  {
    SortedLength(values, |values|);
    SortUpTo(values, |values|)
  }

  lemma {:induction false} InsertLength(x: real, s: seq<real>)
    ensures |Insert(x, s)| == |s| + 1
  {
    if s != [] && s[0] < x {
      InsertLength(x, s[1..]);
    }
  }

  lemma {:induction false} SortedLength(values: seq<real>, n: nat)
    requires n <= |values|
    ensures |SortUpTo(values, n)| == n
  {
    if n > 0 {
      SortedLength(values, n - 1);
      InsertLength(values[n - 1], SortUpTo(values, n - 1));
    }
  }

  /** The summary of a list that is not empty. */
  function DurationSummary(values: seq<real>): Summary
    requires values != []
  {
    var ordered := Sorted(values);
    Summary(|ordered|, ordered[0], ordered[|ordered| - 1], RealSum(ordered) / |ordered| as real)
  }

  function WeightedMean(a: real, m: real, b: real, n: real): real
    requires m + n != 0.0
  {
    (a * m + b * n) / (m + n)
  }

  /** Merges an incoming summary into an existing one. */
  function Merge(existing: Summary, incoming: Summary): Summary {
    if incoming.count == 0 then existing else
    Summary(existing.count + incoming.count, RealMin(existing.min, incoming.min), RealMax(existing.max, incoming.max),
            WeightedMean(existing.avg, existing.count as real, incoming.avg, incoming.count as real))
  }

  // ---- What a summary says ----

  predicate Ascends(s: seq<real>) {
    forall i, j | 0 <= i <= j < |s| :: s[i] <= s[j]
  }

  lemma {:induction false} InsertAdds(x: real, s: seq<real>)
    ensures multiset(Insert(x, s)) == multiset(s) + multiset{x}
  {
    if s != [] && s[0] < x {
      var rest := s[1..];
      assert s == [s[0]] + rest;
      InsertAdds(x, rest);
    }
  }

  lemma {:induction false} InsertSum(x: real, s: seq<real>)
    ensures RealSum(Insert(x, s)) == RealSum(s) + x
  {
    hide RealSum;
    if s == [] || x <= s[0] {
      RealSumCons(x, s);
    } else {
      var rest := s[1..];
      assert s == [s[0]] + rest;
      InsertSum(x, rest);
      RealSumCons(s[0], rest);
      RealSumCons(s[0], Insert(x, rest));
    }
  }

  lemma {:induction false} InsertAscends(x: real, s: seq<real>)
    requires Ascends(s)
    ensures Ascends(Insert(x, s))
  {
    if s != [] && s[0] < x {
      var rest := s[1..];
      InsertAscends(x, rest);
      InsertAdds(x, rest);
      InsertAbove(x, s[0], rest, Insert(x, rest));
    }
  }

  lemma InsertAbove(x: real, low: real, rest: seq<real>, inserted: seq<real>)
    requires Ascends(inserted) && multiset(inserted) == multiset(rest) + multiset{x}
    requires low < x && forall v | v in rest :: low <= v
    ensures Ascends([low] + inserted)
  {
    forall i | 0 <= i < |inserted|
      ensures low <= inserted[i]
    {
      var v := inserted[i];
      assert v in multiset(inserted);
      if v != x {
        assert multiset(inserted)[v] == multiset(rest)[v];
        assert v in rest;
      }
    }
  }

  lemma EmptySum()
    ensures RealSum([]) == 0.0
  {
  }

  lemma EmptyAscends()
    ensures Ascends([])
  {
  }

  lemma {:induction false} SortKeeps(values: seq<real>, n: nat)
    requires n <= |values|
    ensures Ascends(SortUpTo(values, n))
    ensures multiset(SortUpTo(values, n)) == multiset(values[..n])
    ensures RealSum(SortUpTo(values, n)) == RealSumUpTo(values, n)
  {
    hide Insert, Ascends, RealSum;
    assert RealSum([]) == 0.0 by {
      EmptySum();
    }
    EmptyAscends();
    if n > 0 {
      SortKeeps(values, n - 1);
      InsertAdds(values[n - 1], SortUpTo(values, n - 1));
      InsertSum(values[n - 1], SortUpTo(values, n - 1));
      InsertAscends(values[n - 1], SortUpTo(values, n - 1));
      assert values[..n] == values[..n - 1] + [values[n - 1]];
    }
  }

  /** `s` counts `values`, bounds them by two of their own, and its mean times its count is
      their sum. */
  ghost predicate Summarizes(s: Summary, values: seq<real>) {
    && s.count == |values| > 0
    && s.min in values && s.max in values
    && (forall v | v in values :: s.min <= v <= s.max)
    && Weigh(s.avg, s.count as real) == RealSum(values)
  }

  lemma SummaryMeans(values: seq<real>)
    requires values != []
    ensures Summarizes(DurationSummary(values), values)
  {
    var ordered := Sorted(values);
    SortKeeps(values, |values|);
    assert values[..|values|] == values;
    MeanTimesCount(RealSum(ordered), |ordered| as real);
    forall v | v in values
      ensures ordered[0] <= v <= ordered[|ordered| - 1]
    {
      assert v in multiset(ordered);
    }
    assert ordered[0] in multiset(values) && ordered[|ordered| - 1] in multiset(values);
  }

  lemma EqualMeans(a: real, b: real, count: real)
    requires count > 0.0 && Weigh(a, count) == Weigh(b, count)
    ensures a == b
  {
    assert (a - b) * count == 0.0;
  }

  /** A list has one summary. */
  lemma SummaryIsUnique(s: Summary, t: Summary, values: seq<real>)
    requires Summarizes(s, values) && Summarizes(t, values)
    ensures s == t
  {
    EqualMeans(s.avg, t.avg, s.count as real);
  }

  lemma MergedMean(s: Summary, t: Summary)
    requires t.count > 0
    ensures Merge(s, t).count == s.count + t.count
    ensures Weigh(Merge(s, t).avg, Merge(s, t).count as real) == Weigh(s.avg, s.count as real) + Weigh(t.avg, t.count as real)
  {
    MeanTimesCount(Weigh(s.avg, s.count as real) + Weigh(t.avg, t.count as real), s.count as real + t.count as real);
  }

  /** The merge of two summaries summarizes the two lists together. */
  lemma MergeSummarizes(s: Summary, a: seq<real>, t: Summary, b: seq<real>)
    requires Summarizes(s, a) && Summarizes(t, b)
    ensures Summarizes(Merge(s, t), a + b)
  {
    hide Weigh, WeightedMean;
    MergedMean(s, t);
    RealSumAppend(a, b);
    var both := a + b;
    forall v | v in both
      ensures RealMin(s.min, t.min) <= v <= RealMax(s.max, t.max)
    {
      assert v in a || v in b;
    }
    assert forall v | v in a :: v in both;
    assert forall v | v in b :: v in both;
  }

  /** Merging two summaries is summarizing the concatenation. */
  lemma MergeIsConcatenation(a: seq<real>, b: seq<real>)
    requires a != [] && b != []
    ensures Merge(DurationSummary(a), DurationSummary(b)) == DurationSummary(a + b)
  {
    hide DurationSummary, Merge, Summarizes;
    SummaryMeans(a);
    SummaryMeans(b);
    SummaryMeans(a + b);
    MergeSummarizes(DurationSummary(a), a, DurationSummary(b), b);
    SummaryIsUnique(Merge(DurationSummary(a), DurationSummary(b)), DurationSummary(a + b), a + b);
  }

  lemma {:induction false} SumIsBounded(values: seq<real>, low: real, high: real, n: nat)
    requires n <= |values| && forall v | v in values :: low <= v <= high
    ensures Weigh(low, n as real) <= RealSumUpTo(values, n) <= Weigh(high, n as real)
  {
    if n > 0 {
      SumIsBounded(values, low, high, n - 1);
      assert values[n - 1] in values;
      OneMore(low, (n - 1) as real, n as real);
      OneMore(high, (n - 1) as real, n as real);
    }
  }

  lemma OneMore(x: real, m: real, n: real)
    requires n == m + 1.0
    ensures Weigh(x, n) == Weigh(x, m) + x
  {
  }

  lemma HeavierMeans(a: real, b: real, count: real)
    requires count > 0.0 && a < b
    ensures Weigh(a, count) < Weigh(b, count)
  {
    assert (b - a) * count > 0.0;
  }

  /** The mean of a summary lies between its bounds. */
  lemma MeanIsBetween(s: Summary, values: seq<real>)
    requires Summarizes(s, values)
    ensures s.min <= s.avg <= s.max
  {
    hide Weigh;
    SumIsBounded(values, s.min, s.max, |values|);
    if s.avg < s.min {
      HeavierMeans(s.avg, s.min, s.count as real);
    } else if s.max < s.avg {
      HeavierMeans(s.max, s.avg, s.count as real);
    }
  }

  lemma SameSummary(s: Summary, t: Summary)
    requires s.count == t.count > 0 && s.min == t.min && s.max == t.max
    requires Weigh(s.avg, s.count as real) == Weigh(t.avg, t.count as real)
    ensures s == t
  {
    EqualMeans(s.avg, t.avg, s.count as real);
  }

  lemma MergeCommutes(s: Summary, t: Summary)
    requires s.count > 0 && t.count > 0
    ensures Merge(s, t) == Merge(t, s)
  {
    hide Weigh, WeightedMean;
    MergedMean(s, t);
    MergedMean(t, s);
    SameSummary(Merge(s, t), Merge(t, s));
  }

  /** Two summaries can be merged into a third in either order. */
  lemma MergeOrder(e: Summary, s: Summary, t: Summary)
    requires s.count > 0 && t.count > 0
    ensures Merge(Merge(e, s), t) == Merge(Merge(e, t), s)
  {
    hide Weigh, WeightedMean;
    MergedMean(e, s);
    MergedMean(e, t);
    MergedMean(Merge(e, s), t);
    MergedMean(Merge(e, t), s);
    SameSummary(Merge(Merge(e, s), t), Merge(Merge(e, t), s));
  }
}
