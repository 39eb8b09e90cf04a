/** The two-way aggregation of replay results: per turn index over all sessions, and over all
    sessions as a whole. */
module ReplayMetrics {
  import opened Sums
  import opened RequestTiming
  import opened ReplayRunner

  datatype TurnMetrics = TurnMetrics(
    completed: nat, meanContextLen: real, meanOutputLen: real,
    meanTtftMs: real, meanTpotMs: real, meanE2elMs: real)

  datatype AggregateMetrics = AggregateMetrics(
    completedSessions: nat, totalSessions: nat, totalInputTokens: int, totalOutputTokens: int,
    totalWallTime: real, sessionThroughput: real, outputThroughput: real, totalTokenThroughput: real,
    meanTtftMs: real, meanTpotMs: real, meanE2elMs: real)

  const MS: real := 1000.0

  /** What a turn contributes to a reported mean; `Successes` makes every turn count once. */
  datatype Weight = Successes | ContextLen | OutputLen | Ttft | Tpot | E2el

  function WeightOf(f: Weight, turn: TurnResult): real {
    match f
    case Successes => 1.0
    case ContextLen => turn.contextLen as real
    case OutputLen => turn.outputLen as real
    case Ttft => turn.ttft
    case Tpot => turn.tpot
    case E2el => turn.e2el
  }

  /** The mean that is reported for a weight, latencies back in seconds. */
  function ReportedMean(f: Weight, m: TurnMetrics): real {
    match f
    case Successes => 1.0
    case ContextLen => m.meanContextLen
    case OutputLen => m.meanOutputLen
    case Ttft => m.meanTtftMs / MS
    case Tpot => m.meanTpotMs / MS
    case E2el => m.meanE2elMs / MS
  }

  function Mean(values: seq<real>): real {
    if values == [] then 0.0 else RealSum(values) / |values| as real
  }

  lemma MeanOfList(values: seq<real>)
    ensures Weigh(Mean(values), |values| as real) == RealSum(values)
  {
    if values != [] {
      MeanTimesCount(RealSum(values), |values| as real);
    }
  }

  lemma UnitMean(count: nat)
    ensures Weigh(1.0, count as real) == count as real
  {
  }

  predicate Hit(session: SessionResult, t: nat) {
    t < |session.turns| && session.turns[t].success
  }

  /** The weights of the successful turns at index `t`, over the first `n` sessions. */
  function Column(results: seq<SessionResult>, t: nat, n: nat, f: Weight): seq<real>
    requires n <= |results|
  {
    if n == 0 then [] else
    var before := Column(results, t, n - 1, f);
    if Hit(results[n - 1], t) then before + [WeightOf(f, results[n - 1].turns[t])] else before
  }

  lemma {:induction false} ColumnLengths(results: seq<SessionResult>, t: nat, n: nat, f: Weight, g: Weight)
    requires n <= |results|
    ensures |Column(results, t, n, f)| == |Column(results, t, n, g)|
  {
    if n > 0 {
      ColumnLengths(results, t, n - 1, f, g);
    }
  }

  /** The weights of the first `n` turns of one session that were successful. */
  function Row(turns: seq<TurnResult>, n: nat, f: Weight): seq<real>
    requires n <= |turns|
  {
    if n == 0 then [] else
    var before := Row(turns, n - 1, f);
    if turns[n - 1].success then before + [WeightOf(f, turns[n - 1])] else before
  }

  /** The rows of the first `n` sessions, one after the other. */
  function Rows(results: seq<SessionResult>, n: nat, f: Weight): seq<real>
    requires n <= |results|
  {
    if n == 0 then [] else
    Rows(results, n - 1, f) + Row(results[n - 1].turns, |results[n - 1].turns|, f)
  }

  function TurnSummary(results: seq<SessionResult>, t: nat): TurnMetrics {
    var n := |results|;
    TurnMetrics(|Column(results, t, n, Successes)|,
                Mean(Column(results, t, n, ContextLen)), Mean(Column(results, t, n, OutputLen)),
                Mean(Column(results, t, n, Ttft)) * MS, Mean(Column(results, t, n, Tpot)) * MS,
                Mean(Column(results, t, n, E2el)) * MS)
  }

  method SummarizeTurn(results: seq<SessionResult>, t: nat) returns (m: TurnMetrics)
    ensures m == TurnSummary(results, t)
  {
    var ttfts: seq<real>, tpots: seq<real>, e2els: seq<real> := [], [], [];
    var contexts: seq<real>, outputs: seq<real> := [], [];
    var successes := 0;
    for i := 0 to |results|
      invariant ttfts == Column(results, t, i, Ttft) && tpots == Column(results, t, i, Tpot)
      invariant e2els == Column(results, t, i, E2el)
      invariant contexts == Column(results, t, i, ContextLen) && outputs == Column(results, t, i, OutputLen)
      invariant successes == |Column(results, t, i, Successes)|
    {
      var session := results[i];
      if t < |session.turns| {
        var turn := session.turns[t];
        if turn.success {
          ttfts, tpots, e2els := ttfts + [turn.ttft], tpots + [turn.tpot], e2els + [turn.e2el];
          contexts, outputs := contexts + [turn.contextLen as real], outputs + [turn.outputLen as real];
          successes := successes + 1;
        }
      }
    }
    m := TurnMetrics(successes, Mean(contexts), Mean(outputs), Mean(ttfts) * MS, Mean(tpots) * MS, Mean(e2els) * MS);
  }

  predicate IsComplete(session: SessionResult) {
    session.turns != [] && forall t | t in session.turns :: t.success
  }

  function CompleteCount(results: seq<SessionResult>, n: nat): nat
    requires n <= |results|
  {
    if n == 0 then 0 else CompleteCount(results, n - 1) + if IsComplete(results[n - 1]) then 1 else 0
  }

  function InputTotal(results: seq<SessionResult>, n: nat): int
    requires n <= |results|
  {
    if n == 0 then 0 else InputTotal(results, n - 1) + results[n - 1].totalInputTokens
  }

  function OutputTotal(results: seq<SessionResult>, n: nat): int
    requires n <= |results|
  {
    if n == 0 then 0 else OutputTotal(results, n - 1) + results[n - 1].totalOutputTokens
  }

  method CollectRow(turns: seq<TurnResult>, f: Weight) returns (values: seq<real>)
    ensures values == Row(turns, |turns|, f)
  {
    values := [];
    for i := 0 to |turns|
      invariant values == Row(turns, i, f)
    {
      if turns[i].success {
        values := values + [WeightOf(f, turns[i])];
      }
    }
  }

  method CollectRows(results: seq<SessionResult>, f: Weight) returns (values: seq<real>)
    ensures values == Rows(results, |results|, f)
  {
    values := [];
    for i := 0 to |results|
      invariant values == Rows(results, i, f)
    {
      var row := CollectRow(results[i].turns, f);
      values := values + row;
    }
  }

  /** The longest session duration, at least zero. */
  ghost predicate IsWallTime(results: seq<SessionResult>, n: nat, wall: real)
    requires n <= |results|
  {
    && wall >= 0.0
    && (forall i | 0 <= i < n :: results[i].duration <= wall)
    && (wall == 0.0 || exists i :: 0 <= i < n && results[i].duration == wall)
  }

  /** The wall time is a function of the session durations: none is longer, and no other value fits. */
  lemma WallTimeIsUnique(results: seq<SessionResult>, wall: real, other: real)
    requires IsWallTime(results, |results|, wall) && IsWallTime(results, |results|, other)
    ensures wall == other >= 0.0
    ensures forall s | s in results :: s.duration <= wall
    ensures (forall s | s in results :: s.duration <= 0.0) <==> wall == 0.0
  {
    forall s | s in results ensures s.duration <= wall && s.duration <= other {
      var i :| 0 <= i < |results| && results[i] == s;
    }
  }

  method CountSessions(results: seq<SessionResult>)
    returns (completed: nat, totalInput: int, totalOutput: int, wall: real)
    ensures completed == CompleteCount(results, |results|) <= |results|
    ensures totalInput == InputTotal(results, |results|) && totalOutput == OutputTotal(results, |results|)
    ensures IsWallTime(results, |results|, wall)
  {
    completed, totalInput, totalOutput, wall := 0, 0, 0, 0.0;
    for i := 0 to |results|
      invariant completed == CompleteCount(results, i) <= i
      invariant totalInput == InputTotal(results, i) && totalOutput == OutputTotal(results, i)
      invariant IsWallTime(results, i, wall)
    {
      var session := results[i];
      if session.turns != [] && forall t | t in session.turns :: t.success {
        completed := completed + 1;
      }
      totalInput := totalInput + session.totalInputTokens;
      totalOutput := totalOutput + session.totalOutputTokens;
      if session.duration > wall {
        wall := session.duration;
      }
    }
  }

  function Rate(amount: int, wall: real): (rate: real)
    ensures wall > 0.0 ==> rate * wall == amount as real
    ensures wall <= 0.0 ==> rate == 0.0
  {
    if wall > 0.0 then (DivideBack(amount as real, wall); amount as real / wall) else 0.0
  }

  /** Per-turn and aggregate metrics. */
  method CalculateMultiturnMetrics(results: seq<SessionResult>, maxTurns: nat)
    returns (perTurn: seq<TurnMetrics>, aggregate: AggregateMetrics)
    ensures |perTurn| == maxTurns && IsReport(results, perTurn)
    ensures var n := |results|;
      && aggregate.completedSessions == CompleteCount(results, n) <= aggregate.totalSessions == n
      && aggregate.totalInputTokens == InputTotal(results, n)
      && aggregate.totalOutputTokens == OutputTotal(results, n)
      && aggregate.meanTtftMs == Mean(Rows(results, n, Ttft)) * MS
      && aggregate.meanTpotMs == Mean(Rows(results, n, Tpot)) * MS
      && aggregate.meanE2elMs == Mean(Rows(results, n, E2el)) * MS
      && IsWallTime(results, n, aggregate.totalWallTime)
    ensures aggregate.sessionThroughput == Rate(aggregate.completedSessions, aggregate.totalWallTime)
    ensures aggregate.outputThroughput == Rate(aggregate.totalOutputTokens, aggregate.totalWallTime)
    ensures aggregate.totalTokenThroughput
         == Rate(aggregate.totalInputTokens + aggregate.totalOutputTokens, aggregate.totalWallTime)
  {
    perTurn := [];
    for t := 0 to maxTurns
      invariant |perTurn| == t && IsReport(results, perTurn)
    {
      var m := SummarizeTurn(results, t);
      perTurn := perTurn + [m];
    }
    var completed, totalInput, totalOutput, wall := CountSessions(results);
    var ttfts := CollectRows(results, Ttft);
    var tpots := CollectRows(results, Tpot);
    var e2els := CollectRows(results, E2el);
    aggregate := AggregateMetrics(completed, |results|, totalInput, totalOutput, wall,
      Rate(completed, wall), Rate(totalOutput, wall), Rate(totalInput + totalOutput, wall),
      Mean(ttfts) * MS, Mean(tpots) * MS, Mean(e2els) * MS);
  }

  // ---- Counting by turn index and counting by session agree ----

  function Min(a: nat, b: nat): nat {
    if a < b then a else b
  }

  /** Sum over the turn indices below `m` of the column sums over the first `n` sessions. */
  function ByTurn(results: seq<SessionResult>, m: nat, n: nat, f: Weight): real
    requires n <= |results|
  {
    if m == 0 then 0.0 else ByTurn(results, m - 1, n, f) + RealSum(Column(results, m - 1, n, f))
  }

  /** Sum over the first `n` sessions of what their first `m` turns contribute. */
  function BySession(results: seq<SessionResult>, m: nat, n: nat, f: Weight): real
    requires n <= |results|
  {
    if n == 0 then 0.0 else
    var turns := results[n - 1].turns;
    BySession(results, m, n - 1, f) + RealSum(Row(turns, Min(m, |turns|), f))
  }

  lemma {:induction false} ByTurnEmpty(results: seq<SessionResult>, m: nat, f: Weight)
    ensures ByTurn(results, m, 0, f) == 0.0
  {
    if m > 0 {
      ByTurnEmpty(results, m - 1, f);
    }
  }

  lemma {:induction false} ByTurnAddsSession(results: seq<SessionResult>, m: nat, n: nat, f: Weight)
    requires 0 < n <= |results|
    ensures var turns := results[n - 1].turns;
      ByTurn(results, m, n, f) == ByTurn(results, m, n - 1, f) + RealSum(Row(turns, Min(m, |turns|), f))
  {
    if m > 0 {
      ByTurnAddsSession(results, m - 1, n, f);
      if Hit(results[n - 1], m - 1) {
        var value := WeightOf(f, results[n - 1].turns[m - 1]);
        RealSumSnoc(Column(results, m - 1, n - 1, f), value);
        RealSumSnoc(Row(results[n - 1].turns, m - 1, f), value);
      }
    }
  }

  /** Double counting: for any weight of turns, summing by turn index and by session agree. */
  lemma {:induction false} DoubleCounting(results: seq<SessionResult>, m: nat, n: nat, f: Weight)
    requires n <= |results|
    ensures ByTurn(results, m, n, f) == BySession(results, m, n, f)
  {
    if n == 0 {
      ByTurnEmpty(results, m, f);
    } else {
      ByTurnAddsSession(results, m, n, f);
      DoubleCounting(results, m, n - 1, f);
    }
  }

  predicate CoversAll(results: seq<SessionResult>, maxTurns: nat) {
    forall r | r in results :: |r.turns| <= maxTurns
  }

  lemma {:induction false} RowsByIndex(results: seq<SessionResult>, maxTurns: nat, n: nat, f: Weight)
    requires n <= |results| && CoversAll(results, maxTurns)
    ensures RealSum(Rows(results, n, f)) == BySession(results, maxTurns, n, f)
  {
    if n > 0 {
      RowsByIndex(results, maxTurns, n - 1, f);
      RowsStep(results, n, f);
      assert results[n - 1] in results;
    }
  }

  lemma RowsStep(results: seq<SessionResult>, n: nat, f: Weight)
    requires 0 < n <= |results|
    ensures var turns := results[n - 1].turns;
      RealSum(Rows(results, n, f)) == RealSum(Rows(results, n - 1, f)) + RealSum(Row(turns, |turns|, f))
  {
    var turns := results[n - 1].turns;
    RealSumAppend(Rows(results, n - 1, f), Row(turns, |turns|, f));
  }

  lemma {:induction false} ColumnOfOnes(results: seq<SessionResult>, t: nat, n: nat)
    requires n <= |results|
    ensures RealSum(Column(results, t, n, Successes)) == |Column(results, t, n, Successes)| as real
  {
    if n > 0 {
      ColumnOfOnes(results, t, n - 1);
      RealSumSnoc(Column(results, t, n - 1, Successes), 1.0);
    }
  }

  /** The per-turn report summed up: a mean times `completed`, over the turn indices below `m`. */
  function ReportedSum(perTurn: seq<TurnMetrics>, m: nat, f: Weight): real
    requires m <= |perTurn|
  {
    if m == 0 then 0.0 else
    ReportedSum(perTurn, m - 1, f) + Weigh(ReportedMean(f, perTurn[m - 1]), perTurn[m - 1].completed as real)
  }

  ghost predicate IsReport(results: seq<SessionResult>, perTurn: seq<TurnMetrics>) {
    forall t | 0 <= t < |perTurn| :: perTurn[t] == TurnSummary(results, t)
  }

  lemma MeanIsReported(results: seq<SessionResult>, t: nat, f: Weight)
    ensures ReportedMean(f, TurnSummary(results, t)) ==
      if f == Successes then 1.0 else Mean(Column(results, t, |results|, f))
  {
  }

  /** A reported mean times `completed` is the column sum of its weight. */
  ghost predicate Reports(results: seq<SessionResult>, r: TurnMetrics, t: nat, f: Weight) {
    Weigh(ReportedMean(f, r), r.completed as real) == RealSum(Column(results, t, |results|, f))
  }

  lemma CompletedIsCounted(results: seq<SessionResult>, t: nat)
    ensures TurnSummary(results, t).completed == |Column(results, t, |results|, Successes)|
  {
    hide Column, Mean;
  }

  lemma ColumnReport(results: seq<SessionResult>, t: nat, f: Weight)
    ensures Reports(results, TurnSummary(results, t), t, f)
  {
    hide Column, RealSum, ReportedMean, TurnSummary, Mean, Weigh;
    var n := |results|;
    ColumnLengths(results, t, n, Successes, f);
    MeanIsReported(results, t, f);
    CompletedIsCounted(results, t);
    if f == Successes {
      ColumnOfOnes(results, t, n);
      UnitMean(|Column(results, t, n, Successes)|);
    } else {
      MeanOfList(Column(results, t, n, f));
    }
  }

  lemma ReportAt(results: seq<SessionResult>, perTurn: seq<TurnMetrics>, f: Weight)
    requires IsReport(results, perTurn)
    ensures forall t | 0 <= t < |perTurn| :: Reports(results, perTurn[t], t, f)
  {
    forall t | 0 <= t < |perTurn|
      ensures Reports(results, perTurn[t], t, f)
    {
      ColumnReport(results, t, f);
    }
  }

  lemma {:induction false} ReportedByTurn(results: seq<SessionResult>, perTurn: seq<TurnMetrics>, m: nat, f: Weight)
    requires m <= |perTurn|
    requires forall t | 0 <= t < |perTurn| :: Reports(results, perTurn[t], t, f)
    ensures ReportedSum(perTurn, m, f) == ByTurn(results, m, |results|, f)
  {
    if m > 0 {
      ReportedByTurn(results, perTurn, m - 1, f);
      assert Reports(results, perTurn[m - 1], m - 1, f);
    }
  }

  lemma {:induction false} RowOfTokens(turns: seq<TurnResult>, n: nat)
    requires n <= |turns|
    ensures RealSum(Row(turns, n, ContextLen)) == SuccessTotal(turns, n, CONTEXT_LEN) as real
    ensures RealSum(Row(turns, n, OutputLen)) == SuccessTotal(turns, n, OUTPUT_LEN) as real
    ensures RealSum(Row(turns, n, Successes)) == |Row(turns, n, Successes)| as real
  {
    if n > 0 {
      RowOfTokens(turns, n - 1);
      if turns[n - 1].success {
        RealSumSnoc(Row(turns, n - 1, ContextLen), WeightOf(ContextLen, turns[n - 1]));
        RealSumSnoc(Row(turns, n - 1, OutputLen), WeightOf(OutputLen, turns[n - 1]));
        RealSumSnoc(Row(turns, n - 1, Successes), 1.0);
      }
    }
  }

  predicate TotalsFromTurns(r: SessionResult) {
    && r.totalInputTokens == SuccessTotal(r.turns, |r.turns|, CONTEXT_LEN)
    && r.totalOutputTokens == SuccessTotal(r.turns, |r.turns|, OUTPUT_LEN)
  }

  lemma {:induction false} TokensBySession(results: seq<SessionResult>, maxTurns: nat, n: nat)
    requires n <= |results| && CoversAll(results, maxTurns)
    requires forall r | r in results :: TotalsFromTurns(r)
    ensures BySession(results, maxTurns, n, ContextLen) == InputTotal(results, n) as real
    ensures BySession(results, maxTurns, n, OutputLen) == OutputTotal(results, n) as real
  {
    if n > 0 {
      TokensBySession(results, maxTurns, n - 1);
      RowOfTokens(results[n - 1].turns, |results[n - 1].turns|);
    }
  }

  /** When the report covers the longest session, each per-turn mean weighted by `completed`
      adds up to the sum of that weight over all successful turns. */
  lemma ReportConservesSums(results: seq<SessionResult>, perTurn: seq<TurnMetrics>, f: Weight)
    requires IsReport(results, perTurn) && CoversAll(results, |perTurn|)
    ensures ReportedSum(perTurn, |perTurn|, f) == RealSum(Rows(results, |results|, f))
  {
    ReportAt(results, perTurn, f);
    ReportedByTurn(results, perTurn, |perTurn|, f);
    DoubleCounting(results, |perTurn|, |results|, f);
    RowsByIndex(results, |perTurn|, |results|, f);
  }

  /** In particular it gives back the token totals that the session runner accumulated. */
  lemma ReportConservesTotals(results: seq<SessionResult>, perTurn: seq<TurnMetrics>)
    requires IsReport(results, perTurn) && CoversAll(results, |perTurn|)
    requires forall r | r in results :: TotalsFromTurns(r)
    ensures ReportedSum(perTurn, |perTurn|, ContextLen) == InputTotal(results, |results|) as real
    ensures ReportedSum(perTurn, |perTurn|, OutputLen) == OutputTotal(results, |results|) as real
  {
    ReportAt(results, perTurn, ContextLen);
    ReportedByTurn(results, perTurn, |perTurn|, ContextLen);
    ReportAt(results, perTurn, OutputLen);
    ReportedByTurn(results, perTurn, |perTurn|, OutputLen);
    DoubleCounting(results, |perTurn|, |results|, ContextLen);
    DoubleCounting(results, |perTurn|, |results|, OutputLen);
    TokensBySession(results, |perTurn|, |results|);
  }

  lemma {:induction false} RowCountGrows(turns: seq<TurnResult>, m: nat, n: nat)
    requires m <= n <= |turns|
    ensures |Row(turns, m, Successes)| <= |Row(turns, n, Successes)|
    ensures |Row(turns, m, Successes)| == |Row(turns, n, Successes)| <==> forall t | m <= t < n :: !turns[t].success
  {
    if m < n {
      RowCountGrows(turns, m, n - 1);
    }
  }

  lemma {:induction false} SuccessesSeen(results: seq<SessionResult>, m: nat, n: nat)
    requires n <= |results|
    ensures BySession(results, m, n, Successes) <= RealSum(Rows(results, n, Successes))
    ensures BySession(results, m, n, Successes) == RealSum(Rows(results, n, Successes))
       <==> forall i, t | 0 <= i < n && m <= t < |results[i].turns| :: !results[i].turns[t].success
  {
    if n > 0 {
      var turns := results[n - 1].turns;
      SuccessesSeen(results, m, n - 1);
      RowsStep(results, n, Successes);
      RowOfTokens(turns, |turns|);
      RowOfTokens(turns, Min(m, |turns|));
      RowCountGrows(turns, Min(m, |turns|), |turns|);
    }
  }

  /** For any number of reported turns: the completed counts add up to all successful turns
      exactly when no session succeeded at a later index. */
  lemma CompletedCountsAreExact(results: seq<SessionResult>, perTurn: seq<TurnMetrics>)
    requires IsReport(results, perTurn)
    ensures ReportedSum(perTurn, |perTurn|, Successes) == RealSum(Rows(results, |results|, Successes))
       <==> forall i, t | 0 <= i < |results| && |perTurn| <= t < |results[i].turns| :: !results[i].turns[t].success
  {
    ReportAt(results, perTurn, Successes);
    ReportedByTurn(results, perTurn, |perTurn|, Successes);
    DoubleCounting(results, |perTurn|, |results|, Successes);
    SuccessesSeen(results, |perTurn|, |results|);
  }

  function CollectedResults(s: Runner): seq<SessionResult>
    requires forall i | 0 <= i < |s.phases| :: s.phases[i].Finished?
  {
    seq(|s.phases|, i requires 0 <= i < |s.phases| => s.phases[i].result)
  }

  lemma ResultIsAccounted(session: ReplaySession, answers: seq<Answer>, r: SessionResult)
    requires |answers| == |session.turnIdxs| && IsSessionResult(session, answers, r)
    ensures TotalsFromTurns(r) && |r.turns| == |answers|
  {
  }

  lemma CollectedAreAccounted(w: Workload, s: Runner, maxTurns: nat)
    requires forall i | 0 <= i < |s.phases| :: s.phases[i].Finished?
    requires ValidWorkload(w) && |s.phases| == |w.sessions|
    requires forall i | 0 <= i < |w.sessions| :: IsSessionResult(w.sessions[i], w.answers[i], s.phases[i].result)
    requires forall i | 0 <= i < |w.sessions| :: |w.answers[i]| <= maxTurns
    ensures CoversAll(CollectedResults(s), maxTurns)
    ensures forall r | r in CollectedResults(s) :: TotalsFromTurns(r)
  {
    forall r | r in CollectedResults(s)
      ensures TotalsFromTurns(r) && |r.turns| <= maxTurns
    {
      var i :| 0 <= i < |CollectedResults(s)| && CollectedResults(s)[i] == r;
      ResultIsAccounted(w.sessions[i], w.answers[i], s.phases[i].result);
    }
  }

  /** End to end: however the sessions of a complete replay interleave, a report that covers
      the longest session accounts for exactly the tokens of the successful turns. */
  lemma ReplayReportConserves(w: Workload, states: seq<Runner>, steps: seq<Step>, perTurn: seq<TurnMetrics>)
    requires ValidWorkload(w) && IsRun(w, states, steps)
    requires |states[|steps|].phases| == |w.sessions|
    requires forall i | 0 <= i < |w.sessions| :: states[|steps|].phases[i].Finished?
    requires forall i | 0 <= i < |w.sessions| :: |w.answers[i]| <= |perTurn|
    requires IsReport(CollectedResults(states[|steps|]), perTurn)
    ensures var results := CollectedResults(states[|steps|]);
      && ReportedSum(perTurn, |perTurn|, ContextLen) == InputTotal(results, |results|) as real
      && ReportedSum(perTurn, |perTurn|, OutputLen) == OutputTotal(results, |results|) as real
  {
    var last := states[|steps|];
    hide *;
    CompleteRun(w, states, steps);
    CollectedAreAccounted(w, last, |perTurn|);
    ReportConservesTotals(CollectedResults(last), perTurn);
  }

  // ---- What one session contributes ----

  /** A session of a single turn reports it, latencies in milliseconds, when it succeeded, and
      reports nothing otherwise. */
  lemma SingleTurnReport(id: string, turn: TurnResult, duration: real)
    ensures var results := [SessionResult(id, [turn], turn.contextLen, turn.outputLen, duration)];
      var reported := TurnMetrics(1, turn.contextLen as real, turn.outputLen as real,
        turn.ttft * 1000.0, turn.tpot * 1000.0, turn.e2el * 1000.0);
      && (turn.success ==> TurnSummary(results, 0) == reported)
      && (!turn.success ==> TurnSummary(results, 0) == TurnMetrics(0, 0.0, 0.0, 0.0, 0.0, 0.0))
      && TurnSummary(results, 1) == TurnMetrics(0, 0.0, 0.0, 0.0, 0.0, 0.0)
      && Rows(results, 1, Ttft) == (if turn.success then [turn.ttft] else [])
      && Rows(results, 1, Tpot) == (if turn.success then [turn.tpot] else [])
      && Rows(results, 1, E2el) == (if turn.success then [turn.e2el] else [])
  {
    var results := [SessionResult(id, [turn], turn.contextLen, turn.outputLen, duration)];
    forall f: Weight, t: nat | t <= 1
      ensures Column(results, t, 1, f) == if t == 0 && turn.success then [WeightOf(f, turn)] else []
    {
      assert Column(results, t, 0, f) == [];
    }
    forall f: Weight
      ensures Rows(results, 1, f) == if turn.success then [WeightOf(f, turn)] else []
    {
      assert Row([turn], 0, f) == [] && Rows(results, 0, f) == [];
      assert Row([turn], 1, f) == if turn.success then [WeightOf(f, turn)] else [];
    }
    hide Column, Rows;
    forall x: real
      ensures Mean([x]) == x && Mean([]) == 0.0
    {
      assert RealSumUpTo([x], 1) == RealSumUpTo([x], 0) + x;
    }
    hide Mean;
  }

  /** A session counts as completed when it has turns and all of them succeeded; token totals are
      those of all sessions. */
  lemma {:induction false} SessionTotals(results: seq<SessionResult>, session: SessionResult)
    ensures var more := results + [session];
      && CompleteCount(more, |more|) == CompleteCount(results, |results|)
           + (if session.turns != [] && (forall t | t in session.turns :: t.success) then 1 else 0)
      && InputTotal(more, |more|) == InputTotal(results, |results|) + session.totalInputTokens
      && OutputTotal(more, |more|) == OutputTotal(results, |results|) + session.totalOutputTokens
    ensures CompleteCount([], 0) == 0 && InputTotal([], 0) == 0 && OutputTotal([], 0) == 0
  {
    SessionTotalsPrefix(results, session, |results|);
  }

  lemma {:induction false} SessionTotalsPrefix(results: seq<SessionResult>, session: SessionResult, n: nat)
    requires n <= |results|
    ensures CompleteCount(results + [session], n) == CompleteCount(results, n)
    ensures InputTotal(results + [session], n) == InputTotal(results, n)
    ensures OutputTotal(results + [session], n) == OutputTotal(results, n)
  {
    if n > 0 {
      SessionTotalsPrefix(results, session, n - 1);
    }
  }
}
