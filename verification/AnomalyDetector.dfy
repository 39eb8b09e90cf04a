/** The anomaly detector: which reasons a snapshot gives, and how severe they are together. */
module AnomalyDetector {
  import opened Basics

  datatype Snapshot = Snapshot(
    kvCacheUsage: real, prefixCacheHitRate: real, requestsRunning: int, requestsWaiting: int, requestsSwapped: int,
    preemptionsTotal: int, ttftAvg: Option<real>)

  /** The result of a scrape; a failed one carries the text of its exception. */
  datatype Scrape = Scraped(snapshot: Snapshot) | ScrapeError(message: string)

  /** The readings of a snapshot that was never filled in. */
  const BLANK := Snapshot(0.0, 0.0, 0, 0, 0, 0, None)

  /** An error is recognised by its text: an exception without one leaves none. */
  predicate HasError(scrape: Scrape) {
    scrape.ScrapeError? && scrape.message != ""
  }

  function Readings(scrape: Scrape): Snapshot {
    if scrape.Scraped? then scrape.snapshot else BLANK
  }

  datatype Severity = NoSeverity | Warning | Critical

  datatype Reason =
    | KvCache(usage: real)
    | SlowFirstToken(ttft: real)
    | QueueDepth(waiting: int)
    | Preemptions(delta: int)
    | SwapActive(swapped: int)
    | PrefixThrashing(hitRate: real)
    | KvSurge(before: real, after: real)
    | PreemptionStorm(delta: int)

  datatype Anomaly = Anomaly(isAnomaly: bool, reasons: seq<Reason>, severity: Severity)

  const CALM := Anomaly(false, [], NoSeverity)

  datatype Limits = Limits(kvThreshold: real, ttftMultiplier: real)

  function Rank(s: Severity): nat {
    match s
    case NoSeverity => 0
    case Warning => 1
    case Critical => 2
  }

  function Worse(a: Severity, b: Severity): Severity {
    if Rank(a) < Rank(b) then b else a
  }

  /** How severe a reason is on its own. */
  function SeverityOf(r: Reason): Severity {
    match r
    case KvCache(usage) => if usage > 0.95 then Critical else Warning
    case SlowFirstToken(_) | Preemptions(_) => Critical
    case _ => Warning
  }

  /** The worst severity of the first `n` reasons. */
  function WorstUpTo(reasons: seq<Reason>, n: nat): Severity
    requires n <= |reasons|
  {
    if n == 0 then NoSeverity else Worse(WorstUpTo(reasons, n - 1), SeverityOf(reasons[n - 1]))
  }

  function Worst(reasons: seq<Reason>): Severity {
    WorstUpTo(reasons, |reasons|)
  }

  lemma {:induction false} WorstPrefix(reasons: seq<Reason>, more: seq<Reason>, n: nat)
    requires n <= |reasons| && n <= |more| && forall i | 0 <= i < n :: reasons[i] == more[i]
    ensures WorstUpTo(reasons, n) == WorstUpTo(more, n)
  {
    if n > 0 {
      WorstPrefix(reasons, more, n - 1);
    }
  }

  lemma WorstSnoc(reasons: seq<Reason>, r: Reason)
    ensures Worst(reasons + [r]) == Worse(Worst(reasons), SeverityOf(r))
  {
    WorstPrefix(reasons, reasons + [r], |reasons|);
  }

  // ---- The five checks ----

  predicate KvIsHigh(current: Snapshot, limits: Limits) {
    current.kvCacheUsage > limits.kvThreshold
  }

  predicate FirstTokenIsSlow(current: Snapshot, baseline: Option<real>, limits: Limits) {
    baseline.Some? && current.ttftAvg.Some? && current.ttftAvg.value > baseline.value * limits.ttftMultiplier
  }

  predicate QueueIsDeep(current: Snapshot) {
    current.requestsWaiting > 10
  }

  /** The preemptions since the last scrape; none are known without one. */
  function PreemptionDelta(current: Snapshot, previous: Option<int>): int {
    if previous.None? then 0 else current.preemptionsTotal - previous.value
  }

  predicate IsSwapping(current: Snapshot) {
    current.requestsSwapped > 0
  }

  function AddIf(reasons: seq<Reason>, b: bool, r: Reason): seq<Reason> {
    if b then reasons + [r] else reasons
  }

  function FirstTokenTime(current: Snapshot): real {
    if current.ttftAvg.Some? then current.ttftAvg.value else 0.0
  }

  /** The checks that fail, in order; the first two look at the cache and the latency. */
  function PressureReasons(current: Snapshot, baseline: Option<real>, limits: Limits): seq<Reason> {
    AddIf(AddIf([], KvIsHigh(current, limits), KvCache(current.kvCacheUsage)),
          FirstTokenIsSlow(current, baseline, limits), SlowFirstToken(FirstTokenTime(current)))
  }

  function LoadReasons(reasons: seq<Reason>, current: Snapshot, previous: Option<int>): seq<Reason> {
    var delta := PreemptionDelta(current, previous);
    AddIf(AddIf(AddIf(reasons, QueueIsDeep(current), QueueDepth(current.requestsWaiting)),
                delta > 0, Preemptions(delta)),
          IsSwapping(current), SwapActive(current.requestsSwapped))
  }

  function ReasonsOf(current: Snapshot, baseline: Option<real>, previous: Option<int>, limits: Limits): seq<Reason> {
    LoadReasons(PressureReasons(current, baseline, limits), current, previous)
  }

  lemma WorstOfAddIf(reasons: seq<Reason>, b: bool, r: Reason)
    ensures AddIf(reasons, b, r) == if b then reasons + [r] else reasons
    ensures Worst(AddIf(reasons, b, r)) == if b then Worse(Worst(reasons), SeverityOf(r)) else Worst(reasons)
  {
    if b {
      WorstSnoc(reasons, r);
    }
  }

  /** The checks of the cache and the latency. */
  method CheckPressure(s: Snapshot, baseline: Option<real>, limits: Limits) returns (reasons: seq<Reason>, severity: Severity)
    ensures reasons == PressureReasons(s, baseline, limits) && severity == Worst(reasons)
  {
    hide Worst, FirstTokenIsSlow;
    reasons, severity := [], NoSeverity;
    EmptyIsCalm();
    WorstOfAddIf(reasons, KvIsHigh(s, limits), KvCache(s.kvCacheUsage));
    if KvIsHigh(s, limits) {
      reasons := reasons + [KvCache(s.kvCacheUsage)];
      severity := if s.kvCacheUsage > 0.95 then Critical else Warning;
    }
    WorstOfAddIf(reasons, FirstTokenIsSlow(s, baseline, limits), SlowFirstToken(FirstTokenTime(s)));
    if FirstTokenIsSlow(s, baseline, limits) {
      reasons := reasons + [SlowFirstToken(FirstTokenTime(s))];
      severity := Critical;
    }
  }

  /** The checks of the queue, the preemptions and the swap space. */
  method CheckLoad(before: seq<Reason>, s: Snapshot, previous: Option<int>, severityBefore: Severity)
    returns (reasons: seq<Reason>, severity: Severity)
    requires severityBefore == Worst(before)
    ensures reasons == LoadReasons(before, s, previous) && severity == Worst(reasons)
  {
    hide Worst;
    reasons, severity := before, severityBefore;
    WorstOfAddIf(reasons, QueueIsDeep(s), QueueDepth(s.requestsWaiting));
    if QueueIsDeep(s) {
      reasons := reasons + [QueueDepth(s.requestsWaiting)];
      if severity != Critical {
        severity := Warning;
      }
    }
    WorstOfAddIf(reasons, PreemptionDelta(s, previous) > 0, Preemptions(PreemptionDelta(s, previous)));
    if previous.Some? {
      var delta := s.preemptionsTotal - previous.value;
      if delta > 0 {
        reasons := reasons + [Preemptions(delta)];
        severity := Critical;
      }
    }
    WorstOfAddIf(reasons, IsSwapping(s), SwapActive(s.requestsSwapped));
    if IsSwapping(s) {
      reasons := reasons + [SwapActive(s.requestsSwapped)];
      if severity != Critical {
        severity := Warning;
      }
    }
  }

  /** The detector: it reports exactly the checks that fail, in order, and its severity, which
      it updates as it goes, ends up as the worst of the reasons. */
  method DetectAnomalies(current: Scrape, baseline: Option<real>, previous: Option<int>, limits: Limits)
    returns (result: Anomaly)
    ensures HasError(current) ==> result == CALM
    ensures !HasError(current) ==> result.reasons == ReasonsOf(Readings(current), baseline, previous, limits)
    ensures result.severity == Worst(result.reasons)
    ensures result.isAnomaly <==> result.reasons != []
  {
    if HasError(current) {
      return CALM;
    }
    hide Worst, PressureReasons, LoadReasons;
    EmptyIsCalm();
    var reasons, severity := CheckPressure(Readings(current), baseline, limits);
    reasons, severity := CheckLoad(reasons, Readings(current), previous, severity);
    return if reasons != [] then Anomaly(true, reasons, severity) else Anomaly(false, [], severity);
  }

  lemma EmptyIsCalm()
    ensures Worst([]) == NoSeverity
  {
  }

  // ---- Reasoning models ----

  predicate IsThrashing(current: Snapshot) {
    current.prefixCacheHitRate < 0.3 && current.requestsRunning > 5
  }

  predicate Surges(current: Snapshot, before: Snapshot) {
    current.kvCacheUsage - before.kvCacheUsage > 0.15
  }

  /** More than one new preemption for every two running requests. */
  predicate Storms(current: Snapshot, before: Snapshot) {
    var delta := current.preemptionsTotal - before.preemptionsTotal;
    current.requestsRunning > 0 && delta > 0 && delta as real / current.requestsRunning as real > 0.5
  }

  function RlmReasonsOf(isRlm: bool, current: Snapshot, previous: Option<Snapshot>): seq<Reason> {
    if !isRlm then [] else
    var thrashing := AddIf([], IsThrashing(current), PrefixThrashing(current.prefixCacheHitRate));
    if previous.None? then thrashing else
    var before := previous.value;
    var delta := current.preemptionsTotal - before.preemptionsTotal;
    var surge := AddIf(thrashing, Surges(current, before), KvSurge(before.kvCacheUsage, current.kvCacheUsage));
    AddIf(surge, Storms(current, before), PreemptionStorm(delta))
  }

  lemma {:induction false} WarningsOnly(reasons: seq<Reason>, more: seq<Reason>, n: nat)
    requires n <= |more| && forall r | r in more :: SeverityOf(r) == Warning
    ensures Worst(reasons + more[..n]) == if n == 0 then Worst(reasons) else Worse(Worst(reasons), Warning)
  {
    if n == 0 {
      assert reasons + more[..0] == reasons;
    } else {
      WarningsOnly(reasons, more, n - 1);
      WorstSnoc(reasons + more[..n - 1], more[n - 1]);
      assert reasons + more[..n] == (reasons + more[..n - 1]) + [more[n - 1]];
    }
  }

  method DetectRlmAnomalies(isRlm: bool, current: Snapshot, previous: Option<Snapshot>) returns (reasons: seq<Reason>)
    ensures reasons == RlmReasonsOf(isRlm, current, previous)
    ensures forall r | r in reasons :: SeverityOf(r) == Warning
  {
    RlmReasonsAreWarnings(isRlm, current, previous);
    reasons := [];
    if !isRlm {
      return;
    }
    if current.prefixCacheHitRate < 0.3 && current.requestsRunning > 5 {
      reasons := reasons + [PrefixThrashing(current.prefixCacheHitRate)];
    }
    if previous.Some? {
      var before := previous.value;
      if current.kvCacheUsage - before.kvCacheUsage > 0.15 {
        reasons := reasons + [KvSurge(before.kvCacheUsage, current.kvCacheUsage)];
      }
      if current.requestsRunning > 0 {
        var delta := current.preemptionsTotal - before.preemptionsTotal;
        var rate := delta as real / current.requestsRunning as real;
        if delta > 0 && rate > 0.5 {
          reasons := reasons + [PreemptionStorm(delta)];
        }
      }
    }
  }

  /** Adds the reasoning-model reasons to the general ones; the severity stays the worst of all. */
  method ExtendAnomaly(anomaly: Anomaly, rlm: seq<Reason>) returns (result: Anomaly)
    requires anomaly.severity == Worst(anomaly.reasons) && (anomaly.isAnomaly <==> anomaly.reasons != [])
    requires forall r | r in rlm :: SeverityOf(r) == Warning
    ensures result.reasons == anomaly.reasons + rlm
    ensures result.severity == Worst(result.reasons)
    ensures result.isAnomaly <==> result.reasons != []
  {
    result := anomaly;
    WarningsOnly(anomaly.reasons, rlm, |rlm|);
    assert rlm[..|rlm|] == rlm;
    if rlm != [] {
      result := Anomaly(true, anomaly.reasons + rlm, if anomaly.severity == NoSeverity then Warning else anomaly.severity);
    } else {
      assert anomaly.reasons + rlm == anomaly.reasons;
    }
  }

  lemma RlmReasonsAreWarnings(isRlm: bool, current: Snapshot, previous: Option<Snapshot>)
    ensures forall r | r in RlmReasonsOf(isRlm, current, previous) :: SeverityOf(r) == Warning
  {
  }

  /** No rise of the preemption counter goes unreported, and nothing else is reported as one. */
  lemma PreemptionsAreReported(current: Snapshot, baseline: Option<real>, previous: Option<int>, limits: Limits, delta: int)
    ensures Preemptions(delta) in ReasonsOf(current, baseline, previous, limits)
       <==> previous.Some? && delta == current.preemptionsTotal - previous.value > 0
  {
    hide FirstTokenIsSlow;
  }

  // ---- What is reported, in raw readings ----

  lemma InAddIf(reasons: seq<Reason>, b: bool, r: Reason, reason: Reason)
    ensures reason in AddIf(reasons, b, r) <==> reason in reasons || (b && reason == r)
  {
  }

  /** A general reason is reported if and only if the readings give it. */
  lemma ReasonMeaning(current: Snapshot, baseline: Option<real>, previous: Option<int>, limits: Limits, reason: Reason)
    ensures reason in ReasonsOf(current, baseline, previous, limits) <==>
      match reason {
        case KvCache(usage) => usage == current.kvCacheUsage > limits.kvThreshold
        case SlowFirstToken(ttft) =>
          baseline.Some? && current.ttftAvg == Some(ttft) && ttft > baseline.value * limits.ttftMultiplier
        case QueueDepth(waiting) => waiting == current.requestsWaiting > 10
        case Preemptions(delta) => previous.Some? && delta == current.preemptionsTotal - previous.value > 0
        case SwapActive(swapped) => swapped == current.requestsSwapped > 0
        case _ => false
      }
  {
  }

  /** And so is one of the reasoning models. */
  lemma RlmReasonMeaning(isRlm: bool, current: Snapshot, previous: Option<Snapshot>, reason: Reason)
    ensures reason in RlmReasonsOf(isRlm, current, previous) <==>
      match reason {
        case PrefixThrashing(hitRate) => isRlm && hitRate == current.prefixCacheHitRate < 0.3 && current.requestsRunning > 5
        case KvSurge(before, after) =>
          && isRlm && previous.Some? && before == previous.value.kvCacheUsage
          && after == current.kvCacheUsage && after - before > 0.15
        case PreemptionStorm(delta) =>
          && isRlm && previous.Some? && delta == current.preemptionsTotal - previous.value.preemptionsTotal > 0
          && current.requestsRunning > 0 && 2 * delta > current.requestsRunning
        case _ => false
      }
  {
    if isRlm {
      var thrashing := AddIf([], IsThrashing(current), PrefixThrashing(current.prefixCacheHitRate));
      InAddIf([], IsThrashing(current), PrefixThrashing(current.prefixCacheHitRate), reason);
      if previous.Some? {
        var before := previous.value;
        var surge := AddIf(thrashing, Surges(current, before), KvSurge(before.kvCacheUsage, current.kvCacheUsage));
        InAddIf(thrashing, Surges(current, before), KvSurge(before.kvCacheUsage, current.kvCacheUsage), reason);
        var delta := current.preemptionsTotal - before.preemptionsTotal;
        InAddIf(surge, Storms(current, before), PreemptionStorm(delta), reason);
        StormMeaning(current, before, delta);
        hide Storms;
      }
    }
  }

  lemma StormMeaning(current: Snapshot, before: Snapshot, delta: int)
    requires delta == current.preemptionsTotal - before.preemptionsTotal
    ensures Storms(current, before) <==> delta > 0 && current.requestsRunning > 0 && 2 * delta > current.requestsRunning
  {
    if current.requestsRunning > 0 {
      HalfOf(delta, current.requestsRunning);
    }
  }

  lemma HalfOf(delta: int, running: int)
    requires running > 0
    ensures delta as real / running as real > 0.5 <==> 2 * delta > running
  {
    var d, r := delta as real, running as real;
    QuotientIsAbove(d / r, r, d);
    assert 2 * delta > running <==> 2.0 * d > r;
  }

  lemma QuotientIsAbove(rate: real, r: real, d: real)
    requires r > 0.0 && rate * r == d
    ensures rate > 0.5 <==> 2.0 * d > r
  {
    assert (rate - 0.5) * r == d - 0.5 * r;
    SignOfProduct(rate - 0.5, r, (rate - 0.5) * r);
  }

  lemma SignOfProduct(a: real, r: real, product: real)
    requires r > 0.0 && product == a * r
    ensures product > 0.0 <==> a > 0.0
  {
  }

  /** The order of the checks. */
  function Place(reason: Reason): nat {
    match reason
    case KvCache(_) => 0
    case SlowFirstToken(_) => 1
    case QueueDepth(_) => 2
    case Preemptions(_) => 3
    case SwapActive(_) => 4
    case PrefixThrashing(_) => 5
    case KvSurge(_, _) => 6
    case PreemptionStorm(_) => 7
  }

  /** Reasons in the order of the checks, none of them behind `end`. */
  predicate InOrder(reasons: seq<Reason>, end: nat) {
    && (forall i | 0 <= i < |reasons| :: Place(reasons[i]) < end)
    && forall i, j | 0 <= i < j < |reasons| :: Place(reasons[i]) < Place(reasons[j])
  }

  lemma AddInOrder(reasons: seq<Reason>, b: bool, r: Reason, end: nat)
    requires InOrder(reasons, Place(r)) && Place(r) < end
    ensures InOrder(AddIf(reasons, b, r), end)
  {
  }

  /** No check reports twice, and the reasons keep the order of the checks. */
  lemma ReasonsInOrder(current: Snapshot, baseline: Option<real>, previous: Option<int>, limits: Limits)
    ensures InOrder(ReasonsOf(current, baseline, previous, limits), 5)
  {
    hide InOrder, AddIf, KvIsHigh, FirstTokenIsSlow, QueueIsDeep, IsSwapping;
    NothingIsInOrder();
    var kv := AddIf([], KvIsHigh(current, limits), KvCache(current.kvCacheUsage));
    AddInOrder([], KvIsHigh(current, limits), KvCache(current.kvCacheUsage), 1);
    var slow := AddIf(kv, FirstTokenIsSlow(current, baseline, limits), SlowFirstToken(FirstTokenTime(current)));
    AddInOrder(kv, FirstTokenIsSlow(current, baseline, limits), SlowFirstToken(FirstTokenTime(current)), 2);
    var queue := AddIf(slow, QueueIsDeep(current), QueueDepth(current.requestsWaiting));
    AddInOrder(slow, QueueIsDeep(current), QueueDepth(current.requestsWaiting), 3);
    var delta := PreemptionDelta(current, previous);
    AddInOrder(queue, delta > 0, Preemptions(delta), 4);
    AddInOrder(AddIf(queue, delta > 0, Preemptions(delta)), IsSwapping(current), SwapActive(current.requestsSwapped), 5);
  }

  lemma NothingIsInOrder()
    ensures forall end :: InOrder([], end)
  {
  }

  lemma RlmReasonsInOrder(isRlm: bool, current: Snapshot, previous: Option<Snapshot>)
    ensures InOrder(RlmReasonsOf(isRlm, current, previous), 8)
    ensures forall r | r in RlmReasonsOf(isRlm, current, previous) :: Place(r) >= 5
  {
    hide InOrder, AddIf, IsThrashing, Surges, Storms;
    NothingIsInOrder();
    if isRlm {
      var thrashing := AddIf([], IsThrashing(current), PrefixThrashing(current.prefixCacheHitRate));
      AddInOrder([], IsThrashing(current), PrefixThrashing(current.prefixCacheHitRate), 8);
      AddInOrder([], IsThrashing(current), PrefixThrashing(current.prefixCacheHitRate), 6);
      if previous.Some? {
        var before := previous.value;
        var surge := AddIf(thrashing, Surges(current, before), KvSurge(before.kvCacheUsage, current.kvCacheUsage));
        AddInOrder(thrashing, Surges(current, before), KvSurge(before.kvCacheUsage, current.kvCacheUsage), 7);
        var delta := current.preemptionsTotal - before.preemptionsTotal;
        AddInOrder(surge, Storms(current, before), PreemptionStorm(delta), 8);
      }
    }
    forall r | r in RlmReasonsOf(isRlm, current, previous)
      ensures Place(r) >= 5
    {
      RlmReasonMeaning(isRlm, current, previous, r);
    }
  }

  lemma {:induction false} WorstMeaningUpTo(reasons: seq<Reason>, n: nat)
    requires n <= |reasons|
    ensures WorstUpTo(reasons, n) == NoSeverity <==> n == 0
    ensures WorstUpTo(reasons, n) == Critical <==> exists i :: 0 <= i < n && IsGrave(reasons[i])
  {
    if n > 0 {
      WorstMeaningUpTo(reasons, n - 1);
    }
  }

  /** What makes a result critical: a nearly full cache, a slow first token, a preemption. */
  predicate IsGrave(reason: Reason) {
    (reason.KvCache? && reason.usage > 0.95) || reason.SlowFirstToken? || reason.Preemptions?
  }

  /** The severity of the general reasons, in raw readings. */
  lemma SeverityMeaning(current: Snapshot, baseline: Option<real>, previous: Option<int>, limits: Limits)
    ensures var reasons := ReasonsOf(current, baseline, previous, limits);
      && (Worst(reasons) == NoSeverity <==> reasons == [])
      && (Worst(reasons) == Critical <==>
            || (current.kvCacheUsage > limits.kvThreshold && current.kvCacheUsage > 0.95)
            || (baseline.Some? && current.ttftAvg.Some? && current.ttftAvg.value > baseline.value * limits.ttftMultiplier)
            || (previous.Some? && current.preemptionsTotal > previous.value))
  {
    var reasons := ReasonsOf(current, baseline, previous, limits);
    WorstMeaningUpTo(reasons, |reasons|);
    forall reason: Reason
      ensures reason in reasons && IsGrave(reason) <==>
        || (reason == KvCache(current.kvCacheUsage) && current.kvCacheUsage > limits.kvThreshold && current.kvCacheUsage > 0.95)
        || (reason.SlowFirstToken? && baseline.Some? && current.ttftAvg == Some(reason.ttft)
            && reason.ttft > baseline.value * limits.ttftMultiplier)
        || (reason.Preemptions? && previous.Some? && reason.delta == current.preemptionsTotal - previous.value > 0)
    {
      ReasonMeaning(current, baseline, previous, limits, reason);
    }
    hide ReasonsOf, Worst, WorstUpTo;
    if exists i :: 0 <= i < |reasons| && IsGrave(reasons[i]) {
      var i :| 0 <= i < |reasons| && IsGrave(reasons[i]);
      assert reasons[i] in reasons;
    }
    if current.kvCacheUsage > limits.kvThreshold && current.kvCacheUsage > 0.95 {
      assert KvCache(current.kvCacheUsage) in reasons;
    }
    if baseline.Some? && current.ttftAvg.Some? && current.ttftAvg.value > baseline.value * limits.ttftMultiplier {
      assert SlowFirstToken(current.ttftAvg.value) in reasons;
    }
    if previous.Some? && current.preemptionsTotal > previous.value {
      assert Preemptions(current.preemptionsTotal - previous.value) in reasons;
    }
  }

  /** A scrape counts as failed by its text alone; one that failed without a text reads as a server
      at rest. */
  lemma ScrapeMeaning(s: Snapshot, message: string)
    ensures !HasError(Scraped(s)) && Readings(Scraped(s)) == s
    ensures HasError(ScrapeError(message)) <==> message != ""
    ensures Readings(ScrapeError(message)) == Snapshot(0.0, 0.0, 0, 0, 0, 0, None)
  {
  }
}
