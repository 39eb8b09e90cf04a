/** The agent's control loop as a state machine over its steps. A step is what happens between
    two points at which the loop, or a background task, waits; verification and investigation
    tasks therefore interleave with the cycles in every possible way. */
module AgentLoop {
  import opened Basics
  import opened Sums
  import opened AnomalyDetector
  import opened ActionExecutor

  /** `hasLlm`: API key, base URL and model of the language model are all set, which the defaults do
      not do. A negative cycle count is as good as 0. */
  datatype Config = Config(policy: Policy, localBrain: bool, hasLlm: bool, proactiveEvery: nat)

  /** Only the local brain is ever asked, and it answers nothing without a language model. */
  predicate BrainAnswers(c: Config) {
    c.localBrain && c.hasLlm
  }

  /** The settings under which advice is produced in the background. */
  predicate AdvisesInBackground(c: Config) {
    c.proactiveEvery > 0 && BrainAnswers(c)
  }

  /** What the loop remembers of the scrapes. */
  datatype Detector = Detector(baseline: Option<real>, lastPreemptions: Option<int>, lastSnapshot: Option<Snapshot>)

  /** The advisories: those waiting for a report, the investigation that `watch` launched last,
      those in flight, those of them that found a snapshot when they started, and the history -
      every advisory has a number. */
  datatype Advice = Advice(
    waiting: seq<nat>, task: Option<nat>, inFlight: set<nat>, able: set<nat>, launched: nat, cycles: nat,
    reported: seq<nat>, overwritten: seq<nat>, produced: nat)

  datatype Phase =
    | Idle
    | Scraping
    | Storing(scrape: Scrape)
    | Acting(snapshot: Snapshot, next: nat, end: nat)
    | Investigating
    | Reporting
    | Reported
    | Stopped

  /** `verifying` holds the actions under verification with the snapshot they answered to;
      `outcomes` are the scrapes the loop has processed and `deltas` the preemptions reported. */
  datatype Agent = Agent(
    phase: Phase, detector: Detector, advice: Advice, actions: seq<ActionView>, verifying: map<nat, Snapshot>,
    outcomes: seq<Scrape>, deltas: seq<int>)

  datatype Step =
    | Begin
    | TakeScrape(scrape: Scrape)
    | Detect(proposals: seq<string>, limits: Limits, isRlm: bool)
    | Act(reply: Reply)
    | Decide
    | InlineDone(count: nat)
    | InlineGivesUp
    | Report
    | CloseCycle
    | Abort
    | TaskDone(task: nat, count: nat)
    | TaskEnds(task: nat)
    | VerifyDone(action: nat, scrape: Scrape)
    | VerifyEnds(action: nat)

  const NOTHING_SEEN := Detector(None, None, None)
  const NO_ADVICE := Advice([], None, {}, {}, 0, 0, [], [], 0)

  function Init(): Agent {
    Agent(Idle, NOTHING_SEEN, NO_ADVICE, [], map[], [], [])
  }

  // ---- The parts of a step ----

  function Observe(d: Detector, s: Snapshot): Detector {
    Detector(if d.baseline.None? && s.ttftAvg.Some? then s.ttftAvg else d.baseline, Some(s.preemptionsTotal), Some(s))
  }

  /** The reasons of a cycle; the baseline is already updated when the detector looks at it. The
      limits and the kind of model follow from the model's name, which any scrape may settle. */
  function CycleReasons(limits: Limits, isRlm: bool, d: Detector, s: Snapshot): seq<Reason> {
    ReasonsOf(s, Observe(d, s).baseline, d.lastPreemptions, limits) + RlmReasonsOf(isRlm, s, d.lastSnapshot)
  }

  function NewPreemptions(d: Detector, s: Snapshot): seq<int> {
    if PreemptionDelta(s, d.lastPreemptions) > 0 then [PreemptionDelta(s, d.lastPreemptions)] else []
  }

  function Numbers(from: nat, count: nat): seq<nat> {
    seq(count, i requires 0 <= i < count => from + i)
  }

  /** A finished investigation replaces what is waiting. */
  function Deliver(a: Advice, count: nat): Advice {
    a.(waiting := Numbers(a.produced, count), overwritten := a.overwritten + a.waiting, produced := a.produced + count)
  }

  function Drain(a: Advice): Advice {
    a.(reported := a.reported + a.waiting, waiting := [])
  }

  function TaskIsDone(a: Advice): bool {
    a.task.None? || a.task.value !in a.inFlight
  }

  /** Closing a cycle may launch an investigation in the background. It starts while `watch`
      sleeps, before the next cycle; without a snapshot by then it will deliver nothing. */
  function CountCycle(a: Advice, every: nat, seen: bool): Advice {
    var counted := a.(cycles := a.cycles + 1);
    if every > 0 && counted.cycles % every == 0 && TaskIsDone(a) then
      counted.(task := Some(a.launched), inFlight := a.inFlight + {a.launched},
               able := if seen then a.able + {a.launched} else a.able, launched := a.launched + 1)
    else counted
  }

  /** The end of a background investigation. */
  function Land(a: Advice, task: nat): Advice {
    a.(inFlight := a.inFlight - {task}, able := a.able - {task})
  }

  function ProposedAll(types: seq<string>): seq<ActionView> {
    seq(|types|, i requires 0 <= i < |types| => Proposed(types[i]))
  }

  // ---- The steps ----

  /** When a step is possible. Only a brain that answers gives advisories, and only an
      investigation that found a snapshot delivers at all. */
  predicate CanStep(c: Config, s: Agent, step: Step) {
    match step
    case Begin => s.phase == Idle
    case TakeScrape(_) => s.phase == Scraping
    case Detect(_, _, _) => s.phase.Storing?
    case Act(_) => s.phase.Acting? && s.phase.next < s.phase.end <= |s.actions|
    case Decide => s.phase.Acting? && s.phase.next >= s.phase.end
    case InlineDone(count) => s.phase == Investigating && (BrainAnswers(c) || count == 0)
    case InlineGivesUp => s.phase == Investigating
    case Report => s.phase == Reporting
    case CloseCycle => s.phase == Reported
    case Abort => s.phase.Storing? || s.phase.Acting? || s.phase == Reporting
    case TaskDone(task, count) => task in s.advice.able && (BrainAnswers(c) || count == 0)
    case TaskEnds(task) => task in s.advice.inFlight
    case VerifyDone(action, _) => action in s.verifying && action < |s.actions|
    case VerifyEnds(action) => action in s.verifying
  }

  function ApplyScrape(s: Agent, scrape: Scrape): Agent {
    if HasError(scrape) then s.(phase := Reported, outcomes := s.outcomes + [scrape])
    else s.(phase := Storing(scrape))
  }

  function ApplyDetect(s: Agent, proposals: seq<string>, limits: Limits, isRlm: bool): Agent
    requires s.phase.Storing?
  {
    var snapshot := Readings(s.phase.scrape);
    var seen := s.(detector := Observe(s.detector, snapshot), outcomes := s.outcomes + [s.phase.scrape],
                   deltas := s.deltas + NewPreemptions(s.detector, snapshot));
    if CycleReasons(limits, isRlm, s.detector, snapshot) == [] then seen.(phase := Reporting)
    else seen.(actions := s.actions + ProposedAll(proposals),
               phase := Acting(snapshot, |s.actions|, |s.actions| + |proposals|))
  }

  /** Executes the next action when it is eligible; an applied one is verified in the background. */
  function ApplyAct(c: Config, s: Agent, reply: Reply): Agent
    requires CanStep(c, s, Act(reply))
  {
    var i := s.phase.next;
    var action := Executed(c.policy, s.actions[i], reply);
    var acted := s.(actions := s.actions[i := action]);
    if Raises(c.policy, action.actionType, reply) then acted.(phase := Stopped)
    else acted.(phase := Acting(s.phase.snapshot, i + 1, s.phase.end),
                verifying := if IsEligible(c.policy, action.actionType) && action.applied
                             then s.verifying[i := s.phase.snapshot] else s.verifying)
  }

  function Apply(c: Config, s: Agent, step: Step): Agent
    requires CanStep(c, s, step)
  {
    match step
    case Begin => s.(phase := Scraping)
    case TakeScrape(scrape) => ApplyScrape(s, scrape)
    case Detect(proposals, limits, isRlm) => ApplyDetect(s, proposals, limits, isRlm)
    case Act(reply) => ApplyAct(c, s, reply)
    case Decide => s.(phase := if c.localBrain && s.advice.waiting == [] then Investigating else Reporting)
    case InlineDone(count) => s.(phase := Reporting, advice := Deliver(s.advice, count))
    case InlineGivesUp => s.(phase := Reporting)
    case Report => s.(phase := Reported, advice := Drain(s.advice))
    case CloseCycle => s.(phase := Idle, advice := CountCycle(s.advice, c.proactiveEvery, s.detector.lastSnapshot.Some?))
    case Abort => s.(phase := Stopped)
    case TaskDone(task, count) => s.(advice := Land(Deliver(s.advice, count), task))
    case TaskEnds(task) => s.(advice := Land(s.advice, task))
    case VerifyDone(action, scrape) =>
      s.(actions := s.actions[action := Verified(s.actions[action], scrape, Some(s.verifying[action]))],
         verifying := s.verifying - {action})
    case VerifyEnds(action) => s.(verifying := s.verifying - {action})
  }

  predicate Next(c: Config, s: Agent, t: Agent, step: Step) {
    CanStep(c, s, step) && t == Apply(c, s, step)
  }

  ghost predicate IsRun(c: Config, run: seq<Agent>, steps: seq<Step>) {
    && |run| == |steps| + 1
    && run[0] == Init()
    && forall i | 0 <= i < |steps| :: Next(c, run[i], run[i + 1], steps[i])
  }

  // ---- The detector ----

  /** The readings of those of the first `n` scrapes that have no error. */
  function Seen(outcomes: seq<Scrape>, n: nat): seq<Snapshot>
    requires n <= |outcomes|
  {
    if n == 0 then [] else
    Seen(outcomes, n - 1) + if HasError(outcomes[n - 1]) then [] else [Readings(outcomes[n - 1])]
  }

  function Snapshots(outcomes: seq<Scrape>): seq<Snapshot> {
    Seen(outcomes, |outcomes|)
  }

  /** The first time to first token among the first `n` snapshots that have one. */
  function FirstTtft(seen: seq<Snapshot>, n: nat): Option<real>
    requires n <= |seen|
  {
    if n == 0 then None else
    var earlier := FirstTtft(seen, n - 1);
    if earlier.Some? then earlier else seen[n - 1].ttftAvg
  }

  function Counter(seen: seq<Snapshot>): seq<int> {
    seq(|seen|, i requires 0 <= i < |seen| => seen[i].preemptionsTotal)
  }

  ghost predicate Follows(d: Detector, deltas: seq<int>, seen: seq<Snapshot>) {
    && d.baseline == FirstTtft(seen, |seen|)
    && d.lastSnapshot == (if seen == [] then None else Some(seen[|seen| - 1]))
    && d.lastPreemptions == (if seen == [] then None else Some(seen[|seen| - 1].preemptionsTotal))
    && IntSum(deltas) == PositiveVariation(Counter(seen))
  }

  ghost predicate DetectorInv(s: Agent) {
    Follows(s.detector, s.deltas, Snapshots(s.outcomes)) && (s.phase.Storing? ==> !HasError(s.phase.scrape))
  }

  lemma {:induction false} SeenPrefix(outcomes: seq<Scrape>, scrape: Scrape, n: nat)
    requires n <= |outcomes|
    ensures Seen(outcomes + [scrape], n) == Seen(outcomes, n)
  {
    if n > 0 {
      SeenPrefix(outcomes, scrape, n - 1);
    }
  }

  lemma SnapshotsSnoc(outcomes: seq<Scrape>, scrape: Scrape)
    ensures Snapshots(outcomes + [scrape])
         == if HasError(scrape) then Snapshots(outcomes) else Snapshots(outcomes) + [Readings(scrape)]
  {
    SeenPrefix(outcomes, scrape, |outcomes|);
  }

  lemma {:induction false} FirstTtftPrefix(seen: seq<Snapshot>, s: Snapshot, n: nat)
    requires n <= |seen|
    ensures FirstTtft(seen + [s], n) == FirstTtft(seen, n)
  {
    if n > 0 {
      FirstTtftPrefix(seen, s, n - 1);
    }
  }

  lemma CounterSnoc(seen: seq<Snapshot>, s: Snapshot)
    ensures Counter(seen + [s]) == Counter(seen) + [s.preemptionsTotal]
  {
  }

  lemma DeltaSum(d: Detector, deltas: seq<int>, seen: seq<Snapshot>, s: Snapshot)
    requires Follows(d, deltas, seen)
    ensures IntSum(deltas + NewPreemptions(d, s)) == PositiveVariation(Counter(seen + [s]))
  {
    hide IntSum, PositiveVariation, Counter, FirstTtft;
    CounterSnoc(seen, s);
    PositiveVariationSnoc(Counter(seen), s.preemptionsTotal);
    CounterAt(seen);
    var delta := PreemptionDelta(s, d.lastPreemptions);
    if delta > 0 {
      IntSumSnoc(deltas, delta);
    } else {
      assert deltas + [] == deltas;
    }
    FirstVariation(s.preemptionsTotal);
  }

  lemma CounterAt(seen: seq<Snapshot>)
    ensures |Counter(seen)| == |seen|
    ensures seen != [] ==> Counter(seen)[|seen| - 1] == seen[|seen| - 1].preemptionsTotal
  {
  }

  lemma FirstVariation(x: int)
    ensures PositiveVariation([]) == 0 == PositiveVariation([x])
  {
  }

  lemma ObserveFollows(d: Detector, deltas: seq<int>, seen: seq<Snapshot>, s: Snapshot)
    requires Follows(d, deltas, seen)
    ensures Follows(Observe(d, s), deltas + NewPreemptions(d, s), seen + [s])
  {
    DeltaSum(d, deltas, seen, s);
    FirstTtftPrefix(seen, s, |seen|);
    hide IntSum, PositiveVariation, Counter, NewPreemptions;
  }

  /** Only the detection of a cycle touches the detector. */
  lemma OnlyDetectionWrites(c: Config, s: Agent, t: Agent, step: Step)
    requires Next(c, s, t, step)
    ensures !step.Detect? ==> t.detector == s.detector && t.deltas == s.deltas
    ensures !step.Detect? && !step.TakeScrape? ==> t.outcomes == s.outcomes
    ensures step.TakeScrape? ==> t.outcomes == if HasError(step.scrape) then s.outcomes + [step.scrape] else s.outcomes
    ensures step.Detect? ==>
      && s.phase.Storing?
      && t.detector == Observe(s.detector, Readings(s.phase.scrape))
      && t.outcomes == s.outcomes + [s.phase.scrape]
      && t.deltas == s.deltas + NewPreemptions(s.detector, Readings(s.phase.scrape))
  {
    hide Observe, NewPreemptions, CycleReasons, Deliver, Drain, CountCycle, Land, Executed, Verified, ProposedAll;
  }

  lemma DetectorStep(c: Config, s: Agent, t: Agent, step: Step)
    requires DetectorInv(s) && Next(c, s, t, step)
    ensures DetectorInv(t)
  {
    hide *;
    OnlyDetectionWrites(c, s, t, step);
    DetectorInvIs(s);
    DetectorInvIs(t);
    StoredIsReadable(c, s, t, step);
    if step.TakeScrape? {
      if HasError(step.scrape) {
        SnapshotsSnoc(s.outcomes, step.scrape);
      }
    } else if step.Detect? {
      SnapshotsSnoc(s.outcomes, s.phase.scrape);
      ObserveFollows(s.detector, s.deltas, Snapshots(s.outcomes), Readings(s.phase.scrape));
    }
  }

  lemma DetectorInvIs(s: Agent)
    ensures DetectorInv(s)
       <==> Follows(s.detector, s.deltas, Snapshots(s.outcomes)) && (s.phase.Storing? ==> !HasError(s.phase.scrape))
  {
  }

  lemma StoredIsReadable(c: Config, s: Agent, t: Agent, step: Step)
    requires Next(c, s, t, step) && (s.phase.Storing? ==> !HasError(s.phase.scrape))
    ensures t.phase.Storing? ==> !HasError(t.phase.scrape)
  {
    hide Observe, NewPreemptions, CycleReasons, Deliver, Drain, CountCycle, Land, Executed, Verified, ProposedAll, Raises;
  }

  // ---- The actions ----

  /** Every action is sound, only applied actions are under verification, and those whose turn
      has not come are as they were proposed. */
  ghost predicate ActionsInv(c: Config, s: Agent) {
    && (forall i | 0 <= i < |s.actions| :: Sound(c.policy, s.actions[i]))
    && (forall i | i in s.verifying :: i < |s.actions| && s.actions[i].applied)
    && (s.phase.Acting? ==>
         && s.phase.next <= s.phase.end == |s.actions|
         && (forall i | i in s.verifying :: i < s.phase.next)
         && forall i | s.phase.next <= i < |s.actions| :: s.actions[i] == Proposed(s.actions[i].actionType))
  }

  lemma ExecutedIsSound(policy: Policy, a: ActionView, reply: Reply)
    requires Sound(policy, a)
    ensures Sound(policy, Executed(policy, a, reply))
  {
  }

  lemma VerifiedIsSound(policy: Policy, a: ActionView, scrape: Scrape, baseline: Option<Snapshot>)
    requires Sound(policy, a)
    ensures Sound(policy, Verified(a, scrape, baseline)) && Verified(a, scrape, baseline).applied == a.applied
  {
  }

  lemma ProposedIsSound(policy: Policy, actionType: string)
    ensures Sound(policy, Proposed(actionType)) && Proposed(actionType).actionType == actionType
  {
  }

  lemma ActionsUntouched(c: Config, s: Agent, t: Agent)
    requires ActionsInv(c, s) && t.actions == s.actions && t.verifying == s.verifying
    requires t.phase == s.phase || !t.phase.Acting?
    ensures ActionsInv(c, t)
  {
    hide Sound;
  }

  lemma DetectKeepsActions(c: Config, s: Agent, proposals: seq<string>, limits: Limits, isRlm: bool)
    requires ActionsInv(c, s) && s.phase.Storing?
    ensures ActionsInv(c, ApplyDetect(s, proposals, limits, isRlm))
  {
    hide CycleReasons, Observe, NewPreemptions, Sound, Proposed;
    forall i | 0 <= i < |proposals|
      ensures Sound(c.policy, Proposed(proposals[i])) && Proposed(proposals[i]).actionType == proposals[i]
    {
      ProposedIsSound(c.policy, proposals[i]);
    }
  }

  lemma ActKeepsActions(c: Config, s: Agent, reply: Reply)
    requires ActionsInv(c, s) && CanStep(c, s, Act(reply))
    ensures ActionsInv(c, ApplyAct(c, s, reply))
  {
    ExecutedIsSound(c.policy, s.actions[s.phase.next], reply);
    hide Sound, Executed, Raises, Proposed;
  }

  lemma VerifyKeepsActions(c: Config, s: Agent, i: nat, scrape: Scrape)
    requires ActionsInv(c, s) && i in s.verifying && i < |s.actions|
    ensures ActionsInv(c, Apply(c, s, VerifyDone(i, scrape)))
  {
    VerifiedIsSound(c.policy, s.actions[i], scrape, Some(s.verifying[i]));
    hide Sound, Verified, Proposed;
  }

  lemma VerifyEndsKeepsActions(c: Config, s: Agent, i: nat)
    requires ActionsInv(c, s) && i in s.verifying
    ensures ActionsInv(c, Apply(c, s, VerifyEnds(i)))
  {
    hide Sound, Proposed;
  }

  lemma ActionsStep(c: Config, s: Agent, t: Agent, step: Step)
    requires ActionsInv(c, s) && Next(c, s, t, step)
    ensures ActionsInv(c, t)
  {
    match step {
      case Detect(proposals, limits, isRlm) => DetectKeepsActions(c, s, proposals, limits, isRlm);
      case Act(reply) => ActKeepsActions(c, s, reply);
      case VerifyDone(i, scrape) => VerifyKeepsActions(c, s, i, scrape);
      case VerifyEnds(i) => VerifyEndsKeepsActions(c, s, i);
      case _ =>
        hide ActionsInv, Deliver, Drain, CountCycle, Land;
        ActionsUntouched(c, s, t);
    }
  }

  // ---- The advisories ----

  /** Every advisory ever produced is in exactly one place - one report, overwritten, or waiting
      - and only the investigation launched last can still be in flight. */
  ghost predicate AdviceInv(a: Advice) {
    && multiset(a.reported) + multiset(a.overwritten) + multiset(a.waiting) == multiset(Numbers(0, a.produced))
    && (forall t | t in a.inFlight :: t < a.launched && a.task == Some(t))
    && a.able <= a.inFlight
  }

  lemma NumbersSplit(n: nat, count: nat)
    ensures multiset(Numbers(0, n + count)) == multiset(Numbers(0, n)) + multiset(Numbers(n, count))
  {
    assert Numbers(0, n + count) == Numbers(0, n) + Numbers(n, count);
  }

  lemma DeliverKeeps(a: Advice, count: nat)
    requires AdviceInv(a)
    ensures AdviceInv(Deliver(a, count))
  {
    NumbersSplit(a.produced, count);
    hide Numbers;
  }

  lemma DrainKeeps(a: Advice)
    requires AdviceInv(a)
    ensures AdviceInv(Drain(a))
  {
    hide Numbers;
  }

  lemma CountCycleKeeps(a: Advice, every: nat, seen: bool)
    requires AdviceInv(a)
    ensures AdviceInv(CountCycle(a, every, seen))
  {
    hide Numbers;
  }

  lemma LandingKeeps(a: Advice, task: nat)
    requires AdviceInv(a)
    ensures AdviceInv(Land(a, task))
  {
    hide Numbers;
  }

  lemma AdviceStep(c: Config, s: Agent, t: Agent, step: Step)
    requires AdviceInv(s.advice) && Next(c, s, t, step)
    ensures AdviceInv(t.advice)
  {
    hide AdviceInv, Deliver, Drain, CountCycle, Land;
    match step {
      case InlineDone(count) => DeliverKeeps(s.advice, count);
      case Report => DrainKeeps(s.advice);
      case CloseCycle => CountCycleKeeps(s.advice, c.proactiveEvery, s.detector.lastSnapshot.Some?);
      case TaskDone(task, count) =>
        DeliverKeeps(s.advice, count);
        LandingKeeps(Deliver(s.advice, count), task);
      case TaskEnds(task) => LandingKeeps(s.advice, task);
      case _ =>
    }
  }

  // ---- Every run ----

  ghost predicate Inv(c: Config, s: Agent) {
    DetectorInv(s) && ActionsInv(c, s) && AdviceInv(s.advice)
  }

  lemma InitIsFine(c: Config)
    ensures Inv(c, Init())
  {
    FirstVariation(0);
    assert Counter([]) == [];
    assert Numbers(0, 0) == [];
  }

  lemma {:induction false} RunInv(c: Config, run: seq<Agent>, steps: seq<Step>, i: nat)
    requires IsRun(c, run, steps) && i < |run|
    ensures Inv(c, run[i])
  {
    hide DetectorInv, ActionsInv, AdviceInv, Next, Init;
    if i == 0 {
      InitIsFine(c);
    } else {
      RunInv(c, run, steps, i - 1);
      DetectorStep(c, run[i - 1], run[i], steps[i - 1]);
      ActionsStep(c, run[i - 1], run[i], steps[i - 1]);
      AdviceStep(c, run[i - 1], run[i], steps[i - 1]);
    }
  }

  /** The detector of every reachable state is what the processed scrapes without error make it:
      the baseline is the first time to first token any of them had, the counter and the
      snapshot are the last one's, and the reported preemptions add up to the rises of the
      counter - however background tasks interleave. */
  lemma DetectorFollowsScrapes(c: Config, run: seq<Agent>, steps: seq<Step>, i: nat)
    requires IsRun(c, run, steps) && i < |run|
    ensures Follows(run[i].detector, run[i].deltas, Snapshots(run[i].outcomes))
  {
    RunInv(c, run, steps, i);
  }

  /** The reported preemptions are the net change of the counter exactly when it never fell. */
  lemma PreemptionsAddUp(c: Config, run: seq<Agent>, steps: seq<Step>, i: nat)
    requires IsRun(c, run, steps) && i < |run| && Snapshots(run[i].outcomes) != []
    ensures var counter := Counter(Snapshots(run[i].outcomes));
      && |counter| > 0
      && IntSum(run[i].deltas) >= Max(0, counter[|counter| - 1] - counter[0])
      && (IntSum(run[i].deltas) == counter[|counter| - 1] - counter[0] <==> Ascending(counter))
  {
    RunInv(c, run, steps, i);
    hide IntSum, PositiveVariation, FirstTtft, Ascending, IsRun;
    CounterAt(Snapshots(run[i].outcomes));
    VariationBoundsChange(Counter(Snapshots(run[i].outcomes)));
  }

  lemma BaselineStays(c: Config, s: Agent, t: Agent, step: Step)
    requires Next(c, s, t, step) && s.detector.baseline.Some?
    ensures t.detector.baseline == s.detector.baseline
  {
    OnlyDetectionWrites(c, s, t, step);
    hide Next;
  }

  /** The baseline is written once: no later step of the run changes it. */
  lemma {:induction false} BaselineIsWrittenOnce(c: Config, run: seq<Agent>, steps: seq<Step>, i: nat, j: nat)
    requires IsRun(c, run, steps) && i <= j < |run| && run[i].detector.baseline.Some?
    ensures run[j].detector.baseline == run[i].detector.baseline
    decreases j - i
  {
    hide Next, Init;
    if i < j {
      BaselineIsWrittenOnce(c, run, steps, i, j - 1);
      BaselineStays(c, run[j - 1], run[j], steps[j - 1]);
    }
  }

  /** In every reachable state applied actions were attempted, allowlisted and live, only they
      are under verification, and only throttling was ever judged improved or regressed. */
  lemma ActionsAreSound(c: Config, run: seq<Agent>, steps: seq<Step>, i: nat, k: nat)
    requires IsRun(c, run, steps) && i < |run| && k < |run[i].actions|
    ensures Sound(c.policy, run[i].actions[k])
    ensures k in run[i].verifying ==> run[i].actions[k].applied
  {
    RunInv(c, run, steps, i);
  }

  lemma {:induction false} NumbersOnce(n: nat, x: nat)
    ensures multiset(Numbers(0, n))[x] == if x < n then 1 else 0
  {
    if n == 0 {
      assert Numbers(0, 0) == [];
    } else {
      NumbersOnce(n - 1, x);
      assert Numbers(0, n) == Numbers(0, n - 1) + [n - 1];
    }
  }

  /** No advisory is reported twice, none is reported that was overwritten, and none vanishes:
      reported, overwritten and waiting advisories add up to those produced. */
  lemma AdvisoriesAreReportedOnce(c: Config, run: seq<Agent>, steps: seq<Step>, i: nat, x: nat)
    requires IsRun(c, run, steps) && i < |run|
    ensures var a := run[i].advice;
      multiset(a.reported)[x] + multiset(a.overwritten)[x] + multiset(a.waiting)[x] == if x < a.produced then 1 else 0
  {
    RunInv(c, run, steps, i);
    NumbersOnce(run[i].advice.produced, x);
    hide Numbers;
    var a := run[i].advice;
    assert (multiset(a.reported) + multiset(a.overwritten) + multiset(a.waiting))[x] == multiset(Numbers(0, a.produced))[x];
  }

  /** At most one investigation launched by `watch` is in flight. */
  lemma OneInvestigationInFlight(c: Config, run: seq<Agent>, steps: seq<Step>, i: nat, t: nat, u: nat)
    requires IsRun(c, run, steps) && i < |run| && t in run[i].advice.inFlight && u in run[i].advice.inFlight
    ensures t == u
  {
    RunInv(c, run, steps, i);
  }

  lemma NextMultiple(cycles: nat, every: nat, launched: nat)
    requires every > 0 && (cycles + 1) % every == 0 && launched * every <= cycles
    ensures (launched + 1) * every <= cycles + 1
  {
    var k := (cycles + 1) / every;
    assert k * every == cycles + 1;
    if k <= launched {
      Monotone(k, launched, every);
      assert false;
    }
    Monotone(launched + 1, k, every);
  }

  lemma Monotone(a: nat, b: nat, every: nat)
    requires a <= b
    ensures a * every <= b * every
  {
  }

  ghost predicate Spaced(a: Advice, every: nat) {
    if every == 0 then a.launched == 0 else a.launched * every <= a.cycles
  }

  lemma CountCycleIsSpaced(a: Advice, every: nat, seen: bool)
    requires Spaced(a, every)
    ensures Spaced(CountCycle(a, every, seen), every)
  {
    if every > 0 && (a.cycles + 1) % every == 0 {
      NextMultiple(a.cycles, every, a.launched);
    }
  }

  lemma SpacedStep(c: Config, s: Agent, t: Agent, step: Step)
    requires Spaced(s.advice, c.proactiveEvery) && Next(c, s, t, step)
    ensures Spaced(t.advice, c.proactiveEvery)
  {
    if step.CloseCycle? {
      CountCycleIsSpaced(s.advice, c.proactiveEvery, s.detector.lastSnapshot.Some?);
    } else {
      assert t.advice.launched == s.advice.launched && t.advice.cycles == s.advice.cycles;
    }
  }

  /** Investigations in the background are no more frequent than configured: there is at most one
      launch for every `proactiveEvery` closed cycles, and none when it is 0. */
  lemma {:induction false} LaunchesAreSpaced(c: Config, run: seq<Agent>, steps: seq<Step>, i: nat)
    requires IsRun(c, run, steps) && i < |run|
    ensures var a, every := run[i].advice, c.proactiveEvery;
      if every == 0 then a.launched == 0 else a.launched * every <= a.cycles
  {
    hide Next;
    if i > 0 {
      LaunchesAreSpaced(c, run, steps, i - 1);
      SpacedStep(c, run[i - 1], run[i], steps[i - 1]);
    }
  }

  // ---- When advice is lost ----

  /** What holds when nothing is investigated in the background or only a brain that never
      answers is asked: nothing is overwritten. */
  ghost predicate Quiet(c: Config, s: Agent) {
    && s.advice.overwritten == []
    && (c.proactiveEvery == 0 ==> s.advice.able == {} && (s.phase == Investigating ==> s.advice.waiting == []))
    && (!BrainAnswers(c) ==> s.advice.waiting == [])
  }

  lemma QuietStep(c: Config, s: Agent, t: Agent, step: Step)
    requires !AdvisesInBackground(c) && Quiet(c, s) && Next(c, s, t, step)
    ensures Quiet(c, t)
  {
    hide Observe, NewPreemptions, CycleReasons, Executed, Verified, ProposedAll, Raises;
  }

  lemma {:induction false} QuietRun(c: Config, run: seq<Agent>, steps: seq<Step>, i: nat)
    requires !AdvisesInBackground(c) && IsRun(c, run, steps) && i < |run|
    ensures Quiet(c, run[i])
  {
    hide Next;
    if i > 0 {
      QuietRun(c, run, steps, i - 1);
      QuietStep(c, run[i - 1], run[i], steps[i - 1]);
    }
  }

  lemma ExtendRun(c: Config, run: seq<Agent>, steps: seq<Step>, step: Step) returns (longer: seq<Agent>, more: seq<Step>)
    requires IsRun(c, run, steps) && CanStep(c, run[|run| - 1], step)
    ensures IsRun(c, longer, more) && |longer| == |run| + 1 && run <= longer && more == steps + [step]
    ensures longer[|longer| - 1] == Apply(c, run[|run| - 1], step)
  {
    hide Apply, CanStep, Init;
    longer, more := run + [Apply(c, run[|run| - 1], step)], steps + [step];
  }

  /** A snapshot no limit objects to. */
  function CalmSnapshot(limits: Limits): Snapshot {
    Snapshot(limits.kvThreshold, 0.0, 0, 0, 0, 0, None)
  }

  lemma CalmIsHealthy(limits: Limits)
    ensures CycleReasons(limits, false, NOTHING_SEEN, CalmSnapshot(limits)) == []
  {
  }

  lemma DeepQueueIsAnomalous(limits: Limits, isRlm: bool, d: Detector, s: Snapshot)
    requires s.requestsWaiting > 10
    ensures CycleReasons(limits, isRlm, d, s) != []
  {
    hide RlmReasonsOf, PressureReasons;
  }

  /** The last state of a run that is between two cycles and has seen a snapshot. */
  ghost predicate EndsWith(c: Config, run: seq<Agent>, steps: seq<Step>, phase: Phase, advice: Advice) {
    && IsRun(c, run, steps) && run[|run| - 1].phase == phase && run[|run| - 1].advice == advice
    && run[|run| - 1].detector.lastSnapshot.Some?
  }

  /** A first cycle without anomaly, up to its report. */
  lemma HealthyCycle(c: Config) returns (run: seq<Agent>, steps: seq<Step>)
    ensures EndsWith(c, run, steps, Reported, NO_ADVICE)
  {
    var limits := Limits(1.0, 2.0);
    CalmIsHealthy(limits);
    run, steps := [Init()], [];
    run, steps := ExtendRun(c, run, steps, Begin);
    run, steps := ExtendRun(c, run, steps, TakeScrape(Scraped(CalmSnapshot(limits))));
    hide CycleReasons, NewPreemptions;
    run, steps := ExtendRun(c, run, steps, Detect([], limits, false));
    run, steps := ExtendRun(c, run, steps, Report);
  }

  /** A cycle that cannot scrape, up to its report. */
  lemma FailedCycle(c: Config, run: seq<Agent>, steps: seq<Step>, a: Advice) returns (longer: seq<Agent>, more: seq<Step>)
    requires EndsWith(c, run, steps, Idle, a)
    ensures EndsWith(c, longer, more, Reported, a)
  {
    longer, more := ExtendRun(c, run, steps, Begin);
    longer, more := ExtendRun(c, longer, more, TakeScrape(ScrapeError("refused")));
  }

  lemma CloseOne(c: Config, run: seq<Agent>, steps: seq<Step>, a: Advice) returns (longer: seq<Agent>, more: seq<Step>)
    requires EndsWith(c, run, steps, Reported, a)
    ensures EndsWith(c, longer, more, Idle, CountCycle(a, c.proactiveEvery, true))
  {
    hide CountCycle;
    longer, more := ExtendRun(c, run, steps, CloseCycle);
  }

  /** `a` with a new investigation in flight that found a snapshot, after some more cycles. */
  function Launching(a: Advice, cycles: nat): Advice {
    a.(cycles := cycles, task := Some(a.launched), inFlight := {a.launched}, able := {a.launched}, launched := a.launched + 1)
  }

  lemma RemainderOf(q: nat, every: nat, r: nat)
    requires r < every
    ensures (q * every + r) % every == r
  {
    var n := q * every + r;
    var p := n / every;
    assert n == p * every + n % every;
    if p < q {
      Monotone(p + 1, q, every);
    } else if q < p {
      Monotone(q + 1, p, every);
    }
  }

  lemma NextRemainder(n: nat, every: nat)
    requires every > 0
    ensures (n + 1) % every == if n % every + 1 == every then 0 else n % every + 1
  {
    var q, r := n / every, n % every;
    assert n == q * every + r;
    if r + 1 == every {
      assert n + 1 == (q + 1) * every + 0;
      RemainderOf(q + 1, every, 0);
    } else {
      RemainderOf(q, every, r + 1);
    }
  }

  /** Closing cycles, whether they can scrape or not, sooner or later launches an investigation. */
  lemma {:induction false} CloseUntilLaunch(c: Config, run: seq<Agent>, steps: seq<Step>, a: Advice)
    returns (longer: seq<Agent>, more: seq<Step>, cycles: nat)
    requires c.proactiveEvery > 0 && EndsWith(c, run, steps, Reported, a) && a.inFlight == a.able == {}
    ensures EndsWith(c, longer, more, Idle, Launching(a, cycles))
    decreases c.proactiveEvery - a.cycles % c.proactiveEvery
  {
    hide EndsWith;
    longer, more := CloseOne(c, run, steps, a);
    cycles := a.cycles + 1;
    if cycles % c.proactiveEvery == 0 {
      assert a.inFlight + {a.launched} == {a.launched} && a.able + {a.launched} == {a.launched};
    } else {
      NextRemainder(a.cycles, c.proactiveEvery);
      var b := a.(cycles := cycles);
      longer, more := FailedCycle(c, longer, more, b);
      longer, more, cycles := CloseUntilLaunch(c, longer, more, b);
    }
  }

  lemma DeliverInBackground(c: Config, run: seq<Agent>, steps: seq<Step>, phase: Phase, a: Advice, task: nat, count: nat)
    returns (longer: seq<Agent>, more: seq<Step>)
    requires EndsWith(c, run, steps, phase, a) && task in a.able && BrainAnswers(c)
    ensures EndsWith(c, longer, more, phase, Land(Deliver(a, count), task)) && |longer| == |run| + 1
  {
    hide Land, Deliver;
    longer, more := ExtendRun(c, run, steps, TaskDone(task, count));
  }

  lemma FirstLaunch(c: Config) returns (run: seq<Agent>, steps: seq<Step>, cycles: nat)
    requires c.proactiveEvery > 0
    ensures EndsWith(c, run, steps, Idle, Launching(NO_ADVICE, cycles))
  {
    hide EndsWith;
    run, steps := HealthyCycle(c);
    run, steps, cycles := CloseUntilLaunch(c, run, steps, NO_ADVICE);
  }

  lemma SecondDelivery(a: Advice, cycles: nat, later: nat)
    requires a == Launching(NO_ADVICE, cycles)
    ensures var first := Land(Deliver(a, 1), 0);
      && first.inFlight == first.able == {} && first.launched == 1
      && 1 in Launching(first, later).able
      && Land(Deliver(Launching(first, later), 0), 1).overwritten == [0]
  {
    assert Numbers(0, 1) == [0];
    assert a.inFlight - {0} == {};
  }

  /** A run that loses an advisory: the first investigation delivers one, the cycles up to the
      next launch all fail to scrape and so report nothing, and the next investigation puts its
      own, empty answer in place of it. */
  lemma AdviceCanBeLost(c: Config) returns (run: seq<Agent>, steps: seq<Step>)
    requires AdvisesInBackground(c)
    ensures IsRun(c, run, steps) && run[|run| - 1].advice.overwritten != []
  {
    var cycles, later: nat;
    run, steps, cycles := FirstLaunch(c);
    var a := Launching(NO_ADVICE, cycles);
    var first := Land(Deliver(a, 1), 0);
    run, steps := DeliverInBackground(c, run, steps, Idle, a, 0, 1);
    run, steps := FailedCycle(c, run, steps, first);
    SecondDelivery(a, cycles, 0);
    run, steps, later := CloseUntilLaunch(c, run, steps, first);
    SecondDelivery(a, cycles, later);
    run, steps := DeliverInBackground(c, run, steps, Idle, Launching(first, later), 1, 0);
  }

  /** When advice is safe: no run of an agent ever overwrites an advisory that no report has
      taken if and only if it launches no investigations in the background, has no local brain, or
      no language model is configured for it - as with the defaults, which set no API key. */
  lemma AdviceIsSafeExactly(c: Config)
    ensures (forall run: seq<Agent>, steps: seq<Step>, i: nat | IsRun(c, run, steps) && i < |run| :: run[i].advice.overwritten == [])
       <==> !AdvisesInBackground(c)
  {
    hide IsRun;
    if !AdvisesInBackground(c) {
      forall run: seq<Agent>, steps: seq<Step>, i: nat | IsRun(c, run, steps) && i < |run|
        ensures run[i].advice.overwritten == []
      {
        QuietRun(c, run, steps, i);
      }
    } else {
      var run, steps := AdviceCanBeLost(c);
      assert IsRun(c, run, steps) && run[|run| - 1].advice.overwritten != [];
    }
  }

  /** Step `i` is the end of an inline investigation that replaces advisories of a background one. */
  ghost predicate InlineDiscards(c: Config, run: seq<Agent>, steps: seq<Step>, i: nat) {
    IsRun(c, run, steps) && i < |steps| && steps[i].InlineDone? && run[i].advice.waiting != []
  }

  /** A cycle with a deep queue, up to the point where it investigates inline. */
  lemma AnomalousCycle(c: Config, run: seq<Agent>, steps: seq<Step>, a: Advice) returns (longer: seq<Agent>, more: seq<Step>)
    requires EndsWith(c, run, steps, Idle, a) && c.localBrain && a.waiting == []
    ensures EndsWith(c, longer, more, Investigating, a)
  {
    var limits, s := Limits(1.0, 2.0), Snapshot(0.0, 0.0, 0, 11, 0, 0, None);
    longer, more := ExtendRun(c, run, steps, Begin);
    longer, more := ExtendRun(c, longer, more, TakeScrape(Scraped(s)));
    hide NewPreemptions, CycleReasons;
    DeepQueueIsAnomalous(limits, false, longer[|longer| - 1].detector, s);
    longer, more := ExtendRun(c, longer, more, Detect([], limits, false));
    longer, more := ExtendRun(c, longer, more, Decide);
  }

  lemma OverlappingRun(c: Config) returns (run: seq<Agent>, steps: seq<Step>, i: nat)
    requires AdvisesInBackground(c)
    ensures InlineDiscards(c, run, steps, i)
  {
    var cycles: nat;
    run, steps, cycles := FirstLaunch(c);
    var a := Launching(NO_ADVICE, cycles);
    run, steps := AnomalousCycle(c, run, steps, a);
    run, steps := DeliverInBackground(c, run, steps, Investigating, a, 0, 1);
    SecondDelivery(a, cycles, 0);
    i := |steps|;
    assert Deliver(a, 1).waiting == Numbers(0, 1);
    run, steps := ExtendRun(c, run, steps, InlineDone(0));
  }

  lemma NothingToDiscard(c: Config, run: seq<Agent>, steps: seq<Step>, i: nat)
    requires !AdvisesInBackground(c) && IsRun(c, run, steps) && i < |steps| && steps[i].InlineDone?
    ensures run[i].advice.waiting == []
  {
    QuietRun(c, run, steps, i);
    hide Apply;
    assert Next(c, run[i], run[i + 1], steps[i]);
  }

  /** The inline investigation starts only when nothing is waiting, but a background one may be in
      flight and deliver meanwhile. So the guard keeps it from discarding another's advisories in
      every run if and only if none is launched in the background or no brain answers. */
  lemma InvestigationsOverlap(c: Config)
    ensures (exists run: seq<Agent>, steps: seq<Step>, i: nat :: InlineDiscards(c, run, steps, i)) <==> AdvisesInBackground(c)
  {
    if AdvisesInBackground(c) {
      var run, steps, i := OverlappingRun(c);
      assert InlineDiscards(c, run, steps, i);
    } else {
      forall run: seq<Agent>, steps: seq<Step>, i: nat | IsRun(c, run, steps) && i < |steps| && steps[i].InlineDone?
        ensures run[i].advice.waiting == []
      {
        NothingToDiscard(c, run, steps, i);
      }
    }
  }

  // ---- Scrapes that failed ----

  /** All scrapes processed from number `first` on failed with `message`. */
  ghost predicate OnlyFailures(outcomes: seq<Scrape>, first: nat, message: string) {
    forall k | first <= k < |outcomes| :: outcomes[k] == ScrapeError(message)
  }

  lemma OutcomesGrow(c: Config, s: Agent, t: Agent, step: Step)
    requires Next(c, s, t, step)
    ensures s.outcomes <= t.outcomes
  {
    OnlyDetectionWrites(c, s, t, step);
    hide Next;
  }

  lemma FailureStep(c: Config, s: Agent, t: Agent, step: Step, first: nat, message: string)
    requires DetectorInv(s) && Next(c, s, t, step) && message != ""
    requires first <= |s.outcomes| && OnlyFailures(t.outcomes, first, message)
    ensures OnlyFailures(s.outcomes, first, message) && t.detector == s.detector
  {
    OnlyDetectionWrites(c, s, t, step);
    OutcomesGrow(c, s, t, step);
    hide Next, Observe, Follows, NewPreemptions;
    assert step.Detect? ==> t.outcomes[|s.outcomes|] == s.phase.scrape;
  }

  lemma {:induction false} FailuresAreHarmless(c: Config, run: seq<Agent>, steps: seq<Step>, i: nat, j: nat, message: string)
    requires IsRun(c, run, steps) && i <= j < |run| && message != ""
    requires OnlyFailures(run[j].outcomes, |run[i].outcomes|, message)
    ensures run[j].detector == run[i].detector
    decreases j - i
  {
    hide Next, Init, OnlyFailures, DetectorInv;
    if i < j {
      RunInv(c, run, steps, j - 1);
      OutcomesLast(c, run, steps, i, j - 1);
      FailureStep(c, run[j - 1], run[j], steps[j - 1], |run[i].outcomes|, message);
      FailuresAreHarmless(c, run, steps, i, j - 1, message);
    }
  }

  lemma {:induction false} OutcomesLast(c: Config, run: seq<Agent>, steps: seq<Step>, i: nat, j: nat)
    requires IsRun(c, run, steps) && i <= j < |run|
    ensures run[i].outcomes <= run[j].outcomes
    decreases j - i
  {
    hide Next, Init;
    if i < j {
      OutcomesLast(c, run, steps, i, j - 1);
      OutcomesGrow(c, run[j - 1], run[j], steps[j - 1]);
    }
  }

  /** A first cycle whose scrape fails with an exception that has no text. */
  lemma SilentFailure(c: Config) returns (run: seq<Agent>, steps: seq<Step>)
    ensures IsRun(c, run, steps) && |run| > 0 && run[0] == Init()
    ensures run[|run| - 1].outcomes == [ScrapeError("")] && run[|run| - 1].detector == Observe(NOTHING_SEEN, BLANK)
  {
    run, steps := [Init()], [];
    run, steps := ExtendRun(c, run, steps, Begin);
    run, steps := ExtendRun(c, run, steps, TakeScrape(ScrapeError("")));
    hide CycleReasons, NewPreemptions;
    run, steps := ExtendRun(c, run, steps, Detect([], Limits(1.0, 2.0), false));
  }

  /** Scrapes that fail with a given text leave the detector alone - between any two states of
      any run - if and only if the text is not empty. A time-out can have an empty one. */
  lemma FailuresLeaveDetectorAlone(c: Config, message: string)
    ensures (forall run: seq<Agent>, steps: seq<Step>, i: nat, j: nat
               | IsRun(c, run, steps) && i <= j < |run| && OnlyFailures(run[j].outcomes, |run[i].outcomes|, message) ::
               run[j].detector == run[i].detector)
       <==> message != ""
  {
    hide IsRun, Init;
    if message != "" {
      forall run: seq<Agent>, steps: seq<Step>, i: nat, j: nat
        | IsRun(c, run, steps) && i <= j < |run| && OnlyFailures(run[j].outcomes, |run[i].outcomes|, message)
        ensures run[j].detector == run[i].detector
      {
        FailuresAreHarmless(c, run, steps, i, j, message);
      }
    } else {
      var run, steps := SilentFailure(c);
      InitSawNothing();
      var last := |run| - 1;
      assert OnlyFailures(run[last].outcomes, |run[0].outcomes|, message);
      assert run[last].detector != run[0].detector;
    }
  }

  lemma InitSawNothing()
    ensures Init().detector == NOTHING_SEEN && Init().outcomes == []
  {
  }

  /** What one such failure does to the preemptions reported: of a counter that never falls below
      zero, the next reading is reported whole. That is what would have been reported anyway if
      and only if the counter stood at zero before or after. */
  lemma SilentFailureInventsPreemptions(d: Detector, s: Snapshot)
    requires d.lastPreemptions.Some? && d.lastPreemptions.value >= 0 && s.preemptionsTotal >= 0
    ensures var reported := NewPreemptions(d, BLANK) + NewPreemptions(Observe(d, BLANK), s);
      && IntSum(reported) == s.preemptionsTotal
      && (IntSum(reported) == IntSum(NewPreemptions(d, s)) <==> d.lastPreemptions.value == 0 || s.preemptionsTotal == 0)
  {
    SumOfReported(NewPreemptions(Observe(d, BLANK), s), s.preemptionsTotal);
    SumOfReported(NewPreemptions(d, s), s.preemptionsTotal - d.lastPreemptions.value);
    var rest := NewPreemptions(Observe(d, BLANK), s);
    assert NewPreemptions(d, BLANK) + rest == rest;
    hide IntSum;
  }

  lemma SumOfReported(reported: seq<int>, delta: int)
    requires reported == if delta > 0 then [delta] else []
    ensures IntSum(reported) == Max(0, delta)
  {
    assert IntSumUpTo([delta], 1) == IntSumUpTo([delta], 0) + delta;
  }

  // ---- The cycle, step by step ----

  /** What a cycle looks at: the first time to first token ever seen, this one included, and the
      counter and the snapshot of the cycle before. */
  lemma CycleReasonsMeaning(limits: Limits, isRlm: bool, d: Detector, s: Snapshot)
    ensures CycleReasons(limits, isRlm, d, s)
         == ReasonsOf(s, if d.baseline.Some? then d.baseline else s.ttftAvg, d.lastPreemptions, limits)
          + RlmReasonsOf(isRlm, s, d.lastSnapshot)
  {
    hide ReasonsOf, RlmReasonsOf;
  }

  /** A scrape either fails and goes straight into a report, or is looked at; without a reason the
      cycle reports, and with one its proposals are taken up unapplied, behind those of earlier
      cycles. */
  lemma DetectionMeaning(c: Config, s: Agent, t: Agent, step: Step)
    requires Next(c, s, t, step)
    ensures step.TakeScrape? ==>
      t.phase == (if step.scrape.ScrapeError? && step.scrape.message != "" then Reported else Storing(step.scrape))
    ensures step.Detect? && s.phase.Storing? ==>
      var readings, n := Readings(s.phase.scrape), |s.actions|;
      if CycleReasons(step.limits, step.isRlm, s.detector, readings) == [] then t.phase == Reporting && t.actions == s.actions
      else
        && t.phase == Acting(readings, n, n + |step.proposals|) && |t.actions| == n + |step.proposals|
        && (forall i | 0 <= i < n :: t.actions[i] == s.actions[i])
        && forall i | 0 <= i < |step.proposals| :: t.actions[n + i] == Proposed(step.proposals[i])
  {
    hide CycleReasons, Observe, NewPreemptions, Proposed;
  }

  /** The actions of a cycle are executed one after the other, each as the executor does; an
      applied one is verified against the readings it answered to, and a raising one stops the
      loop. */
  lemma ActingMeaning(c: Config, s: Agent, t: Agent, reply: Reply)
    requires Next(c, s, t, Act(reply))
    ensures s.phase.Acting? && s.phase.next < |s.actions| == |t.actions|
    ensures var i := s.phase.next;
      && t.actions[i] == Executed(c.policy, s.actions[i], reply)
      && (forall j | 0 <= j < |s.actions| && j != i :: t.actions[j] == s.actions[j])
      && (t.phase == Stopped <==> Raises(c.policy, s.actions[i].actionType, reply))
      && (t.phase != Stopped ==>
            && t.phase == Acting(s.phase.snapshot, i + 1, s.phase.end)
            && t.verifying == if IsEligible(c.policy, s.actions[i].actionType) && t.actions[i].applied
                              then s.verifying[i := s.phase.snapshot] else s.verifying)
  {
    hide Raises;
  }

  /** After the last action an inline investigation starts if and only if the brain is local and no
      advisory is waiting; a report takes whatever is. */
  lemma ReportingMeaning(c: Config, s: Agent, t: Agent, step: Step)
    requires Next(c, s, t, step)
    ensures step.Decide? ==> (t.phase == Investigating <==> c.localBrain && s.advice.waiting == [])
    ensures step.Decide? ==> t.phase in {Investigating, Reporting} && t.advice == s.advice
    ensures step.Report? ==> t.phase == Reported && t.advice.waiting == [] && t.advice.reported == s.advice.reported + s.advice.waiting
    ensures step.InlineDone? ==> t.phase == Reporting && |t.advice.waiting| == step.count
    ensures step.InlineDone? || step.TaskDone? ==> t.advice.overwritten == s.advice.overwritten + s.advice.waiting
    ensures step.InlineDone? && step.count > 0 ==> c.localBrain && c.hasLlm
    ensures step.TaskDone? ==> t.phase == s.phase && |t.advice.waiting| == step.count && step.task in s.advice.able
    ensures step.TaskDone? && step.count > 0 ==> c.localBrain && c.hasLlm
  {
    hide CycleReasons, Observe, NewPreemptions, Executed, Verified, ProposedAll, Raises;
  }

  /** Closing a cycle launches an investigation if and only if its number is a multiple of the
      setting, which is not 0, and the one launched before has ended; it can deliver if a snapshot
      has been seen. */
  lemma LaunchMeaning(c: Config, s: Agent, t: Agent)
    requires Next(c, s, t, CloseCycle)
    ensures t.phase == Idle && t.advice.cycles == s.advice.cycles + 1
    ensures var launches := c.proactiveEvery > 0 && t.advice.cycles % c.proactiveEvery == 0
                         && (s.advice.task.None? || s.advice.task.value !in s.advice.inFlight);
      var k := s.advice.launched;
      if launches then
        && t.advice.task == Some(k) && t.advice.launched == k + 1 && t.advice.inFlight == s.advice.inFlight + {k}
        && t.advice.able == if s.detector.lastSnapshot.Some? then s.advice.able + {k} else s.advice.able
      else
        && t.advice.task == s.advice.task && t.advice.launched == k
        && t.advice.inFlight == s.advice.inFlight && t.advice.able == s.advice.able
  {
  }

  /** Which step the loop itself can take in a reachable state: its phase decides, together with
      the actions it has left, and every answer is taken. Nothing in the background holds it up. */
  lemma LoopStepsAreExact(c: Config, run: seq<Agent>, steps: seq<Step>, i: nat, step: Step)
    requires IsRun(c, run, steps) && i < |run|
    requires !step.TaskDone? && !step.TaskEnds? && !step.VerifyDone? && !step.VerifyEnds?
    ensures CanStep(c, run[i], step) <==>
      match run[i].phase
      case Idle => step.Begin?
      case Scraping => step.TakeScrape?
      case Storing(_) => step.Detect? || step.Abort?
      case Acting(_, next, end) => (if next < end then step.Act? else step.Decide?) || step.Abort?
      case Investigating => step.InlineGivesUp? || (step.InlineDone? && (step.count > 0 ==> c.localBrain && c.hasLlm))
      case Reporting => step.Report? || step.Abort?
      case Reported => step.CloseCycle?
      case Stopped => false
  {
    RunInv(c, run, steps, i);
    hide IsRun, DetectorInv, AdviceInv, Sound;
  }

  /** Whatever the loop is doing, a background investigation can end at any time, with advisories
      only from a brain that answers, and a verification with any scrape. */
  lemma BackgroundStepsAreExact(c: Config, run: seq<Agent>, steps: seq<Step>, i: nat, k: nat, scrape: Scrape, count: nat)
    requires IsRun(c, run, steps) && i < |run|
    ensures CanStep(c, run[i], VerifyDone(k, scrape)) <==> k in run[i].verifying
    ensures CanStep(c, run[i], VerifyEnds(k)) <==> k in run[i].verifying
    ensures CanStep(c, run[i], TaskEnds(k)) <==> k in run[i].advice.inFlight
    ensures CanStep(c, run[i], TaskDone(k, count)) <==> k in run[i].advice.able && (count > 0 ==> c.localBrain && c.hasLlm)
    ensures k in run[i].advice.able ==> k in run[i].advice.inFlight
  {
    RunInv(c, run, steps, i);
    hide IsRun, DetectorInv, Sound;
  }

  /** How many steps are left of a cycle, at most, when the detector proposes nothing more. */
  function Left(phase: Phase): nat {
    match phase
    case Idle => 0
    case Scraping => 6
    case Storing(_) => 5
    case Acting(_, next, end) => if next < end then 4 + end - next else 4
    case Investigating => 3
    case Reporting => 2
    case Reported => 1
    case Stopped => 0
  }

  lemma StepForward(c: Config, run: seq<Agent>, steps: seq<Step>) returns (step: Step)
    requires IsRun(c, run, steps) && run[|run| - 1].phase != Stopped && run[|run| - 1].phase != Idle
    ensures CanStep(c, run[|run| - 1], step)
    ensures Apply(c, run[|run| - 1], step).phase != Stopped
    ensures Left(Apply(c, run[|run| - 1], step).phase) < Left(run[|run| - 1].phase)
  {
    hide CycleReasons, Observe, NewPreemptions, Executed, Verified, Deliver, Drain, CountCycle, Land, ProposedAll;
    var s := run[|run| - 1];
    match s.phase {
      case Scraping => step := TakeScrape(ScrapeError("refused"));
      case Storing(_) => step := Detect([], Limits(1.0, 2.0), false);
      case Acting(_, next, end) => step := if next < end then Act(Accepted) else Decide;
      case Investigating => step := InlineGivesUp;
      case Reporting => step := Report;
      case _ => step := CloseCycle;
    }
    LoopStepsAreExact(c, run, steps, |run| - 1, step);
    hide CanStep;
  }

  /** From every reachable state in which the loop has not stopped its cycle can be brought to an
      end, in a number of steps known beforehand and without waiting for any background task. */
  lemma {:induction false} CycleCanEnd(c: Config, run: seq<Agent>, steps: seq<Step>)
    returns (longer: seq<Agent>, more: seq<Step>)
    requires IsRun(c, run, steps) && run[|run| - 1].phase != Stopped
    ensures IsRun(c, longer, more) && run <= longer && steps <= more
    ensures longer[|longer| - 1].phase == Idle && |more| - |steps| <= Left(run[|run| - 1].phase)
    ensures forall i | |steps| <= i < |more| ::
      !more[i].TaskDone? && !more[i].TaskEnds? && !more[i].VerifyDone? && !more[i].VerifyEnds?
    decreases Left(run[|run| - 1].phase)
  {
    if run[|run| - 1].phase == Idle {
      return run, steps;
    }
    var step := StepForward(c, run, steps);
    hide Apply, CanStep, Left, Next;
    longer, more := ExtendRun(c, run, steps, step);
    longer, more := CycleCanEnd(c, longer, more);
  }

  // ---- The agent object ----

  /** The agent's fields; the investigations in flight are those of its pending tasks that
      `watch` launched. The ghost fields keep the history of the advisories. */
  class InferGuardAgent {
    const config: Config
    var baselineTtft: Option<real>
    var lastPreemptions: Option<int>
    var lastSnapshot: Option<Snapshot>
    var lastProactiveAdvisories: seq<nat>
    var proactiveTask: Option<nat>
    var inFlight: set<nat>
    ghost var able: set<nat>
    var launched: nat
    var reactiveCycleCounter: nat
    ghost var reported: seq<nat>
    ghost var overwritten: seq<nat>
    var produced: nat

    ghost function DetectorView(): Detector
      reads this
    {
      Detector(baselineTtft, lastPreemptions, lastSnapshot)
    }

    ghost function AdviceView(): Advice
      reads this
    {
      Advice(lastProactiveAdvisories, proactiveTask, inFlight, able, launched, reactiveCycleCounter,
             reported, overwritten, produced)
    }

    constructor (config: Config)
      ensures this.config == config && DetectorView() == NOTHING_SEEN && AdviceView() == NO_ADVICE
    {
      this.config := config;
      baselineTtft, lastPreemptions, lastSnapshot := None, None, None;
      lastProactiveAdvisories, proactiveTask, inFlight, launched, reactiveCycleCounter := [], None, {}, 0, 0;
      reported, overwritten, produced, able := [], [], 0, {};
    }

    /** The part of a cycle that looks at a snapshot: the baseline is fixed first, the detector
        compares with the previous scrape, and only then does the snapshot take its place. */
    method ProcessSnapshot(snapshot: Snapshot, limits: Limits, isRlm: bool) returns (anomaly: Anomaly)
      modifies this
      ensures DetectorView() == Observe(old(DetectorView()), snapshot)
      ensures AdviceView() == old(AdviceView())
      ensures anomaly.reasons == CycleReasons(limits, isRlm, old(DetectorView()), snapshot)
      ensures anomaly.severity == Worst(anomaly.reasons)
      ensures anomaly.isAnomaly <==> anomaly.reasons != []
    {
      hide ReasonsOf, RlmReasonsOf, Worst;
      if baselineTtft.None? && snapshot.ttftAvg.Some? {
        baselineTtft := snapshot.ttftAvg;
      }
      anomaly := DetectAnomalies(Scraped(snapshot), baselineTtft, lastPreemptions, limits);
      var rlm := DetectRlmAnomalies(isRlm, snapshot, lastSnapshot);
      anomaly := ExtendAnomaly(anomaly, rlm);
      lastPreemptions := Some(snapshot.preemptionsTotal);
      lastSnapshot := Some(snapshot);
    }

    method DrainProactiveAdvisories() returns (advisories: seq<nat>)
      modifies this
      ensures AdviceView() == Drain(old(AdviceView())) && DetectorView() == old(DetectorView())
      ensures advisories == old(lastProactiveAdvisories)
    {
      advisories := lastProactiveAdvisories;
      lastProactiveAdvisories := [];
      reported := reported + advisories;
    }

    /** The end of an investigation that produced `count` advisories. */
    method ReceiveAdvisories(count: nat)
      modifies this
      ensures AdviceView() == Deliver(old(AdviceView()), count) && DetectorView() == old(DetectorView())
    {
      overwritten := overwritten + lastProactiveAdvisories;
      lastProactiveAdvisories := Numbers(produced, count);
      produced := produced + count;
    }

    /** What `watch` does behind a report. */
    method CloseCycle() returns (task: Option<nat>)
      modifies this
      ensures AdviceView() == CountCycle(old(AdviceView()), config.proactiveEvery, lastSnapshot.Some?)
      ensures DetectorView() == old(DetectorView())
      ensures task.Some? ==> proactiveTask == task && task.value in inFlight
    {
      task := None;
      reactiveCycleCounter := reactiveCycleCounter + 1;
      if config.proactiveEvery > 0 && reactiveCycleCounter % config.proactiveEvery == 0
         && (proactiveTask.None? || proactiveTask.value !in inFlight) {
        task := Some(launched);
        proactiveTask := task;
        inFlight := inFlight + {launched};
        able := if lastSnapshot.Some? then able + {launched} else able;
        launched := launched + 1;
      }
    }
  }
}
