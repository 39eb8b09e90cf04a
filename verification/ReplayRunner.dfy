/** The session runner of the replay harness: one session replays its turns in order, and a
    semaphore bounds how many sessions replay at the same time. What the server answers is
    an arbitrary function of the session and the turn. */
module ReplayRunner {
  import opened Basics
  import opened RequestTiming

  datatype ReplaySession = ReplaySession(id: string, turnIdxs: seq<int>)

  /** The outcome of sending one turn; only the chat path lets exceptions through. */
  datatype Answer = Answered(turn: TurnResult) | Raised(message: string)

  datatype SessionResult = SessionResult(
    sessionId: string, turns: seq<TurnResult>,
    totalInputTokens: int, totalOutputTokens: int, duration: real)

  const CONTEXT_LEN: TurnResult -> int := (turn: TurnResult) => turn.contextLen
  const OUTPUT_LEN: TurnResult -> int := (turn: TurnResult) => turn.outputLen

  /** The weight of the successful turns among the first `n`. */
  function SuccessTotal(turns: seq<TurnResult>, n: nat, weight: TurnResult -> int): int
    requires n <= |turns|
  {
    if n == 0 then 0 else
    SuccessTotal(turns, n - 1, weight) + if turns[n - 1].success then weight(turns[n - 1]) else 0
  }

  lemma {:induction false} SuccessTotalPrefix(a: seq<TurnResult>, b: seq<TurnResult>, n: nat, weight: TurnResult -> int)
    requires n <= |a| && n <= |b| && forall k | 0 <= k < n :: a[k] == b[k]
    ensures SuccessTotal(a, n, weight) == SuccessTotal(b, n, weight)
  {
    if n > 0 {
      SuccessTotalPrefix(a, b, n - 1, weight);
    }
  }

  /** The answer to turn `k` as it is recorded. */
  function Recorded(session: ReplaySession, answers: seq<Answer>, k: nat): TurnResult
    requires k < |answers| == |session.turnIdxs| && answers[k].Answered?
  {
    answers[k].turn.(turnIdx := session.turnIdxs[k])
  }

  ghost predicate RecordsTurns(session: ReplaySession, answers: seq<Answer>, turns: seq<TurnResult>)
    requires |answers| == |session.turnIdxs|
  {
    && |turns| <= |answers|
    && forall k | 0 <= k < |turns| :: answers[k].Answered? && turns[k] == Recorded(session, answers, k)
  }

  /** The result of replaying a whole session, turn after turn. */
  ghost predicate IsSessionResult(session: ReplaySession, answers: seq<Answer>, result: SessionResult)
    requires |answers| == |session.turnIdxs|
  {
    && result.sessionId == session.id
    && |result.turns| == |answers|
    && RecordsTurns(session, answers, result.turns)
    && result.totalInputTokens == SuccessTotal(result.turns, |result.turns|, CONTEXT_LEN)
    && result.totalOutputTokens == SuccessTotal(result.turns, |result.turns|, OUTPUT_LEN)
  }

  /** Replays one session; `None` stands for an exception that leaves the session. */
  method RunReplaySession(session: ReplaySession, answers: seq<Answer>, duration: real)
    returns (result: Option<SessionResult>)
    requires |answers| == |session.turnIdxs|
    ensures result.None? <==> exists k :: 0 <= k < |answers| && answers[k].Raised?
    ensures result.Some? ==> IsSessionResult(session, answers, result.value) && result.value.duration == duration
  {
    var turns: seq<TurnResult> := [];
    var totalInput, totalOutput := 0, 0;
    for i := 0 to |answers|
      invariant |turns| == i && RecordsTurns(session, answers, turns)
      invariant totalInput == SuccessTotal(turns, i, CONTEXT_LEN)
      invariant totalOutput == SuccessTotal(turns, i, OUTPUT_LEN)
    {
      if answers[i].Raised? {
        return None;
      }
      var turn := answers[i].turn.(turnIdx := session.turnIdxs[i]);
      SuccessTotalPrefix(turns, turns + [turn], i, CONTEXT_LEN);
      SuccessTotalPrefix(turns, turns + [turn], i, OUTPUT_LEN);
      turns := turns + [turn];
      if turn.success {
        totalInput := totalInput + turn.contextLen;
        totalOutput := totalOutput + turn.outputLen;
      }
    }
    result := Some(SessionResult(session.id, turns, totalInput, totalOutput, duration));
  }

  // ---- All sessions, interleaved ----

  /** The sessions to replay, the answers they will get and the number of permits. */
  datatype Workload = Workload(sessions: seq<ReplaySession>, answers: seq<seq<Answer>>, maxConcurrency: nat)

  predicate ValidWorkload(w: Workload) {
    && |w.answers| == |w.sessions|
    && forall i | 0 <= i < |w.sessions| :: |w.answers[i]| == |w.sessions[i].turnIdxs|
  }

  datatype Phase =
    | Waiting                                              // for a permit
    | Running(turns: seq<TurnResult>, inFlight: bool)      // holds a permit
    | Finished(result: SessionResult)
    | Failed(message: string)

  datatype Event = Started(session: nat) | Sent(session: nat, turn: nat)

  /** What has happened so far, latest event outermost. */
  datatype Log = Empty | After(earlier: Log, event: Event)

  datatype Runner = Runner(permits: int, phases: seq<Phase>, log: Log)

  datatype Step = Acquire(i: nat) | Issue(i: nat) | Reply(i: nat) | Finish(i: nat, duration: real)

  function Init(w: Workload): Runner {
    Runner(w.maxConcurrency, seq(|w.sessions|, i => Waiting), Empty)
  }

  predicate Enabled(w: Workload, s: Runner, step: Step)
    requires ValidWorkload(w)
  {
    && step.i < |w.sessions| == |s.phases|
    && var phase, turnCount := s.phases[step.i], |w.answers[step.i]|;
       match step
       case Acquire(_) => phase.Waiting? && s.permits > 0
       case Issue(_) => phase.Running? && !phase.inFlight && |phase.turns| < turnCount
       case Reply(_) => phase.Running? && phase.inFlight && |phase.turns| < turnCount
       case Finish(_, _) => phase.Running? && !phase.inFlight && |phase.turns| == turnCount
  }

  /** One step of one session. Leaving the `async with` block gives the permit back, whether
      the session finished or an exception passed through. */
  function Next(w: Workload, s: Runner, step: Step): Runner
    requires ValidWorkload(w) && Enabled(w, s, step)
  {
    var i, phase := step.i, s.phases[step.i];
    match step
    case Acquire(_) =>
      Runner(s.permits - 1, s.phases[i := Running([], false)], After(s.log, Started(i)))
    case Issue(_) =>
      s.(phases := s.phases[i := phase.(inFlight := true)], log := After(s.log, Sent(i, |phase.turns|)))
    case Reply(_) =>
      var k := |phase.turns|;
      (match w.answers[i][k]
       case Answered(_) =>
         var turn := Recorded(w.sessions[i], w.answers[i], k);
         s.(phases := s.phases[i := Running(phase.turns + [turn], false)])
       case Raised(message) =>
         Runner(s.permits + 1, s.phases[i := Failed(message)], s.log))
    case Finish(_, duration) =>
      var n := |phase.turns|;
      var result := SessionResult(w.sessions[i].id, phase.turns,
        SuccessTotal(phase.turns, n, CONTEXT_LEN), SuccessTotal(phase.turns, n, OUTPUT_LEN), duration);
      Runner(s.permits + 1, s.phases[i := Finished(result)], s.log)
  }

  /** How many of the first `n` sessions hold a permit. */
  function RunningCount(phases: seq<Phase>, n: nat): nat
    requires n <= |phases|
  {
    if n == 0 then 0 else RunningCount(phases, n - 1) + if phases[n - 1].Running? then 1 else 0
  }

  lemma {:induction false} RunningCountUpdate(phases: seq<Phase>, n: nat, i: nat, phase: Phase)
    requires n <= |phases| && i < |phases|
    ensures RunningCount(phases[i := phase], n) == RunningCount(phases, n) +
      if i >= n || phases[i].Running? == phase.Running? then 0 else if phase.Running? then 1 else -1
  {
    if n > 0 {
      RunningCountUpdate(phases, n - 1, i, phase);
    }
  }

  /** How often session `i` was started, and the turns sent for it in the order they were sent. */
  function Starts(log: Log, i: nat): nat {
    match log
    case Empty => 0
    case After(earlier, event) => Starts(earlier, i) + if event == Started(i) then 1 else 0
  }

  function SentTurns(log: Log, i: nat): seq<nat> {
    match log
    case Empty => []
    case After(earlier, event) =>
      if event.Sent? && event.session == i then SentTurns(earlier, i) + [event.turn] else SentTurns(earlier, i)
  }

  function UpTo(n: nat): (s: seq<nat>)
    ensures |s| == n && forall k | 0 <= k < n :: s[k] == k
  {
    if n == 0 then [] else UpTo(n - 1) + [n - 1]
  }

  ghost predicate SessionInv(w: Workload, s: Runner, i: nat)
    requires ValidWorkload(w) && i < |w.sessions| == |s.phases|
  {
    var session, answers := w.sessions[i], w.answers[i];
    match s.phases[i]
    case Waiting => Starts(s.log, i) == 0 && SentTurns(s.log, i) == UpTo(0)
    case Running(turns, inFlight) =>
      && Starts(s.log, i) == 1
      && RecordsTurns(session, answers, turns)
      && (inFlight ==> |turns| < |answers|)
      && SentTurns(s.log, i) == UpTo(|turns| + if inFlight then 1 else 0)
    case Finished(result) =>
      && Starts(s.log, i) == 1
      && IsSessionResult(session, answers, result)
      && SentTurns(s.log, i) == UpTo(|answers|)
    case Failed(message) =>
      && Starts(s.log, i) == 1
      && exists k: nat :: IsFirstRaise(answers, k) && answers[k].message == message && SentTurns(s.log, i) == UpTo(k + 1)
  }

  ghost predicate IsFirstRaise(answers: seq<Answer>, k: nat) {
    k < |answers| && answers[k].Raised? && forall j | 0 <= j < k :: answers[j].Answered?
  }

  ghost predicate Inv(w: Workload, s: Runner)
    requires ValidWorkload(w)
  {
    && |s.phases| == |w.sessions|
    && s.permits >= 0
    && s.permits + RunningCount(s.phases, |s.phases|) == w.maxConcurrency
    && forall i | 0 <= i < |w.sessions| :: SessionInv(w, s, i)
  }

  lemma {:induction false} NoneRunning(n: nat, phases: seq<Phase>)
    requires n <= |phases| && forall i | 0 <= i < n :: !phases[i].Running?
    ensures RunningCount(phases, n) == 0
  {
    if n > 0 {
      NoneRunning(n - 1, phases);
    }
  }

  lemma InitInv(w: Workload)
    requires ValidWorkload(w)
    ensures Inv(w, Init(w))
  {
    NoneRunning(|w.sessions|, Init(w).phases);
  }

  lemma StepPermits(w: Workload, s: Runner, step: Step)
    requires ValidWorkload(w) && Enabled(w, s, step)
    requires s.permits >= 0
    ensures var t := Next(w, s, step);
      && |t.phases| == |s.phases|
      && t.permits >= 0
      && t.permits + RunningCount(t.phases, |t.phases|) == s.permits + RunningCount(s.phases, |s.phases|)
  {
    RunningCountUpdate(s.phases, |s.phases|, step.i, Next(w, s, step).phases[step.i]);
  }

  lemma StepLeavesOthers(w: Workload, s: Runner, step: Step, j: nat)
    requires ValidWorkload(w) && Enabled(w, s, step) && j < |w.sessions| && j != step.i
    requires SessionInv(w, s, j)
    ensures SessionInv(w, Next(w, s, step), j)
  {
    var t := Next(w, s, step);
    assert t.phases[j] == s.phases[j] && Starts(t.log, j) == Starts(s.log, j) && SentTurns(t.log, j) == SentTurns(s.log, j);
  }

  lemma StepKeepsOwn(w: Workload, s: Runner, step: Step)
    requires ValidWorkload(w) && Enabled(w, s, step)
    requires SessionInv(w, s, step.i)
    ensures SessionInv(w, Next(w, s, step), step.i)
  {
    var i, t := step.i, Next(w, s, step);
    if step.Reply? {
      var k := |s.phases[i].turns|;
      if w.answers[i][k].Raised? {
        assert IsFirstRaise(w.answers[i], k);
      }
    }
  }

  lemma StepInv(w: Workload, s: Runner, step: Step)
    requires ValidWorkload(w) && Inv(w, s) && Enabled(w, s, step)
    ensures Inv(w, Next(w, s, step))
  {
    StepPermits(w, s, step);
    StepKeepsOwn(w, s, step);
    forall j | 0 <= j < |w.sessions|
      ensures SessionInv(w, Next(w, s, step), j)
    {
      if j != step.i {
        StepLeavesOthers(w, s, step, j);
      }
    }
  }

  /** A run: any interleaving of enabled steps from the initial state. */
  ghost predicate IsRun(w: Workload, states: seq<Runner>, steps: seq<Step>)
    requires ValidWorkload(w)
  {
    && |states| == |steps| + 1
    && states[0] == Init(w)
    && forall n | 0 <= n < |steps| :: Enabled(w, states[n], steps[n]) && states[n + 1] == Next(w, states[n], steps[n])
  }

  lemma {:induction false} RunInv(w: Workload, states: seq<Runner>, steps: seq<Step>, n: nat)
    requires ValidWorkload(w) && IsRun(w, states, steps) && n <= |steps|
    ensures Inv(w, states[n])
  {
    if n == 0 {
      InitInv(w);
    } else {
      RunInv(w, states, steps, n - 1);
      StepInv(w, states[n - 1], steps[n - 1]);
    }
  }

  /** In every state of every run: running sessions and free permits add up to the bound, no
      session was started twice, and the turns sent for a session are 0, 1, 2, ... in order. */
  lemma RunIsSafe(w: Workload, states: seq<Runner>, steps: seq<Step>, n: nat)
    requires ValidWorkload(w) && IsRun(w, states, steps) && n <= |steps|
    ensures var s := states[n];
      && |s.phases| == |w.sessions|
      && 0 <= RunningCount(s.phases, |s.phases|) == w.maxConcurrency - s.permits <= w.maxConcurrency
      && forall i | 0 <= i < |w.sessions| ::
           && Starts(s.log, i) <= 1
           && SentTurns(s.log, i) == UpTo(|SentTurns(s.log, i)|)
           && |SentTurns(s.log, i)| <= |w.answers[i]|
  {
    RunInv(w, states, steps, n);
    var s := states[n];
    forall i | 0 <= i < |w.sessions|
      ensures Starts(s.log, i) <= 1 && SentTurns(s.log, i) == UpTo(|SentTurns(s.log, i)|)
      ensures |SentTurns(s.log, i)| <= |w.answers[i]|
    {
      assert SessionInv(w, s, i);
    }
  }

  /** When every session has finished, result `i` is what replaying session `i` on its own
      gives, every turn was sent exactly once, and every permit is back. */
  lemma CompleteRun(w: Workload, states: seq<Runner>, steps: seq<Step>)
    requires ValidWorkload(w) && IsRun(w, states, steps)
    requires forall i | 0 <= i < |w.sessions| :: |states[|steps|].phases| == |w.sessions| && states[|steps|].phases[i].Finished?
    ensures var s := states[|steps|];
      && s.permits == w.maxConcurrency
      && |s.phases| == |w.sessions|
      && forall i | 0 <= i < |w.sessions| ::
           && IsSessionResult(w.sessions[i], w.answers[i], s.phases[i].result)
           && SentTurns(s.log, i) == UpTo(|w.answers[i]|)
  {
    RunInv(w, states, steps, |steps|);
    var s := states[|steps|];
    NoneRunning(|s.phases|, s.phases);
    forall i | 0 <= i < |w.sessions|
      ensures IsSessionResult(w.sessions[i], w.answers[i], s.phases[i].result)
      ensures SentTurns(s.log, i) == UpTo(|w.answers[i]|)
    {
      assert SessionInv(w, s, i);
    }
  }

  predicate Settled(phase: Phase) {
    phase.Finished? || phase.Failed?
  }

  /** A step that session `i` can take now, given that a permit is free or it holds one. */
  function Offer(w: Workload, s: Runner, i: nat): Step
    requires ValidWorkload(w) && i < |w.sessions| == |s.phases|
  {
    match s.phases[i]
    case Running(turns, inFlight) =>
      if inFlight then Reply(i) else if |turns| < |w.answers[i]| then Issue(i) else Finish(i, 0.0)
    case _ => Acquire(i)
  }

  lemma {:induction false} SomeRunning(phases: seq<Phase>, n: nat) returns (i: nat)
    requires n <= |phases| && RunningCount(phases, n) > 0
    ensures i < n && phases[i].Running?
  {
    if phases[n - 1].Running? {
      i := n - 1;
    } else {
      i := SomeRunning(phases, n - 1);
    }
  }

  /** No deadlock: with at least one permit, a run is stuck only when every session is settled;
      with none, no session ever starts. */
  lemma NoDeadlock(w: Workload, s: Runner)
    requires ValidWorkload(w) && Inv(w, s)
    ensures (exists step :: Enabled(w, s, step)) <==>
      w.maxConcurrency > 0 && exists i :: 0 <= i < |s.phases| && !Settled(s.phases[i])
  {
    if step :| Enabled(w, s, step) {
      assert !Settled(s.phases[step.i]);
      if s.phases[step.i].Running? {
        RunningCountUpdate(s.phases, |s.phases|, step.i, Waiting);
      }
    }
    if w.maxConcurrency > 0 && exists i :: 0 <= i < |s.phases| && !Settled(s.phases[i]) {
      var i :| 0 <= i < |s.phases| && !Settled(s.phases[i]);
      assert SessionInv(w, s, i);
      if s.phases[i].Waiting? && s.permits == 0 {
        i := SomeRunning(s.phases, |s.phases|);
        assert SessionInv(w, s, i);
      }
      assert Enabled(w, s, Offer(w, s, i));
    }
  }

  /** The steps a session can still take. */
  function Remaining(phase: Phase, turnCount: nat): int {
    match phase
    case Waiting => 2 * turnCount + 2
    case Running(turns, inFlight) => 2 * (turnCount - |turns|) + if inFlight then 0 else 1
    case _ => 0
  }

  function Work(w: Workload, phases: seq<Phase>, n: nat): int
    requires ValidWorkload(w) && n <= |phases| == |w.sessions|
  {
    if n == 0 then 0 else Work(w, phases, n - 1) + Remaining(phases[n - 1], |w.answers[n - 1]|)
  }

  lemma {:induction false} WorkUpdate(w: Workload, phases: seq<Phase>, n: nat, i: nat, phase: Phase)
    requires ValidWorkload(w) && n <= |phases| == |w.sessions| && i < |phases|
    ensures Work(w, phases[i := phase], n) == Work(w, phases, n) +
      if i < n then Remaining(phase, |w.answers[i]|) - Remaining(phases[i], |w.answers[i]|) else 0
  {
    if n > 0 {
      WorkUpdate(w, phases, n - 1, i, phase);
    }
  }

  lemma {:induction false} WorkNonNegative(w: Workload, s: Runner, n: nat)
    requires ValidWorkload(w) && Inv(w, s) && n <= |s.phases|
    ensures Work(w, s.phases, n) >= 0
  {
    if n > 0 {
      assert SessionInv(w, s, n - 1);
      WorkNonNegative(w, s, n - 1);
    }
  }

  /** Every run ends: it has at most two steps per turn and two per session. */
  lemma {:induction false} RunLengthBound(w: Workload, states: seq<Runner>, steps: seq<Step>, n: nat)
    requires ValidWorkload(w) && IsRun(w, states, steps) && n <= |steps|
    ensures |states[n].phases| == |w.sessions|
    ensures n + Work(w, states[n].phases, |w.sessions|) <= Work(w, Init(w).phases, |w.sessions|)
    ensures n <= Work(w, Init(w).phases, |w.sessions|)
  {
    RunInv(w, states, steps, n);
    WorkNonNegative(w, states[n], |w.sessions|);
    if n > 0 {
      RunLengthBound(w, states, steps, n - 1);
      var s, step := states[n - 1], steps[n - 1];
      WorkUpdate(w, s.phases, |w.sessions|, step.i, states[n].phases[step.i]);
    }
  }

  /** The turns of the first `n` sessions. */
  function TurnsUpTo(w: Workload, n: nat): nat
    requires n <= |w.sessions|
  {
    if n == 0 then 0 else TurnsUpTo(w, n - 1) + |w.sessions[n - 1].turnIdxs|
  }

  lemma {:induction false} WorkAtStart(w: Workload, n: nat)
    requires ValidWorkload(w) && n <= |w.sessions|
    ensures Work(w, Init(w).phases, n) == 2 * TurnsUpTo(w, n) + 2 * n
  {
    if n > 0 {
      WorkAtStart(w, n - 1);
    }
  }

  /** In numbers: no run is longer than two steps for every turn and two for every session. */
  lemma RunsEnd(w: Workload, states: seq<Runner>, steps: seq<Step>)
    requires ValidWorkload(w) && IsRun(w, states, steps)
    ensures |steps| <= 2 * TurnsUpTo(w, |w.sessions|) + 2 * |w.sessions|
  {
    RunLengthBound(w, states, steps, |steps|);
    WorkAtStart(w, |w.sessions|);
  }

  /** A session's result, turn by turn: what was answered, under the index it was recorded with. */
  lemma SessionResultMeaning(session: ReplaySession, answers: seq<Answer>, result: SessionResult, k: nat)
    requires |answers| == |session.turnIdxs| && IsSessionResult(session, answers, result) && k < |answers|
    ensures result.sessionId == session.id && |result.turns| == |session.turnIdxs| && answers[k].Answered?
    ensures var turn, answer := result.turns[k], answers[k].turn;
      && turn.turnIdx == session.turnIdxs[k] && turn.contextLen == answer.contextLen && turn.outputLen == answer.outputLen
      && turn.ttft == answer.ttft && turn.tpot == answer.tpot && turn.e2el == answer.e2el && turn.itl == answer.itl
      && turn.success == answer.success && turn.error == answer.error
  {
    hide SuccessTotal;
  }
}
