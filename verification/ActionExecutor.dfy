/** Executing and verifying safe actions: the fields the executor sets, step by step, and what
    they can say of an action that started out unapplied. */
module ActionExecutor {
  import opened Basics
  import opened AnomalyDetector

  datatype ActuationMode = Off | DryRun | Live

  datatype Policy = Policy(allowlist: set<string>, mode: ActuationMode)

  datatype Verdict = Unverified | Improved | Regressed | Unchanged | VerificationError

  /** The fields of an action, as a value. */
  datatype ActionView = ActionView(
    actionType: string, advisoryOnly: bool, attempted: bool, applied: bool, executionError: string,
    verified: bool, verdict: Verdict)

  /** What the actuation endpoint answers. An answer that is neither an object nor empty makes
      the executor raise after it has marked the action. */
  datatype Reply = Failed(message: string) | Accepted | Rejected(reason: string) | NotAnObject

  const THROTTLE := "throttle_concurrency"

  predicate IsEligible(policy: Policy, actionType: string) {
    actionType in policy.allowlist && policy.mode != Off
  }

  function Proposed(actionType: string): ActionView {
    ActionView(actionType, true, false, false, "", false, Unverified)
  }

  predicate Raises(policy: Policy, actionType: string, reply: Reply) {
    IsEligible(policy, actionType) && policy.mode == Live && reply.NotAnObject?
  }

  function ExecutionError(policy: Policy, before: string, reply: Reply): string {
    if policy.mode == DryRun then "dry_run" else
    match reply
    case Failed(message) => message
    case Accepted => ""
    case Rejected(reason) => reason
    case NotAnObject => before
  }

  function Executed(policy: Policy, a: ActionView, reply: Reply): ActionView {
    if !IsEligible(policy, a.actionType) then a else
    a.(advisoryOnly := false, attempted := true, applied := policy.mode == Live && reply.Accepted?,
       executionError := ExecutionError(policy, a.executionError, reply))
  }

  /** What a verification makes of the cache usage and the running requests before and after. */
  function Judge(before: Snapshot, after: Snapshot): Verdict {
    if after.kvCacheUsage < before.kvCacheUsage - 0.05 || after.requestsRunning < before.requestsRunning then Improved
    else if after.kvCacheUsage > before.kvCacheUsage + 0.05 then Regressed
    else Unchanged
  }

  function Verified(a: ActionView, scrape: Scrape, baseline: Option<Snapshot>): ActionView {
    a.(verified := true,
       verdict := if HasError(scrape) then VerificationError
                  else if a.actionType == THROTTLE && baseline.Some? then Judge(baseline.value, Readings(scrape))
                  else Unchanged)
  }

  class SafeAction {
    const actionType: string
    var advisoryOnly: bool
    var attempted: bool
    var applied: bool
    var executionError: string
    var verified: bool
    var verdict: Verdict

    function View(): ActionView
      reads this
    {
      ActionView(actionType, advisoryOnly, attempted, applied, executionError, verified, verdict)
    }

    constructor (actionType: string)
      ensures View() == Proposed(actionType)
    {
      this.actionType := actionType;
      advisoryOnly, attempted, applied, executionError := true, false, false, "";
      verified, verdict := false, Unverified;
    }
  }

  class Executor {
    const policy: Policy

    constructor (policy: Policy)
      ensures this.policy == policy
    {
      this.policy := policy;
    }

    /** Sends an eligible action to the endpoint, unless this is a dry run. */
    method Execute(action: SafeAction, reply: Reply) returns (raised: bool)
      modifies action
      ensures action.View() == Executed(policy, old(action.View()), reply)
      ensures raised == Raises(policy, action.actionType, reply)
    {
      if !IsEligible(policy, action.actionType) {
        return false;
      }
      action.advisoryOnly := false;
      action.attempted := true;
      if policy.mode == DryRun {
        action.applied := false;
        action.executionError := "dry_run";
        return false;
      }
      if reply.Failed? {
        action.applied := false;
        action.executionError := reply.message;
        return false;
      }
      var accepted := reply.Accepted?;
      action.applied := accepted;
      if reply.NotAnObject? {
        return true;
      }
      action.executionError := if accepted then "" else reply.reason;
      return false;
    }

    /** Compares a later scrape with the one the action answered to. */
    method Verify(action: SafeAction, scrape: Scrape, baseline: Option<Snapshot>)
      modifies action
      ensures action.View() == Verified(old(action.View()), scrape, baseline)
    {
      if HasError(scrape) {
        action.verified := true;
        action.verdict := VerificationError;
        return;
      }
      action.verified := true;
      if action.actionType == THROTTLE && baseline.Some? {
        var current, before := Readings(scrape), baseline.value;
        if current.kvCacheUsage < before.kvCacheUsage - 0.05 || current.requestsRunning < before.requestsRunning {
          action.verdict := Improved;
        } else if current.kvCacheUsage > before.kvCacheUsage + 0.05 {
          action.verdict := Regressed;
        } else {
          action.verdict := Unchanged;
        }
        return;
      }
      action.verdict := Unchanged;
    }
  }

  // ---- The life of an action ----

  /** What the fields of an action can say, whatever was executed and verified, how often and in
      which order. */
  predicate Sound(policy: Policy, a: ActionView) {
    && (a.applied ==> a.attempted && !a.advisoryOnly && a.actionType in policy.allowlist && policy.mode == Live
                      && a.executionError == "")
    && (a.attempted <==> !a.advisoryOnly)
    && (a.attempted ==> IsEligible(policy, a.actionType))
    && (a.verdict == Improved || a.verdict == Regressed ==> a.actionType == THROTTLE && a.verified)
    && (a.verified <==> a.verdict != Unverified)
  }

  datatype Deed = Execution(reply: Reply) | Verification(scrape: Scrape, baseline: Option<Snapshot>)

  function Do(policy: Policy, a: ActionView, deed: Deed): ActionView {
    match deed
    case Execution(reply) => Executed(policy, a, reply)
    case Verification(scrape, baseline) => Verified(a, scrape, baseline)
  }

  function After(policy: Policy, a: ActionView, deeds: seq<Deed>, n: nat): ActionView
    requires n <= |deeds|
  {
    if n == 0 then a else Do(policy, After(policy, a, deeds, n - 1), deeds[n - 1])
  }

  /** Every history of an action that was proposed unapplied is sound: applied implies attempted,
      not advisory, allowlisted and live; only throttling can be judged improved or regressed. */
  lemma {:induction false} HistoriesAreSound(policy: Policy, actionType: string, deeds: seq<Deed>, n: nat)
    requires n <= |deeds|
    ensures Sound(policy, After(policy, Proposed(actionType), deeds, n))
    ensures After(policy, Proposed(actionType), deeds, n).actionType == actionType
  {
    if n > 0 {
      HistoriesAreSound(policy, actionType, deeds, n - 1);
    }
  }

  /** The answer to the last execution among the first `n` deeds. */
  function LastReply(deeds: seq<Deed>, n: nat): Option<Reply>
    requires n <= |deeds|
  {
    if n == 0 then None else
    match deeds[n - 1]
    case Execution(reply) => Some(reply)
    case Verification(_, _) => LastReply(deeds, n - 1)
  }

  /** What the fields tell about a history: an action is attempted exactly when an eligible one
      was executed at all, and applied exactly when the mode was live and the last execution
      was accepted; verifying it, however it turns out, changes neither. */
  lemma {:induction false} AppliedExactly(policy: Policy, actionType: string, deeds: seq<Deed>, n: nat)
    requires n <= |deeds|
    ensures var a := After(policy, Proposed(actionType), deeds, n);
      && a.actionType == actionType
      && (a.attempted <==> IsEligible(policy, actionType) && LastReply(deeds, n).Some?)
      && (a.applied <==> actionType in policy.allowlist && policy.mode == Live && LastReply(deeds, n) == Some(Accepted))
  {
    if n > 0 {
      AppliedExactly(policy, actionType, deeds, n - 1);
    }
  }

  /** A regression one way is an improvement the other way, and an unchanged server is neither. */
  lemma RegressionReversed(before: Snapshot, after: Snapshot)
    ensures Judge(before, after) == Regressed ==> Judge(after, before) == Improved
    ensures Judge(before, before) == Unchanged
  {
  }

  // ---- Scrapes that failed ----

  /** No verification of the history got through: every scrape failed with `message`. */
  predicate AllScrapesFail(deeds: seq<Deed>, message: string) {
    forall i | 0 <= i < |deeds| && deeds[i].Verification? :: deeds[i].scrape == ScrapeError(message)
  }

  lemma {:induction false} FailuresAreNotJudged(policy: Policy, actionType: string, deeds: seq<Deed>, message: string, n: nat)
    requires n <= |deeds| && message != "" && AllScrapesFail(deeds, message)
    ensures After(policy, Proposed(actionType), deeds, n).verdict in {Unverified, VerificationError}
  {
    if n > 0 {
      FailuresAreNotJudged(policy, actionType, deeds, message, n - 1);
    }
  }

  /** A history of failed scrapes never ends in a judgement if and only if the failures have a
      text: without one a throttled server that had any running request looks improved. */
  lemma FailuresAreNotJudgedExactly(policy: Policy, message: string)
    ensures (forall deeds: seq<Deed> | AllScrapesFail(deeds, message) ::
               After(policy, Proposed(THROTTLE), deeds, |deeds|).verdict in {Unverified, VerificationError})
       <==> message != ""
  {
    if message != "" {
      forall deeds: seq<Deed> | AllScrapesFail(deeds, message)
        ensures After(policy, Proposed(THROTTLE), deeds, |deeds|).verdict in {Unverified, VerificationError}
      {
        FailuresAreNotJudged(policy, THROTTLE, deeds, message, |deeds|);
      }
    } else {
      var deeds := [Verification(ScrapeError(""), Some(BLANK.(requestsRunning := 1)))];
      assert AllScrapesFail(deeds, message);
      assert After(policy, Proposed(THROTTLE), deeds, 0) == Proposed(THROTTLE);
      assert After(policy, Proposed(THROTTLE), deeds, 1).verdict == Improved;
    }
  }

  // ---- The fields, case by case ----

  /** What an execution leaves behind: nothing unless the action is allowlisted and the mode is
      on; a dry run that never applies; and otherwise what the endpoint answered. */
  lemma ExecutionMeaning(policy: Policy, a: ActionView, reply: Reply)
    ensures Proposed(a.actionType) == ActionView(a.actionType, true, false, false, "", false, Unverified)
    ensures var b := Executed(policy, a, reply);
      && (a.actionType !in policy.allowlist || policy.mode == Off ==> b == a && !Raises(policy, a.actionType, reply))
      && (a.actionType in policy.allowlist && policy.mode == DryRun ==>
            b == a.(advisoryOnly := false, attempted := true, applied := false, executionError := "dry_run")
            && !Raises(policy, a.actionType, reply))
      && (a.actionType in policy.allowlist && policy.mode == Live ==>
            match reply {
              case Accepted =>
                b == a.(advisoryOnly := false, attempted := true, applied := true, executionError := "")
                && !Raises(policy, a.actionType, reply)
              case Rejected(reason) =>
                b == a.(advisoryOnly := false, attempted := true, applied := false, executionError := reason)
                && !Raises(policy, a.actionType, reply)
              case Failed(message) =>
                b == a.(advisoryOnly := false, attempted := true, applied := false, executionError := message)
                && !Raises(policy, a.actionType, reply)
              case NotAnObject =>
                b == a.(advisoryOnly := false, attempted := true, applied := false) && Raises(policy, a.actionType, reply)
            })
  {
  }

  /** What a verification concludes from readings that got through: a throttled server is better
      off with clearly less of its cache used or fewer requests running, worse off otherwise with
      clearly more of its cache used, and of other actions nothing is concluded. */
  lemma VerdictMeaning(a: ActionView, scrape: Scrape, before: Snapshot)
    requires scrape.Scraped?
    ensures var b, now := Verified(a, scrape, Some(before)), scrape.snapshot;
      var better := now.kvCacheUsage + 0.05 < before.kvCacheUsage || now.requestsRunning < before.requestsRunning;
      var fuller := now.kvCacheUsage > before.kvCacheUsage + 0.05;
      && b == a.(verified := true, verdict := b.verdict)
      && (b.verdict == Improved <==> a.actionType == "throttle_concurrency" && better)
      && (b.verdict == Regressed <==> a.actionType == "throttle_concurrency" && !better && fuller)
      && b.verdict in {Improved, Regressed, Unchanged}
      && Verified(a, scrape, None).verdict == Unchanged
  {
    assert |THROTTLE| == 20;
  }

  lemma ErrorVerdict(a: ActionView, message: string, before: Option<Snapshot>)
    ensures Verified(a, ScrapeError(message), before).verdict == VerificationError <==> message != ""
    ensures message != "" ==> Verified(a, ScrapeError(message), before) == a.(verified := true, verdict := VerificationError)
  {
  }
}
