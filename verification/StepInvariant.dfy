/** What every transition keeps about one step record, the claims ever issued for it and its
    part of the event log. Lease tokens are arbitrary as long as each new one is larger. */
module StepInvariant {
  import opened Types
  import opened Transitions
  import opened Effects
  import opened StepLog

  /** The constants of a step: its run, workflow and tasks, its specification and its input. */
  datatype Context = Context(
    run: RunId,
    workflow: WorkflowId,
    tasks: map<TaskId, TaskSpec>,
    step: StepSpec,
    input: Value)

  function Last<T>(xs: seq<T>): T
    requires xs != []
  {
    xs[|xs| - 1]
  }

  /** One entry per attempt, tokens strictly increasing, only the last one possibly live. */
  ghost predicate HistoryOk(r: StepRecord) {
    && |r.history| == r.attempts >= 1
    && (forall i :: 0 <= i < |r.history| ==> r.history[i].number == i + 1)
    && (forall i, j :: 0 <= i < j < |r.history| ==> r.history[i].leaseToken < r.history[j].leaseToken)
    && (forall i :: 0 <= i < |r.history| ==>
          (r.history[i].status.Running? <==> (i == |r.history| - 1 && r.status.Running?)))
    && (forall i :: 0 <= i < |r.history| ==> (r.history[i].finishedAt.None? <==> r.history[i].status.Running?))
  }

  /** A lease exists exactly while the step runs, and it is the lease of the last attempt. */
  ghost predicate LeaseOk(r: StepRecord)
    requires r.history != []
  {
    && (r.lease.Some? <==> r.status.Running?)
    && (r.lease.Some? ==>
          r.lease.value.token == Last(r.history).leaseToken && r.lease.value.worker == Last(r.history).worker)
  }

  function TaskChoice(step: StepSpec, fallback: bool): TaskId
    requires fallback ==> step.policy.fallbackTask.Some?
  {
    if fallback then step.policy.fallbackTask.value else step.task
  }

  ghost predicate ClaimOk(c: Context, claim: StepClaim, a: StepAttempt) {
    && claim.runId == c.run && claim.workflowId == c.workflow && claim.step == c.step && claim.input == c.input
    && claim.worker == a.worker && claim.leaseToken == a.leaseToken && claim.attempt == a.number
    && (claim.fallbackUsed ==> c.step.policy.fallbackTask.Some?)
    && TaskChoice(c.step, claim.fallbackUsed) in c.tasks
    && claim.task == c.tasks[TaskChoice(c.step, claim.fallbackUsed)]
  }

  ghost predicate ClaimsOk(c: Context, r: StepRecord, claims: seq<StepClaim>) {
    |claims| == |r.history| && forall i :: 0 <= i < |claims| ==> ClaimOk(c, claims[i], r.history[i])
  }

  ghost predicate OnlyPrimary(claims: seq<StepClaim>, n: nat)
    requires n <= |claims|
  {
    forall i :: 0 <= i < n ==> !claims[i].fallbackUsed
  }

  /** Attempt budget and fallback discipline. */
  ghost predicate BudgetOk(step: StepSpec, r: StepRecord, claims: seq<StepClaim>)
    requires |claims| == r.attempts >= 1
  {
    var budget := Budget(step);
    && r.attempts <= budget + (if r.fallbackUsed then 1 else 0)
    && (r.attempts == budget + 1 ==> OnlyPrimary(claims, budget) && Last(claims).fallbackUsed)
    && (!r.fallbackUsed ==> OnlyPrimary(claims, |claims|))
    && (forall i, j :: 0 <= i < j < |claims| && claims[i].fallbackUsed ==> claims[j].fallbackUsed)
    && (r.status.Retrying? && r.attempts >= budget ==>
          r.fallbackUsed && r.attempts == budget && OnlyPrimary(claims, |claims|))
    && (r.status.Running? ==> Last(claims).fallbackUsed == r.fallbackUsed)
    && (r.status.Failed? ==> step.policy.fallbackTask.None? || (r.fallbackUsed && Last(claims).fallbackUsed))
  }

  ghost predicate TaskOk(c: Context, r: StepRecord) {
    && r.id == c.step.id
    && (r.fallbackUsed ==> c.step.policy.fallbackTask.Some?)
    && r.task == TaskChoice(c.step, r.fallbackUsed)
    && r.task in c.tasks
    && !r.status.Pending?
    && (r.status.Succeeded? <==> r.output.Some?)
  }

  /** The log, read back, agrees with the record. */
  ghost predicate ViewOk(r: StepRecord, v: View) {
    && v.View?
    && Bounded(v)
    && v.started <= r.attempts
    && v.fallback == (if r.fallbackUsed then Some(r.task) else None)
    && (v.outcome.Done? <==> r.status.Succeeded?)
    && (v.outcome.Broken? <==> r.status.Failed?)
    && r.attempts - 1 <= v.ended <= r.attempts
    && (r.status.Running? ==> v.ended == r.attempts - 1)
    && (r.status.Retrying? || r.status.Succeeded? || r.status.Failed? ==> v.ended == r.attempts)
    && (r.status.Retrying? ==> v.retried == v.ended || v.fallback.Some?)
  }

  ghost predicate StepInv(c: Context, r: StepRecord, claims: seq<StepClaim>, v: View) {
    && HistoryOk(r)
    && LeaseOk(r)
    && ClaimsOk(c, r, claims)
    && BudgetOk(c.step, r, claims)
    && TaskOk(c, r)
    && ViewOk(r, v)
  }

  ghost predicate TokensBelow(r: StepRecord, bound: nat) {
    forall i :: 0 <= i < |r.history| ==> r.history[i].leaseToken <= bound
  }

  /** The state before a claim: no record and nothing issued, or a record in order. */
  ghost predicate PriorInv(c: Context, prior: Option<StepRecord>, claims: seq<StepClaim>, v: View) {
    match prior
    case None => claims == [] && v == FRESH
    case Some(r) => StepInv(c, r, claims, v)
  }

  lemma ClaimKeeps(c: Context, prior: Option<StepRecord>, claims: seq<StepClaim>, v: View,
                   worker: WorkerId, token: nat, leaseMs: nat, now: nat, clear: bool, claim: StepClaim)
    requires PriorInv(c, prior, claims, v) && Available(prior, c.step, now)
    requires CurrentTask(prior, c.step) in c.tasks
    requires prior.Some? ==> forall i :: 0 <= i < |prior.value.history| ==> prior.value.history[i].leaseToken < token
    requires var r := ClaimRecord(prior, c.step, worker, token, leaseMs, now, clear);
             claim == StepClaim(c.run, c.workflow, c.step, c.tasks[r.task], c.input,
                                worker, token, r.attempts, r.fallbackUsed)
    ensures StepInv(c, ClaimRecord(prior, c.step, worker, token, leaseMs, now, clear), claims + [claim], v)
  {
    var r := ClaimRecord(prior, c.step, worker, token, leaseMs, now, clear);
    assert HistoryOk(r) && LeaseOk(r) && TaskOk(c, r) && ViewOk(r, v);
    assert ClaimsOk(c, r, claims + [claim]);
    assert BudgetOk(c.step, r, claims + [claim]);
  }

  lemma RenewKeeps(c: Context, r: StepRecord, claims: seq<StepClaim>, v: View, leaseMs: nat, now: nat)
    requires StepInv(c, r, claims, v) && r.lease.Some?
    ensures StepInv(c, RenewRecord(r, leaseMs, now), claims, v)
  {
  }

  /** An issued claim whose token matches the lease is the last one issued. */
  lemma LeaseNamesLastClaim(c: Context, r: StepRecord, claims: seq<StepClaim>, v: View, k: nat)
    requires StepInv(c, r, claims, v) && k < |claims|
    ensures r.lease.Some? && r.lease.value.token == claims[k].leaseToken <==> r.status.Running? && k == |claims| - 1
    ensures r.status.Running? && k == |claims| - 1 ==>
              r.lease.value.worker == claims[k].worker && claims[k].attempt == r.attempts
              && claims[k].fallbackUsed == r.fallbackUsed
    ensures claims[k].runId == c.run && claims[k].step == c.step
  {
    assert ClaimOk(c, claims[k], r.history[k]);
  }

  lemma CloseKeepsHistory(r: StepRecord, now: nat, status: StepStatus, error: Option<string>)
    requires HistoryOk(r) && !status.Running?
    ensures HistoryOk(r.(status := status, history := CloseAttempt(r.history, now, status, error)))
  {
  }

  lemma CompleteKeeps(c: Context, r: StepRecord, claims: seq<StepClaim>, v: View,
                      completion: StepCompletion, manifest: Manifest, now: nat)
    requires StepInv(c, r, claims, v) && r.status.Running? && manifest.tasks == c.tasks
    requires CompletionMatches(completion, Last(claims), manifest)
    ensures StepInv(c, CompleteRecord(r, completion, now), claims, Advance(v, c.step.id, completion.event))
  {
    var next := CompleteRecord(r, completion, now);
    CloseKeepsHistory(r, now, completion.status, completion.error);
    assert ClaimOk(c, Last(claims), Last(r.history));
    assert HistoryOk(next) && LeaseOk(next);
    assert ClaimsOk(c, next, claims);
    assert BudgetOk(c.step, next, claims);
    assert TaskOk(c, next) && ViewOk(next, Advance(v, c.step.id, completion.event));
  }

  lemma RecoverKeeps(c: Context, r: StepRecord, claims: seq<StepClaim>, v: View, now: nat)
    requires StepInv(c, r, claims, v) && r.lease.Some?
    requires c.step.policy.fallbackTask.Some? ==> c.step.policy.fallbackTask.value in c.tasks
    ensures var (next, e) := RecoverRecord(c.run, c.step, r, now);
            && StepInv(c, next, claims, Advance(v, c.step.id, e))
            && MovedOn(c.step, r, next, now) && Tells(e, c.run, r, next)
  {
    var (next, e) := RecoverRecord(c.run, c.step, r, now);
    RecoverMovesOn(c.run, c.step, r, now);
    hide MovedOn, Tells;
    CloseKeepsHistory(r, now, next.status, next.error);
    assert HistoryOk(next) && LeaseOk(next);
    assert ClaimsOk(c, next, claims);
    assert BudgetOk(c.step, next, claims);
    assert TaskOk(c, next) && ViewOk(next, Advance(v, c.step.id, e));
  }

  lemma CancelKeepsHistory(r: StepRecord, now: nat)
    requires HistoryOk(r) && LeaseOk(r)
    ensures HistoryOk(CancelRecord(r, now)) && LeaseOk(CancelRecord(r, now))
  {
  }

  lemma CancelKeeps(c: Context, r: StepRecord, claims: seq<StepClaim>, v: View, now: nat)
    requires StepInv(c, r, claims, v)
    ensures StepInv(c, CancelRecord(r, now), claims, v)
  {
    var next := CancelRecord(r, now);
    CancelKeepsHistory(r, now);
    hide HistoryOk, LeaseOk;
    assert ClaimsOk(c, next, claims);
  }

  /** The two reports a worker may still add: the start of the live attempt, and a retry notice
      for an attempt that ended by selecting the fallback. */
  lemma StartKeeps(c: Context, r: StepRecord, claims: seq<StepClaim>, v: View, e: Event)
    requires StepInv(c, r, claims, v) && r.status.Running?
    requires e.StepStarted? && e.step == c.step.id && e.attempt == r.attempts && v.started < r.attempts
    ensures StepInv(c, r, claims, Advance(v, c.step.id, e))
  {
  }

  lemma RetryKeeps(c: Context, r: StepRecord, claims: seq<StepClaim>, v: View, e: Event)
    requires StepInv(c, r, claims, v) && r.status.Retrying?
    requires e.StepRetrying? && e.step == c.step.id && e.attempt == r.attempts && v.retried < r.attempts
    ensures StepInv(c, r, claims, Advance(v, c.step.id, e))
  {
  }
}
