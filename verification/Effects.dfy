/** What each operation promises to do to a run: when it may happen, which fields it changes to what,
    and that it changes nothing else. The transitions are shown to do exactly this. */
module Effects {
  import opened Types
  import opened Policy
  import opened Evaluation
  import opened Transitions

  // Times and budgets.

  /** The time `wait` after `now`, or the largest time if that is further away. */
  predicate Falls(at: nat, now: nat, wait: nat) {
    if now + wait > U64_MAX then at == U64_MAX else at == now + wait
  }

  /** A lease lasts as long as asked for, at least one millisecond. */
  predicate LastsUntil(at: nat, now: nat, leaseMs: nat) {
    if leaseMs == 0 then Falls(at, now, 1) else Falls(at, now, leaseMs)
  }

  /** After so many attempts the budget of the step leaves another; there is always a first one. */
  predicate BudgetLeft(s: StepSpec, attempts: nat) {
    attempts == 0 || attempts < s.policy.retry.maxAttempts
  }

  // Frames.

  /** No record but the named one is new or different. */
  ghost predicate OnlyRecord(a: RunRecord, b: RunRecord, id: StepId) {
    && b.steps.Keys == a.steps.Keys + {id}
    && (forall other :: other in a.steps && other != id ==> b.steps[other] == a.steps[other])
  }

  predicate SameLog(a: RunRecord, b: RunRecord) {
    b.events == a.events && b.eventLog == a.eventLog
  }

  /** One event was appended to both lists. */
  predicate OneMore(a: RunRecord, b: RunRecord, sequence: nat, e: Event) {
    b.events == a.events + [e] && b.eventLog == a.eventLog + [Envelope(sequence, e)]
  }

  predicate SameRequest(a: RunRecord, b: RunRecord) {
    && b.runId == a.runId && b.workflow == a.workflow && b.manifest == a.manifest && b.input == a.input
    && b.idempotencyKey == a.idempotencyKey
  }

  predicate SameVerdict(a: RunRecord, b: RunRecord) {
    b.status == a.status && b.metrics == a.metrics && b.gateDecisions == a.gateDecisions
  }

  /** The last attempt, if any, is closed; nothing else in the history differs. */
  ghost predicate ClosedLast(a: seq<StepAttempt>, b: seq<StepAttempt>, now: nat, status: StepStatus,
                             error: Option<string>)
  {
    && |b| == |a|
    && (forall i :: 0 <= i < |a| - 1 ==> b[i] == a[i])
    && (a != [] ==>
          var x, y := a[|a| - 1], b[|b| - 1];
          && y.number == x.number && y.worker == x.worker && y.leaseToken == x.leaseToken
          && y.startedAt == x.startedAt
          && y.finishedAt == Some(now) && y.status == status && y.error == error)
  }

  // Creating.

  /** The manifest is for this workflow, files every task under its id and has every task and fallback. */
  predicate Backs(manifest: Manifest, workflow: Workflow) {
    && manifest.workflowId == workflow.id && manifest.workflowVersion == workflow.version
    && (forall t <- manifest.tasks :: manifest.tasks[t].id == t)
    && (forall s <- workflow.steps :: s.task in manifest.tasks)
    && (forall s <- workflow.steps :: s.policy.fallbackTask.Some? ==> s.policy.fallbackTask.value in manifest.tasks)
  }

  /** A run as requested, running, with nothing done and its start logged. */
  predicate Started(run: RunRecord, request: RunRequest, sequence: nat) {
    var e := RunStarted(request.runId, request.workflow.id);
    && run.runId == request.runId && run.workflow == request.workflow && run.manifest == request.manifest
    && run.input == request.input && run.idempotencyKey == request.idempotencyKey
    && run.status.RunRunning? && run.error.None? && run.revision == 1
    && run.steps == map[] && run.metrics == [] && run.gateDecisions == map[]
    && run.events == [e] && run.eventLog == [Envelope(sequence, e)]
  }

  lemma CreateStarts(request: RunRequest, sequence: nat)
    ensures Started(CreateAndLog(request, sequence), request, sequence)
    ensures ManifestCovers(request.workflow, request.manifest) <==> Backs(request.manifest, request.workflow)
  {
  }

  // Claiming.

  /** The task that is next for the step: the recorded one, at first its own. */
  predicate NextTask(run: RunRecord, s: StepSpec, t: TaskId) {
    t == if s.id in run.steps then run.steps[s.id].task else s.task
  }

  /** Never attempted, or without a lease, waiting or new, due by now, and with an attempt left; a
      fallback chosen when the budget was used up has exactly one. */
  predicate Free(run: RunRecord, s: StepSpec, now: nat) {
    s.id in run.steps ==>
      var r := run.steps[s.id];
      && r.lease == None && r.status in {Pending, Retrying}
      && (r.nextAttemptAt != None ==> r.nextAttemptAt.value <= now)
      && (BudgetLeft(s, r.attempts)
          || (r.fallbackUsed && r.status == Retrying && BudgetLeft(s, r.attempts - 1)))
  }

  /** The worker could take the step now. */
  predicate Ready(run: RunRecord, worker: WorkerProfile, s: StepSpec, now: nat) {
    && (forall d <- s.dependsOn :: d in run.steps && run.steps[d].status == Succeeded)
    && Free(run, s, now)
    && (exists t <- run.manifest.tasks :: NextTask(run, s, t) && Able(worker, s, run.manifest.tasks[t]))
  }

  /** The first such step in workflow order. */
  predicate FirstReady(run: RunRecord, worker: WorkerProfile, now: nat, i: nat) {
    var steps := run.workflow.steps;
    && i < |steps| && Ready(run, worker, steps[i], now)
    && forall j :: 0 <= j < i ==> !Ready(run, worker, steps[j], now)
  }

  predicate NoneReady(run: RunRecord, worker: WorkerProfile, now: nat) {
    forall s <- run.workflow.steps :: !Ready(run, worker, s, now)
  }

  lemma ClaimableIffReady(run: RunRecord, worker: WorkerProfile, s: StepSpec, now: nat)
    ensures Claimable(run, worker, s, now) <==> Ready(run, worker, s, now)
  {
    var task := CurrentTask(Find(run.steps, s.id), s);
    assert NextTask(run, s, task);
    if task in run.manifest.tasks {
      AbleIff(worker, s, run.manifest.tasks[task]);
    }
    hide SupportsTask, Able;
    assert DependenciesDone(run.steps, s)
      <==> forall d <- s.dependsOn :: d in run.steps && run.steps[d].status == Succeeded;
    assert Available(Find(run.steps, s.id), s, now) <==> Free(run, s, now);
  }

  lemma {:induction false} FirstIsReady(run: RunRecord, worker: WorkerProfile, n: nat, now: nat) returns (i: nat)
    requires n <= |run.workflow.steps|
    ensures var next := FirstClaimable(run, worker, run.workflow.steps[n..], now);
            && (next.None? ==> forall j :: n <= j < |run.workflow.steps| ==>
                                 !Ready(run, worker, run.workflow.steps[j], now))
            && (next.Some? ==>
                  && n <= i < |run.workflow.steps| && next.value == run.workflow.steps[i]
                  && Ready(run, worker, next.value, now)
                  && forall j :: n <= j < i ==> !Ready(run, worker, run.workflow.steps[j], now))
    decreases |run.workflow.steps| - n
  {
    hide Claimable, Ready;
    var steps := run.workflow.steps;
    i := n;
    if n < |steps| {
      ClaimableIffReady(run, worker, steps[n], now);
      assert steps[n..][1..] == steps[n + 1..];
      if !Claimable(run, worker, steps[n], now) {
        i := FirstIsReady(run, worker, n + 1, now);
      }
    }
  }

  /** The step a claim is for: the first that is ready in workflow order, if any is. */
  lemma NextIsFirstReady(run: RunRecord, worker: WorkerProfile, now: nat) returns (i: nat)
    ensures var next := FirstClaimable(run, worker, run.workflow.steps, now);
            && (next.None? <==> NoneReady(run, worker, now))
            && (next.Some? ==> FirstReady(run, worker, now, i) && next.value == run.workflow.steps[i])
  {
    hide Ready, Claimable;
    assert run.workflow.steps[0..] == run.workflow.steps;
    i := FirstIsReady(run, worker, 0, now);
  }

  /** The input of a task: the run's input, and the output of every dependency that has one, under its
      id; nothing else. */
  ghost predicate CarriesInput(input: Value, runInput: Value, deps: seq<StepId>, records: map<StepId, StepRecord>) {
    && input.Object? && input.fields.Keys == {"run_input", "dependencies"}
    && input.fields["run_input"] == runInput
    && input.fields["dependencies"].Object?
    && var outputs := input.fields["dependencies"].fields;
       && (forall d :: d in outputs <==> d in deps && d in records && records[d].output.Some?)
       && (forall d :: d in outputs ==> records[d].output == Some(outputs[d]))
  }

  lemma InputCarries(runInput: Value, deps: seq<StepId>, records: map<StepId, StepRecord>)
    ensures CarriesInput(BuildStepInput(runInput, DependencyOutputs(records, deps)), runInput, deps, records)
  {
  }

  /** The record of a step whose next attempt was leased. */
  ghost predicate LeasedRecord(a: RunRecord, r: StepRecord, s: StepSpec, worker: WorkerId, token: nat, leaseMs: nat,
                               now: nat, clearBackoff: bool)
  {
    var known := s.id in a.steps;
    var before := if known then a.steps[s.id].history else [];
    && NextTask(a, s, r.task) && r.status == Running
    && r.attempts == 1 + (if known then a.steps[s.id].attempts else 0)
    && r.lease.Some? && r.lease.value.worker == worker && r.lease.value.token == token
    && LastsUntil(r.lease.value.expiresAt, now, leaseMs)
    && r.history == before + [StepAttempt(r.attempts, worker, token, now, None, Running, None)]
    && (if known then
          var q := a.steps[s.id];
          && r.id == q.id && r.output == q.output && r.error == q.error && r.fallbackUsed == q.fallbackUsed
          && r.artifacts == q.artifacts
        else r.id == s.id && r.output.None? && r.error.None? && !r.fallbackUsed && r.artifacts == [])
    && r.nextAttemptAt == if known && !clearBackoff then a.steps[s.id].nextAttemptAt else None
  }

  /** The claim names the leased attempt and carries its task and input. */
  ghost predicate ClaimFor(a: RunRecord, r: StepRecord, s: StepSpec, claim: StepClaim) {
    && claim.runId == a.runId && claim.workflowId == a.workflow.id && claim.step == s
    && r.task in a.manifest.tasks && claim.task == a.manifest.tasks[r.task]
    && CarriesInput(claim.input, a.input, s.dependsOn, a.steps)
    && r.lease.Some? && claim.worker == r.lease.value.worker && claim.leaseToken == r.lease.value.token
    && claim.attempt == r.attempts && claim.fallbackUsed == r.fallbackUsed
  }

  ghost predicate Leased(a: RunRecord, b: RunRecord, s: StepSpec, worker: WorkerId, token: nat, leaseMs: nat, now: nat,
                         clearBackoff: bool, claim: StepClaim)
  {
    && SameRequest(a, b) && SameVerdict(a, b) && SameLog(a, b) && b.error == a.error && b.revision == a.revision + 1
    && OnlyRecord(a, b, s.id)
    && LeasedRecord(a, b.steps[s.id], s, worker, token, leaseMs, now, clearBackoff)
    && ClaimFor(a, b.steps[s.id], s, claim)
  }

  lemma ClaimLeases(run: RunRecord, worker: WorkerProfile, s: StepSpec, token: nat, leaseMs: nat, now: nat, clear: bool)
    requires Claimable(run, worker, s, now)
    ensures var (b, claim) := ClaimRun(run, s, worker.id, token, leaseMs, now, clear);
            Leased(run, b, s, worker.id, token, leaseMs, now, clear, claim)
  {
    hide SupportsTask, DependenciesDone, Available, CarriesInput;
    InputCarries(run.input, s.dependsOn, run.steps);
  }

  // Renewing.

  /** The claim's worker holds the step under the claim's token, and the lease has not expired. */
  predicate Owns(run: RunRecord, claim: StepClaim, now: nat) {
    && claim.step.id in run.steps
    && match run.steps[claim.step.id].lease
       case None => false
       case Some(lease) => lease.worker == claim.worker && lease.token == claim.leaseToken && now < lease.expiresAt
  }

  lemma HoldsIffOwns(run: RunRecord, claim: StepClaim, now: nat)
    ensures HoldsLease(run, claim, now) <==> Owns(run, claim, now)
  {
  }

  /** The lease lasts longer; nothing else differs. */
  ghost predicate Extended(a: RunRecord, b: RunRecord, id: StepId, leaseMs: nat, now: nat) {
    && SameRequest(a, b) && SameVerdict(a, b) && SameLog(a, b) && b.error == a.error && b.revision == a.revision + 1
    && id in a.steps && OnlyRecord(a, b, id)
    && a.steps[id].lease.Some? && b.steps[id].lease.Some?
    && b.steps[id] == a.steps[id].(lease := b.steps[id].lease)
    && b.steps[id].lease.value.worker == a.steps[id].lease.value.worker
    && b.steps[id].lease.value.token == a.steps[id].lease.value.token
    && LastsUntil(b.steps[id].lease.value.expiresAt, now, leaseMs)
  }

  lemma RenewExtends(run: RunRecord, claim: StepClaim, leaseMs: nat, now: nat)
    requires HoldsLease(run, claim, now)
    ensures Extended(run, RenewRun(run, claim, leaseMs, now), claim.step.id, leaseMs, now)
  {
  }

  // Completing.

  /** The four completions a worker may present for its claim: a success with an output, a retry while
      the budget lasts, the configured fallback instead of the primary task, and a failure if there is
      no fallback left. */
  predicate Presentable(c: StepCompletion, claim: StepClaim, manifest: Manifest) {
    var run, step, n, fallback := claim.runId, claim.step.id, claim.attempt, claim.step.policy.fallbackTask;
    || (&& c.output.Some?
        && c == StepCompletion(Succeeded, c.output, None, None, false, c.artifacts, StepSucceeded(run, step, n), None))
    || (&& c.error.Some? && BudgetLeft(claim.step, n)
        && c == StepCompletion(Retrying, None, c.error, None, false, c.artifacts,
                               StepRetrying(run, step, n, c.error.value), c.retryAfterMs))
    || (&& c.error.Some? && !claim.fallbackUsed && fallback.Some? && fallback.value in manifest.tasks
        && c == StepCompletion(Retrying, None, c.error, fallback, true, c.artifacts,
                               StepFallbackSelected(run, step, fallback.value), None))
    || (&& c.error.Some? && (claim.fallbackUsed || fallback.None?)
        && c == StepCompletion(Failed, None, c.error, None, false, c.artifacts,
                               StepFailed(run, step, n, c.error.value), None))
  }

  lemma MatchesIffPresentable(c: StepCompletion, claim: StepClaim, manifest: Manifest)
    ensures CompletionMatches(c, claim, manifest) <==> Presentable(c, claim, manifest)
  {
  }

  /** The record takes over what the completion says, its lease ends and its attempt is closed; it waits
      exactly if the completion asks for it. */
  ghost predicate TakesOver(r: StepRecord, q: StepRecord, c: StepCompletion, now: nat) {
    && q.id == r.id && q.attempts == r.attempts
    && q.status == c.status && q.output == c.output && q.error == c.error && q.artifacts == c.artifacts
    && (q.fallbackUsed <==> r.fallbackUsed || c.fallbackUsed)
    && (c.nextTask.Some? ==> q.task == c.nextTask.value) && (c.nextTask.None? ==> q.task == r.task)
    && q.lease.None?
    && (c.retryAfterMs.None? ==> q.nextAttemptAt.None?)
    && (c.retryAfterMs.Some? ==> q.nextAttemptAt.Some? && Falls(q.nextAttemptAt.value, now, c.retryAfterMs.value))
    && ClosedLast(r.history, q.history, now, c.status, c.error)
  }

  /** The completion is in the record and its event in the log; a failure is also the run's error. */
  ghost predicate Committed(a: RunRecord, b: RunRecord, id: StepId, c: StepCompletion, sequence: nat, now: nat) {
    && SameRequest(a, b) && SameVerdict(a, b) && OneMore(a, b, sequence, c.event) && b.revision == a.revision + 2
    && id in a.steps && OnlyRecord(a, b, id)
    && TakesOver(a.steps[id], b.steps[id], c, now)
    && b.error == if c.status == Failed then c.error else a.error
  }

  lemma CompleteCommits(run: RunRecord, claim: StepClaim, c: StepCompletion, sequence: nat, now: nat)
    requires claim.step.id in run.steps
    ensures Committed(run, CompleteAndLog(run, claim, c, sequence, now), claim.step.id, c, sequence, now)
  {
  }

  // Reporting.

  /** What the event says is how things are. */
  predicate Accurate(run: RunRecord, e: Event) {
    match e
    case RunStarted(id, workflow) => run.status == RunRunning && workflow == run.workflow.id
    case RunFinished(id, status) => run.status == status && status != RunRunning
    case _ =>
      && run.status == RunRunning && e.step in run.steps
      && var r := run.steps[e.step];
         match e
         case StepStarted(_, _, task, n) => r.status == Running && r.task == task && r.attempts == n
         case StepRetrying(_, _, n, error) => r.status == Retrying && r.attempts == n && r.error == Some(error)
         case StepFallbackSelected(_, _, task) => r.status == Retrying && r.fallbackUsed && r.task == task
         case StepSucceeded(_, _, n) => r.status == Succeeded && r.attempts == n
         case StepFailed(_, _, n, error) => r.status == Failed && r.attempts == n && r.error == Some(error)
         case _ => false
  }

  /** Both events report the same: the start or the end of the run, or the same of one attempt. */
  predicate SameReport(e: Event, f: Event) {
    match e
    case RunStarted(_, _) => f.RunStarted?
    case RunFinished(_, _) => f.RunFinished?
    case StepStarted(_, step, _, n) => f.StepStarted? && f.step == step && f.attempt == n
    case StepRetrying(_, step, n, _) => f.StepRetrying? && f.step == step && f.attempt == n
    case StepFallbackSelected(_, step, task) => f.StepFallbackSelected? && f.step == step && f.task == task
    case StepSucceeded(_, step, n) => f.StepSucceeded? && f.step == step && f.attempt == n
    case StepFailed(_, step, n, _) => f.StepFailed? && f.step == step && f.attempt == n
  }

  /** A report is true and new. */
  predicate Reportable(run: RunRecord, e: Event) {
    e.run == run.runId && Accurate(run, e) && forall v <- run.eventLog :: !SameReport(e, v.event)
  }

  lemma ValidIffReportable(run: RunRecord, e: Event)
    ensures EventValid(run, e) <==> Reportable(run, e)
  {
  }

  /** Only the log has grown. */
  predicate Reported(a: RunRecord, b: RunRecord, sequence: nat, e: Event) {
    && SameRequest(a, b) && SameVerdict(a, b) && OneMore(a, b, sequence, e) && b.revision == a.revision + 1
    && b.steps == a.steps && b.error == a.error
  }

  lemma AppendReports(run: RunRecord, sequence: nat, e: Event)
    ensures Reported(run, AppendEvent(run, sequence, e), sequence, e)
  {
  }

  // Finishing.

  /** The verdict, from the records, the gates and the reported values alone. */
  ghost predicate Verdict(run: RunRecord, metrics: seq<Metric>, status: RunStatus, error: Option<string>) {
    var someFailed := exists id :: id in run.steps && run.steps[id].status == Failed;
    var allDone := |run.steps| == |run.workflow.steps|
                   && forall id :: id in run.steps ==> run.steps[id].status == Succeeded;
    if someFailed then status == RunFailed && error == run.error
    else if !allDone then status == run.status && error == run.error
    else if GatesMet(run.manifest.gates, metrics) then status == RunSucceeded && error == run.error
    else status == RunFailed && error == Some("one or more evaluation gates failed")
  }

  /** The run has its verdict, the given metrics and the decisions on them; a new status is logged. */
  ghost predicate Judged(a: RunRecord, b: RunRecord, metrics: seq<Metric>, sequence: nat) {
    && SameRequest(a, b) && b.steps == a.steps
    && b.metrics == metrics && Decided(a.manifest.gates, metrics, b.gateDecisions)
    && Verdict(a, metrics, b.status, b.error)
    && (if b.status == a.status then SameLog(a, b) && b.revision == a.revision
        else OneMore(a, b, sequence, RunFinished(a.runId, b.status)) && b.revision == a.revision + 1)
  }

  lemma FinishJudges(run: RunRecord, metrics: seq<Metric>, sequence: nat)
    ensures Judged(run, FinishAndLog(run, metrics, sequence), metrics, sequence)
  {
    hide EvaluateGates, AllPassed, GatesMet, Decided;
    GatesDecide(run.manifest.gates, metrics);
  }

  // Cancelling.

  /** A finished record stays; any other is cancelled, its lease ends and its open attempt is closed. */
  ghost predicate CalledOff(r: StepRecord, q: StepRecord, now: nat) {
    if r.status in {Succeeded, Failed} then q == r
    else
      && q.status == Cancelled && q.lease == None
      && q == r.(status := q.status, lease := q.lease, history := q.history)
      && if r.history != [] && r.history[|r.history| - 1].status == Running
         then ClosedLast(r.history, q.history, now, Cancelled, r.history[|r.history| - 1].error)
         else q.history == r.history
  }

  ghost predicate Stopped(a: RunRecord, b: RunRecord, sequence: nat, now: nat) {
    && SameRequest(a, b) && b.metrics == a.metrics && b.gateDecisions == a.gateDecisions && b.error == a.error
    && b.status == RunCancelled && OneMore(a, b, sequence, RunFinished(a.runId, RunCancelled))
    && b.revision == a.revision + 1
    && b.steps.Keys == a.steps.Keys
    && forall id :: id in a.steps ==> CalledOff(a.steps[id], b.steps[id], now)
  }

  lemma CancelStops(run: RunRecord, sequence: nat, now: nat)
    ensures Stopped(run, CancelAndLog(run, sequence, now), sequence, now)
  {
    hide CancelRecord, CalledOff;
    forall r: StepRecord ensures CalledOff(r, CancelRecord(r, now), now) {
      CancelCallsOff(r, now);
    }
  }

  lemma CancelCallsOff(r: StepRecord, now: nat)
    ensures CalledOff(r, CancelRecord(r, now), now)
  {
  }

  // Recovering.

  /** An expired attempt counts. While the budget lasts the same task is tried again; then the fallback,
      if there is one that was not chosen yet; otherwise the step fails. It may go on at once. */
  ghost predicate MovedOn(s: StepSpec, r: StepRecord, q: StepRecord, now: nat) {
    && q.id == r.id && q.attempts == r.attempts && q.output == r.output && q.artifacts == r.artifacts
    && q.lease.None? && q.nextAttemptAt.None? && q.error == Some("worker lease expired")
    && ClosedLast(r.history, q.history, now, q.status, q.error)
    && (if BudgetLeft(s, r.attempts) then
          q.status == Retrying && q.task == r.task && q.fallbackUsed == r.fallbackUsed
        else if !r.fallbackUsed && s.policy.fallbackTask.Some? then
          q.status == Retrying && q.task == s.policy.fallbackTask.value && q.fallbackUsed
        else q.status == Failed && q.task == r.task && q.fallbackUsed == r.fallbackUsed)
  }

  /** The event that tells which way the step went. */
  predicate Tells(e: Event, run: RunId, r: StepRecord, q: StepRecord) {
    if q.status == Failed then e == StepFailed(run, r.id, r.attempts, "worker lease expired")
    else if q.fallbackUsed == r.fallbackUsed then e == StepRetrying(run, r.id, r.attempts, "worker lease expired")
    else e == StepFallbackSelected(run, r.id, q.task)
  }

  lemma RecoverMovesOn(run: RunId, s: StepSpec, r: StepRecord, now: nat)
    ensures var (q, e) := RecoverRecord(run, s, r, now);
            MovedOn(s, r, q, now) && Tells(e, run, r, q)
  {
  }

  /** One step of a run was recovered. */
  ghost predicate OneRecovered(a: RunRecord, b: RunRecord, s: StepSpec, sequence: nat, now: nat) {
    && SameRequest(a, b) && SameVerdict(a, b) && b.revision == a.revision + 1
    && s.id in a.steps && OnlyRecord(a, b, s.id)
    && MovedOn(s, a.steps[s.id], b.steps[s.id], now)
    && b.error == (if b.steps[s.id].status == Failed then b.steps[s.id].error else a.error)
    && exists e :: Tells(e, a.runId, a.steps[s.id], b.steps[s.id]) && OneMore(a, b, sequence, e)
  }

  lemma RecoverRecovers(run: RunRecord, s: StepSpec, sequence: nat, now: nat)
    requires s.id in run.steps
    ensures OneRecovered(run, RecoverStep(run, s, sequence, now), s, sequence, now)
  {
    hide MovedOn, Tells, RecoverRecord;
    RecoverMovesOn(run.runId, s, run.steps[s.id], now);
  }
}
