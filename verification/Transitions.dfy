/** The transitions of one run, shared by both repositories (src/store.rs, src/postgres.rs).
    Lease tokens and event sequences are arguments: each repository draws them differently. */
module Transitions {
  import opened Types
  import opened Policy
  import opened Evaluation
  import opened Workflows

  function Find<K, V>(m: map<K, V>, k: K): Option<V> {
    if k in m then Some(m[k]) else None
  }

  // Requests and new runs.

  ghost predicate ManifestCovers(workflow: Workflow, manifest: Manifest) {
    && workflow.id == manifest.workflowId
    && workflow.version == manifest.workflowVersion
    && (forall t :: t in manifest.tasks ==> manifest.tasks[t].id == t)
    && (forall s :: s in workflow.steps ==>
          && s.task in manifest.tasks
          && (s.policy.fallbackTask.Some? ==> s.policy.fallbackTask.value in manifest.tasks))
  }

  ghost predicate ValidRequest(request: RunRequest) {
    ValidSteps(request.workflow.steps) && ManifestCovers(request.workflow, request.manifest)
  }

  function NewRun(request: RunRequest): RunRecord {
    RunRecord(request.runId, request.workflow, request.manifest, request.input, RunRunning,
              map[], [], [], [], map[], None, request.idempotencyKey, 0)
  }

  function AppendEvent(run: RunRecord, sequence: nat, e: Event): RunRecord {
    run.(events := run.events + [e],
         eventLog := run.eventLog + [Envelope(sequence, e)],
         revision := run.revision + 1)
  }

  // Claims.

  predicate DependenciesDone(records: map<StepId, StepRecord>, step: StepSpec) {
    forall d <- step.dependsOn :: d in records && records[d].status.Succeeded?
  }

  predicate Available(prior: Option<StepRecord>, step: StepSpec, now: nat) {
    prior.None? ||
    var r := prior.value;
    && r.lease.None?
    && (r.status.Pending? || r.status.Retrying?)
    && (r.nextAttemptAt.None? || r.nextAttemptAt.value <= now)
    && (|| r.attempts < Budget(step)
        || (r.fallbackUsed && r.status.Retrying? && r.attempts == Budget(step)))
  }

  function CurrentTask(prior: Option<StepRecord>, step: StepSpec): TaskId {
    if prior.Some? then prior.value.task else step.task
  }

  predicate Claimable(run: RunRecord, worker: WorkerProfile, step: StepSpec, now: nat) {
    var prior := Find(run.steps, step.id);
    var task := CurrentTask(prior, step);
    && task in run.manifest.tasks
    && SupportsTask(worker, run.manifest.tasks[task], step.policy)
    && DependenciesDone(run.steps, step)
    && Available(prior, step, now)
  }

  /** `find_map` over the steps in workflow order. */
  function FirstClaimable(run: RunRecord, worker: WorkerProfile, steps: seq<StepSpec>, now: nat)
    : (r: Option<StepSpec>)
    ensures r.Some? ==> r.value in steps && Claimable(run, worker, r.value, now)
    ensures r.None? ==> forall s :: s in steps ==> !Claimable(run, worker, s, now)
  {
    if steps == [] then None
    else if Claimable(run, worker, steps[0], now) then Some(steps[0])
    else FirstClaimable(run, worker, steps[1..], now)
  }

  function DependencyOutputs(records: map<StepId, StepRecord>, deps: seq<StepId>): map<string, Value> {
    map d | d in deps && d in records && records[d].output.Some? :: records[d].output.value
  }

  function BuildStepInput(runInput: Value, dependencies: map<string, Value>): Value {
    Object(map["run_input" := runInput, "dependencies" := Object(dependencies)])
  }

  function StepInput(run: RunRecord, step: StepSpec): Value {
    BuildStepInput(run.input, DependencyOutputs(run.steps, step.dependsOn))
  }

  function NewRecord(id: StepId, task: TaskId): StepRecord {
    StepRecord(id, task, Pending, 0, None, None, false, None, [], [], None)
  }

  function Deadline(now: nat, leaseMs: nat): nat {
    SatAdd(now, Max(leaseMs, 1))
  }

  function ClaimRecord(prior: Option<StepRecord>, step: StepSpec, worker: WorkerId, token: nat,
                       leaseMs: nat, now: nat, clearBackoff: bool): StepRecord
  {
    var task := CurrentTask(prior, step);
    var r := if prior.Some? then prior.value else NewRecord(step.id, task);
    r.(task := task,
       status := Running,
       attempts := r.attempts + 1,
       lease := Some(StepLease(worker, token, Deadline(now, leaseMs))),
       history := r.history + [StepAttempt(r.attempts + 1, worker, token, now, None, Running, None)],
       nextAttemptAt := if clearBackoff then None else r.nextAttemptAt)
  }

  /** The claim handed out for a record that was just leased. */
  function ClaimOf(run: RunRecord, step: StepSpec, r: StepRecord): StepClaim
    requires r.task in run.manifest.tasks && r.lease.Some?
  {
    StepClaim(run.runId, run.workflow.id, step, run.manifest.tasks[r.task], StepInput(run, step),
              r.lease.value.worker, r.lease.value.token, r.attempts, r.fallbackUsed)
  }

  function ClaimRun(run: RunRecord, step: StepSpec, worker: WorkerId, token: nat, leaseMs: nat, now: nat,
                    clearBackoff: bool): (RunRecord, StepClaim)
    requires CurrentTask(Find(run.steps, step.id), step) in run.manifest.tasks
  {
    var r := ClaimRecord(Find(run.steps, step.id), step, worker, token, leaseMs, now, clearBackoff);
    (run.(steps := run.steps[step.id := r], revision := run.revision + 1), ClaimOf(run, step, r))
  }

  // Leases and completions.

  predicate LeaseHeld(r: StepRecord, claim: StepClaim, now: nat) {
    && r.lease.Some?
    && r.lease.value.worker == claim.worker
    && r.lease.value.token == claim.leaseToken
    && r.lease.value.expiresAt > now
  }

  predicate HoldsLease(run: RunRecord, claim: StepClaim, now: nat) {
    claim.step.id in run.steps && LeaseHeld(run.steps[claim.step.id], claim, now)
  }

  function RenewRecord(r: StepRecord, leaseMs: nat, now: nat): StepRecord
    requires r.lease.Some?
  {
    r.(lease := Some(r.lease.value.(expiresAt := Deadline(now, leaseMs))))
  }

  function RenewRun(run: RunRecord, claim: StepClaim, leaseMs: nat, now: nat): RunRecord
    requires HoldsLease(run, claim, now)
  {
    run.(steps := run.steps[claim.step.id := RenewRecord(run.steps[claim.step.id], leaseMs, now)],
         revision := run.revision + 1)
  }

  predicate CompletionMatches(c: StepCompletion, claim: StepClaim, manifest: Manifest) {
    match c.event
    case StepRetrying(run, step, attempt, error) =>
      && run == claim.runId && step == claim.step.id && attempt == claim.attempt
      && c.status.Retrying?
      && attempt < Budget(claim.step)
      && c.output.None? && c.error == Some(error) && c.nextTask.None? && !c.fallbackUsed
    case StepFallbackSelected(run, step, task) =>
      && run == claim.runId && step == claim.step.id
      && c.status.Retrying?
      && c.output.None? && c.error.Some? && c.nextTask == Some(task) && c.fallbackUsed
      && !claim.fallbackUsed
      && claim.step.policy.fallbackTask == Some(task)
      && task in manifest.tasks
      && c.retryAfterMs.None?
    case StepSucceeded(run, step, attempt) =>
      && run == claim.runId && step == claim.step.id && attempt == claim.attempt
      && c.status.Succeeded?
      && c.output.Some? && c.error.None? && c.nextTask.None? && !c.fallbackUsed
      && c.retryAfterMs.None?
    case StepFailed(run, step, attempt, error) =>
      && run == claim.runId && step == claim.step.id && attempt == claim.attempt
      && c.status.Failed?
      && c.output.None? && c.error == Some(error) && c.nextTask.None? && !c.fallbackUsed
      && (claim.fallbackUsed || claim.step.policy.fallbackTask.None?)
      && c.retryAfterMs.None?
    case RunStarted(_, _) => false
    case StepStarted(_, _, _, _) => false
    case RunFinished(_, _) => false
  }

  function CloseAttempt(history: seq<StepAttempt>, now: nat, status: StepStatus, error: Option<string>)
    : seq<StepAttempt>
  {
    if history == [] then []
    else
      var n := |history| - 1;
      history[n := history[n].(finishedAt := Some(now), status := status, error := error)]
  }

  function CompleteRecord(r: StepRecord, c: StepCompletion, now: nat): StepRecord {
    r.(status := c.status,
       output := c.output,
       error := c.error,
       fallbackUsed := r.fallbackUsed || c.fallbackUsed,
       artifacts := c.artifacts,
       task := if c.nextTask.Some? then c.nextTask.value else r.task,
       lease := None,
       nextAttemptAt := if c.retryAfterMs.Some? then Some(SatAdd(now, c.retryAfterMs.value)) else None,
       history := CloseAttempt(r.history, now, c.status, c.error))
  }

  /** The committed step; the event is appended afterwards. */
  function CompleteRun(run: RunRecord, claim: StepClaim, c: StepCompletion, now: nat): RunRecord
    requires claim.step.id in run.steps
  {
    var r := CompleteRecord(run.steps[claim.step.id], c, now);
    run.(steps := run.steps[claim.step.id := r],
         error := if r.status.Failed? then r.error else run.error,
         revision := run.revision + 1)
  }

  // Expired leases.

  const LEASE_EXPIRED: string := "worker lease expired"

  predicate Expired(r: StepRecord, now: nat) {
    r.lease.Some? && r.lease.value.expiresAt <= now
  }

  function RecoverRecord(run: RunId, step: StepSpec, r: StepRecord, now: nat): (StepRecord, Event) {
    var q := r.(lease := None, error := Some(LEASE_EXPIRED), nextAttemptAt := None);
    var (next, e) :=
      if r.attempts < Budget(step) then
        (q.(status := Retrying), StepRetrying(run, r.id, r.attempts, LEASE_EXPIRED))
      else if !r.fallbackUsed && step.policy.fallbackTask.Some? then
        var task := step.policy.fallbackTask.value;
        (q.(task := task, fallbackUsed := true, status := Retrying), StepFallbackSelected(run, r.id, task))
      else
        (q.(status := Failed), StepFailed(run, r.id, r.attempts, LEASE_EXPIRED));
    (next.(history := CloseAttempt(r.history, now, next.status, next.error)), e)
  }

  predicate StepExpired(run: RunRecord, step: StepSpec, now: nat) {
    step.id in run.steps && Expired(run.steps[step.id], now)
  }

  function RecoverStep(run: RunRecord, step: StepSpec, sequence: nat, now: nat): RunRecord
    requires step.id in run.steps
  {
    var (r, e) := RecoverRecord(run.runId, step, run.steps[step.id], now);
    AppendEvent(run.(steps := run.steps[step.id := r],
                     error := if r.status.Failed? then r.error else run.error),
                sequence, e)
  }

  /** Visits the steps in order, numbering the events after `last`; the last step is visited last. */
  function RecoverSteps(run: RunRecord, steps: seq<StepSpec>, last: nat, now: nat)
    : (result: (RunRecord, nat, seq<StepId>))
    ensures result.0.runId == run.runId && result.0.workflow == run.workflow
            && result.0.idempotencyKey == run.idempotencyKey
    ensures result.1 == last + |result.2|
  {
    if steps == [] then (run, last, [])
    else
      var step := steps[|steps| - 1];
      var (r, n, expired) := RecoverSteps(run, steps[..|steps| - 1], last, now);
      if StepExpired(r, step, now) then (RecoverStep(r, step, n + 1, now), n + 1, expired + [step.id])
      else (r, n, expired)
  }

  // Cancellation and outcome.

  function CancelRecord(r: StepRecord, now: nat): StepRecord {
    if r.status.Succeeded? || r.status.Failed? then r
    else
      var history :=
        if r.history != [] && r.history[|r.history| - 1].status.Running? then
          var n := |r.history| - 1;
          r.history[n := r.history[n].(finishedAt := Some(now), status := Cancelled)]
        else r.history;
      r.(history := history, status := Cancelled, lease := None)
  }

  predicate Terminal(status: RunStatus) {
    !status.RunRunning?
  }

  function CancelRun(run: RunRecord, now: nat): RunRecord {
    run.(status := RunCancelled, steps := map id | id in run.steps :: CancelRecord(run.steps[id], now))
  }

  predicate HasFailed(run: RunRecord) {
    exists id <- run.steps :: run.steps[id].status.Failed?
  }

  predicate AllSucceeded(run: RunRecord) {
    |run.steps| == |run.workflow.steps| && forall id <- run.steps :: run.steps[id].status.Succeeded?
  }

  const GATES_FAILED: string := "one or more evaluation gates failed"

  /** Records the metrics and recomputes the outcome, whatever the current status is. */
  function FinishRun(run: RunRecord, metrics: seq<Metric>): RunRecord {
    var decisions := EvaluateGates(run.manifest.gates, metrics);
    var judged := run.(metrics := metrics, gateDecisions := decisions);
    if HasFailed(run) then judged.(status := RunFailed)
    else if AllSucceeded(run) then
      if AllPassed(decisions) then judged.(status := RunSucceeded)
      else judged.(status := RunFailed, error := Some(GATES_FAILED))
    else judged
  }

  /** The outcome change is logged as one more event. */
  function FinishAndLog(run: RunRecord, metrics: seq<Metric>, sequence: nat): RunRecord {
    var judged := FinishRun(run, metrics);
    if judged.status != run.status then AppendEvent(judged, sequence, RunFinished(run.runId, judged.status))
    else judged
  }

  function CancelAndLog(run: RunRecord, sequence: nat, now: nat): RunRecord {
    AppendEvent(CancelRun(run, now), sequence, RunFinished(run.runId, RunCancelled))
  }

  function CompleteAndLog(run: RunRecord, claim: StepClaim, c: StepCompletion, sequence: nat, now: nat): RunRecord
    requires claim.step.id in run.steps
  {
    AppendEvent(CompleteRun(run, claim, c, now), sequence, c.event)
  }

  function CreateAndLog(request: RunRequest, sequence: nat): RunRecord {
    AppendEvent(NewRun(request), sequence, RunStarted(request.runId, request.workflow.id))
  }

  // Worker-reported events.

  predicate EventBelongs(e: Event, run: RunId) {
    e.run == run
  }

  predicate EventValid(run: RunRecord, e: Event) {
    && e.run == run.runId
    && match e
       case RunStarted(_, workflow) =>
         && run.status.RunRunning? && run.workflow.id == workflow
         && !exists v <- run.eventLog :: v.event.RunStarted?
       case StepStarted(_, step, task, attempt) =>
         && step in run.steps && run.status.RunRunning?
         && run.steps[step].status.Running? && run.steps[step].task == task && run.steps[step].attempts == attempt
         && !exists v <- run.eventLog :: v.event.StepStarted? && v.event.step == step && v.event.attempt == attempt
       case StepRetrying(_, step, attempt, error) =>
         && step in run.steps && run.status.RunRunning?
         && run.steps[step].status.Retrying? && run.steps[step].attempts == attempt
         && run.steps[step].error == Some(error)
         && !exists v <- run.eventLog :: v.event.StepRetrying? && v.event.step == step && v.event.attempt == attempt
       case StepFallbackSelected(_, step, task) =>
         && step in run.steps && run.status.RunRunning?
         && run.steps[step].status.Retrying? && run.steps[step].fallbackUsed && run.steps[step].task == task
         && !exists v <- run.eventLog :: v.event.StepFallbackSelected? && v.event.step == step && v.event.task == task
       case StepSucceeded(_, step, attempt) =>
         && step in run.steps && run.status.RunRunning?
         && run.steps[step].status.Succeeded? && run.steps[step].attempts == attempt
         && !exists v <- run.eventLog :: v.event.StepSucceeded? && v.event.step == step && v.event.attempt == attempt
       case StepFailed(_, step, attempt, error) =>
         && step in run.steps && run.status.RunRunning?
         && run.steps[step].status.Failed? && run.steps[step].attempts == attempt
         && run.steps[step].error == Some(error)
         && !exists v <- run.eventLog :: v.event.StepFailed? && v.event.step == step && v.event.attempt == attempt
       case RunFinished(_, status) =>
         && Terminal(status) && run.status == status
         && !exists v <- run.eventLog :: v.event.RunFinished?
  }

  function EventsAfter(log: seq<Envelope>, sequence: nat): seq<Envelope> {
    if log == [] then []
    else EventsAfter(log[..|log| - 1], sequence)
         + (if log[|log| - 1].sequence > sequence then [log[|log| - 1]] else [])
  }

  /** The positions `at` pick, in log order, exactly the envelopes with a higher sequence. */
  ghost predicate PicksAt(log: seq<Envelope>, sequence: nat, picked: seq<Envelope>, at: seq<nat>) {
    && |at| == |picked|
    && (forall j, k :: 0 <= j < k < |at| ==> at[j] < at[k])
    && (forall k :: 0 <= k < |at| ==> at[k] < |log| && picked[k] == log[at[k]] && picked[k].sequence > sequence)
    && (forall i :: 0 <= i < |log| && log[i].sequence > sequence ==> i in at)
  }

  ghost predicate Picks(log: seq<Envelope>, sequence: nat, picked: seq<Envelope>) {
    exists at :: PicksAt(log, sequence, picked, at)
  }

  lemma {:induction false} EventsAfterPicks(log: seq<Envelope>, sequence: nat)
    ensures Picks(log, sequence, EventsAfter(log, sequence))
  {
    hide PicksAt;
    if log == [] {
      PicksNothing(sequence);
    } else {
      var init, v := log[..|log| - 1], log[|log| - 1];
      EventsAfterPicks(init, sequence);
      var picked := EventsAfter(init, sequence);
      var at :| PicksAt(init, sequence, picked, at);
      assert log == init + [v];
      assert EventsAfter(log, sequence) == if v.sequence > sequence then picked + [v] else picked;
      PicksNext(init, v, sequence, picked, at);
    }
  }

  lemma PicksNothing(sequence: nat)
    ensures PicksAt([], sequence, [], [])
  {
  }

  lemma PicksNext(log: seq<Envelope>, v: Envelope, sequence: nat, picked: seq<Envelope>, at: seq<nat>)
    requires PicksAt(log, sequence, picked, at)
    ensures v.sequence <= sequence ==> PicksAt(log + [v], sequence, picked, at)
    ensures v.sequence > sequence ==> PicksAt(log + [v], sequence, picked + [v], at + [|log|])
  {
    var more := at + [|log|];
    assert more[|at|] == |log|;
    forall i | i in at ensures i in more {}
    forall i | 0 <= i < |log| + 1 && (log + [v])[i].sequence > sequence && i < |log| ensures i in at {
      assert log[i].sequence > sequence;
    }
  }
}
