/** The durable worker (src/durable.rs): submitting a workflow, and turning task results into
    completions the repository accepts. */
module Durable {
  import opened Types
  import opened Workflows
  import opened Policy
  import opened Transitions
  import opened Effects
  import opened StepLog
  import opened StepInvariant
  import opened RunInvariant
  import opened RunTheorems
  import opened RunMachine
  import opened MemoryStore
  import opened MemoryTraces
  import opened MemoryFencing
  import opened MemorySystem
  import opened MemoryTheorems
  import opened Operations

  // Submission.

  type Registry = map<TaskId, TaskSpec>

  /** Tasks are registered under their own id. */
  ghost predicate Keyed(registry: Registry) {
    forall t :: t in registry ==> registry[t].id == t
  }

  ghost predicate Registered(registry: Registry, s: StepSpec) {
    s.task in registry && (s.policy.fallbackTask.Some? ==> s.policy.fallbackTask.value in registry)
  }

  /** The primary and fallback tasks of the steps. */
  ghost function TasksNamed(steps: seq<StepSpec>): set<TaskId> {
    (set s | s in steps :: s.task)
    + (set s | s in steps && s.policy.fallbackTask.Some? :: s.policy.fallbackTask.value)
  }

  lemma TasksNamedSnoc(steps: seq<StepSpec>, s: StepSpec)
    ensures TasksNamed(steps + [s])
         == TasksNamed(steps) + {s.task} + (if s.policy.fallbackTask.Some? then {s.policy.fallbackTask.value} else {})
  {
  }

  lemma TasksNamedNone()
    ensures TasksNamed([]) == {}
  {
  }

  lemma NamedCovers(workflow: Workflow, tasks: map<TaskId, TaskSpec>)
    requires tasks.Keys == TasksNamed(workflow.steps) && forall t :: t in tasks ==> tasks[t].id == t
    ensures ManifestCovers(workflow, Manifest(workflow.id, workflow.version, tasks, workflow.gates, map[]))
  {
  }

  /** The manifest is for the workflow and its gates and holds what is registered for its tasks. */
  ghost predicate ManifestOf(workflow: Workflow, registry: Registry, m: Manifest) {
    && m.workflowId == workflow.id && m.workflowVersion == workflow.version && m.gates == workflow.gates
    && m.metadata == map[]
    && (Keyed(registry) ==>
          && m.tasks.Keys == TasksNamed(workflow.steps)
          && forall t :: t in m.tasks ==> t in registry && m.tasks[t] == registry[t])
  }

  /** Collects the specifications of every primary and fallback task, and no others. */
  method BuildManifest(workflow: Workflow, registry: Registry) returns (r: Result<Manifest, WorkflowError>)
    ensures r.Ok? <==> forall s :: s in workflow.steps ==> Registered(registry, s)
    ensures r.Err? ==> r.error.UnregisteredTask? && r.error.task !in registry
    ensures r.Ok? ==> ManifestOf(workflow, registry, r.value)
    ensures r.Ok? && Keyed(registry) ==> ManifestCovers(workflow, r.value)
  {
    hide TasksNamed, ManifestCovers;
    assert TasksNamed(workflow.steps[..0]) == {} by { TasksNamedNone(); }
    var tasks: map<TaskId, TaskSpec> := map[];
    for i := 0 to |workflow.steps|
      invariant forall j :: 0 <= j < i ==> Registered(registry, workflow.steps[j])
      invariant forall t :: t in tasks ==> tasks[t].id == t
      invariant Keyed(registry) ==> tasks.Keys == TasksNamed(workflow.steps[..i])
      invariant Keyed(registry) ==> forall t :: t in tasks ==> t in registry && tasks[t] == registry[t]
    {
      var s := workflow.steps[i];
      assert workflow.steps[..i + 1] == workflow.steps[..i] + [s];
      TasksNamedSnoc(workflow.steps[..i], s);
      assert s in workflow.steps;
      if s.task !in registry {
        return Err(UnregisteredTask(s.task));
      }
      tasks := tasks[registry[s.task].id := registry[s.task]];
      if s.policy.fallbackTask.Some? {
        var fallback := s.policy.fallbackTask.value;
        if fallback !in registry {
          return Err(UnregisteredTask(fallback));
        }
        tasks := tasks[registry[fallback].id := registry[fallback]];
      }
    }
    assert workflow.steps[..|workflow.steps|] == workflow.steps;
    if Keyed(registry) {
      NamedCovers(workflow, tasks);
    }
    return Ok(Manifest(workflow.id, workflow.version, tasks, workflow.gates, map[]));
  }

  /** Submits a workflow; with a keyed registry the repository never calls the request invalid. */
  method Submit(store: InMemoryRunStore, runId: RunId, workflow: Workflow, registry: Registry, input: Value,
                key: Option<IdempotencyKey>) returns (r: Result<Answer<RunRecord>, WorkflowError>)
    requires store.Valid()
    modifies store
    ensures store.Valid()
    ensures r.Ok? <==> ValidSteps(workflow.steps) && forall s :: s in workflow.steps ==> Found(registry, s)
    ensures r.Err? ==> store.State() == old(store.State())
    ensures r.Err? && ValidSteps(workflow.steps) ==> FirstNotFound(workflow.steps, registry, r.error)
    ensures r.Err? && !ValidSteps(workflow.steps) ==>
              r.error.Empty? || r.error.UnknownDependency? || r.error.DependencyCycle?
    ensures r.Ok? && Keyed(registry) ==> r.value != Err(InvalidRequest)
    ensures r.Ok? ==>
              exists manifest :: ManifestOf(workflow, registry, manifest)
                && (store.State(), r.value)
                   == CreateRun(old(store.State()), RunRequest(runId, workflow, manifest, input, key))
    ensures r.Ok? && r.value.Ok? ==>
              && r.value.value.workflow == workflow && r.value.value.input == input
              && ManifestCovers(workflow, r.value.value.manifest)
  {
    var checked, underflow := Validate(workflow.steps);
    if checked.Err? {
      return Err(checked.error);
    }
    var mismatch := ValidateWorkflow(workflow.steps, registry);
    if mismatch.Some? {
      return Err(mismatch.value);
    }
    var manifest := BuildManifest(workflow, registry);
    assert manifest.Ok?;  // every task was just found
    var request := RunRequest(runId, workflow, manifest.value, input, key);
    var answer := store.Create(request);
    return Ok(answer);
  }

  ghost predicate Found(registry: Registry, s: StepSpec) {
    Registered(registry, s) && registry[s.task].id == s.task
  }

  /** Why a step is not found: its primary task comes first, then its fallback. */
  predicate TrueReason(registry: Registry, s: StepSpec, error: WorkflowError) {
    match error
    case UnregisteredTask(t) =>
      t !in registry
      && (t == s.task
          || (s.task in registry && registry[s.task].id == s.task && s.policy.fallbackTask == Some(t)))
    case TaskIdMismatch(step, t) => step == s.id && t == s.task && t in registry && registry[t].id != t
    case _ => false
  }

  /** The error is about the first step that is not found. */
  ghost predicate FirstNotFound(steps: seq<StepSpec>, registry: Registry, error: WorkflowError) {
    exists i :: && 0 <= i < |steps| && !Found(registry, steps[i]) && TrueReason(registry, steps[i], error)
                && forall j :: 0 <= j < i ==> Found(registry, steps[j])
  }

  /** The first step whose tasks are missing or registered under another id, and why. */
  function ValidateWorkflow(steps: seq<StepSpec>, registry: Registry): (r: Option<WorkflowError>)
    ensures r.None? <==> forall s :: s in steps ==> Found(registry, s)
    ensures r.Some? ==> FirstNotFound(steps, registry, r.value)
    ensures r.Some? && r.value.TaskIdMismatch? ==> !Keyed(registry)
  {
    if steps == [] then None
    else
      var s := steps[0];
      assert s in steps && (Found(registry, s) ==> s.task in registry);
      if s.task !in registry then Some(UnregisteredTask(s.task))
      else if registry[s.task].id != s.task then Some(TaskIdMismatch(s.id, s.task))
      else if s.policy.fallbackTask.Some? && s.policy.fallbackTask.value !in registry then
        Some(UnregisteredTask(s.policy.fallbackTask.value))
      else ValidateWorkflow(steps[1..], registry)
  }

  // Completions.

  function SucceededWith(run: RunId, step: StepId, output: Value, attempt: nat): StepCompletion {
    StepCompletion(Succeeded, Some(output), None, None, false, [], StepSucceeded(run, step, attempt), None)
  }

  function RetryingWith(run: RunId, step: StepId, attempt: nat, error: string): StepCompletion {
    StepCompletion(Retrying, None, Some(error), None, false, [], StepRetrying(run, step, attempt, error), None)
  }

  function FallbackWith(run: RunId, step: StepId, task: TaskId, error: string): StepCompletion {
    StepCompletion(Retrying, None, Some(error), Some(task), true, [], StepFallbackSelected(run, step, task), None)
  }

  function FailedWith(run: RunId, step: StepId, attempt: nat, error: string): StepCompletion {
    StepCompletion(Failed, None, Some(error), None, false, [], StepFailed(run, step, attempt, error), None)
  }

  /** What the worker reports for a task result. */
  function CompletionFor(claim: StepClaim, result: TaskResult): StepCompletion {
    var run, step, policy := claim.runId, claim.step.id, claim.step.policy;
    match result
    case Ok(output) => SucceededWith(run, step, output, claim.attempt)
    case Err(error) =>
      if error.Retryable() && claim.attempt < Budget(claim.step) then
        RetryingWith(run, step, claim.attempt, error.Text())
        .(retryAfterMs := Some(Min(ForAttempt(policy.retry.delay, claim.attempt), U64_MAX)))
      else if !claim.fallbackUsed && policy.fallbackTask.Some? then
        FallbackWith(run, step, policy.fallbackTask.value, error.Text())
      else FailedWith(run, step, claim.attempt, error.Text())
  }

  /** The text of an error names its kind and keeps its message. */
  predicate Describes(text: string, error: TaskError) {
    match error
    case InvalidInput(m) => text == "task input is invalid: " + m
    case Transient(m) => text == "task failed transiently: " + m
    case Permanent(m) => text == "task failed permanently: " + m
    case Timeout(m) => text == "task timed out after " + m + " ms"
    case Serialization(m) => text == "task serialization failed: " + m
  }

  /** What the worker must report for a task result: an output succeeds; an error that may pass is
      retried after the wait of the policy while the budget lasts; any other error, or one too many,
      turns to the fallback if the primary task was running and has one, and fails the step otherwise. */
  predicate Reports(claim: StepClaim, result: TaskResult, c: StepCompletion) {
    var run, step, n, policy := claim.runId, claim.step.id, claim.attempt, claim.step.policy;
    match result
    case Ok(output) =>
      c == StepCompletion(Succeeded, Some(output), None, None, false, [], StepSucceeded(run, step, n), None)
    case Err(error) =>
      var text := c.error;
      && text.Some? && Describes(text.value, error)
      && if (error.Transient? || error.Timeout?) && BudgetLeft(claim.step, n) then
        && c == StepCompletion(Retrying, None, text, None, false, [], StepRetrying(run, step, n, text.value),
                               c.retryAfterMs)
        && c.retryAfterMs.Some?
        && (DelayFits(policy.retry.delay) && n >= 1 ==> c.retryAfterMs.value == WaitAfter(policy.retry.delay, n))
      else if policy.fallbackTask.Some? && !claim.fallbackUsed then
        c == StepCompletion(Retrying, None, text, policy.fallbackTask, true, [],
                            StepFallbackSelected(run, step, policy.fallbackTask.value), None)
      else c == StepCompletion(Failed, None, text, None, false, [], StepFailed(run, step, n, text.value), None)
  }

  lemma CompletionReports(claim: StepClaim, result: TaskResult)
    ensures Reports(claim, result, CompletionFor(claim, result))
  {
    if DelayFits(claim.step.policy.retry.delay) {
      ForAttemptIsClampedFactor(claim.step.policy.retry.delay, claim.attempt);
    }
    hide ForAttempt;
  }

  /** The report of a new attempt. */
  function StartOf(claim: StepClaim): Event {
    StepStarted(claim.runId, claim.step.id, claim.task.id, claim.attempt)
  }

  lemma ReportFits(claim: StepClaim, result: TaskResult, manifest: Manifest)
    requires claim.step.policy.fallbackTask.Some? ==> claim.step.policy.fallbackTask.value in manifest.tasks
    ensures CompletionMatches(CompletionFor(claim, result), claim, manifest)
  {
  }

  /** Whatever a task answers, the report for an issued claim is only ever refused because the lease
      is gone, never as inconsistent with the claim. */
  lemma ReportsAreNeverInvalid(ops: seq<Op>, id: RunId, step: StepId, attempt: nat, result: TaskResult, now: nat)
    requires id in PerformAll(START, ops).store.runs
    requires ClaimNamed(PerformAll(START, ops).issued, id, step, attempt).Some?
    ensures var x := PerformAll(START, ops);
            var claim := ClaimNamed(x.issued, id, step, attempt).value;
            var answer := CompleteStep(x.store, claim, CompletionFor(claim, result), now).1;
            && Reports(claim, result, CompletionFor(claim, result))
            && (answer.Ok? || answer.error == LeaseLost(id, step))
  {
    hide PerformAll, SystemInv, RunInv, CompletionMatches, CompletionFor, Reports;
    var x := PerformAll(START, ops);
    var claim := ClaimNamed(x.issued, id, step, attempt).value;
    Reachable(ops);
    RunInOrder(x, id);
    NamedClaimFits(x, id, step, attempt);
    var s := IssuedStep(x.store.runs[id], x.issued[id], claim);
    CoveredFallback(x.store.runs[id], x.issued[id], s);
    ReportFits(claim, result, x.store.runs[id].manifest);
    CompletionReports(claim, result);
  }

  lemma CoveredFallback(run: RunRecord, claims: Claims, s: StepSpec)
    requires RunInv(run, claims) && s in run.workflow.steps
    ensures s.policy.fallbackTask.Some? ==> s.policy.fallbackTask.value in run.manifest.tasks
  {
    hide StepsOk, LogOk, StatusOk, ValidSteps;
  }

  /** The start report of a claim just handed out is accepted. */
  lemma StartIsAccepted(x: Tracked, m: Move)
    requires Inv(x) && Legal(x, m) && m.Claim?
    ensures Next(x, m).claims[m.step.id] != []
    ensures EventValid(Next(x, m).run, StartOf(Last(Next(x, m).claims[m.step.id])))
  {
    hide LogOk, StatusOk, StepsOk, ValidSteps, StepInv, Available, SupportsTask, DependenciesDone, TokensUpTo,
      StepInput;
    var y := Next(x, m);
    var claim := Last(y.claims[m.step.id]);
    ManifestKeyed(x.run, x.claims, CurrentTask(Find(x.run.steps, m.step.id), m.step));
    if v :| v in y.run.eventLog && v.event.StepStarted?
            && v.event.step == m.step.id && v.event.attempt == claim.attempt
    {
      StartWasReported(x, v, m.step);
      assert false;
    }
  }

  lemma ManifestKeyed(run: RunRecord, claims: Claims, t: TaskId)
    requires RunInv(run, claims) && t in run.manifest.tasks
    ensures run.manifest.tasks[t].id == t
  {
    hide StepsOk, LogOk, StatusOk, ValidSteps;
  }

  /** A start in the log belongs to an attempt already made. */
  lemma StartWasReported(x: Tracked, v: Envelope, s: StepSpec)
    requires Inv(x) && v in x.run.eventLog && v.event.StepStarted? && v.event.step == s.id && s in x.run.workflow.steps
    ensures s.id in x.run.steps && v.event.attempt <= x.run.steps[s.id].attempts
  {
    hide StatusOk, StepsOk, ValidSteps, ManifestCovers;
    var i :| 0 <= i < |x.run.eventLog| && x.run.eventLog[i] == v;
    assert x.run.events[i] in x.run.events;
    LogReports(x.run, x.claims, s, v.event);
  }
}
