/** Data carried by workflows, runs, step records, claims, completions and events. */
module Types {

  datatype Option<+T> = None | Some(value: T)

  datatype Result<+T, +E> = Ok(value: T) | Err(error: E)

  type RunId = string
  type WorkflowId = string
  type StepId = string
  type TaskId = string
  type WorkerId = string
  type IdempotencyKey = string
  type ArtifactRef = string

  const U32_MAX: nat := 0xFFFF_FFFF
  const U64_MAX: nat := 0xFFFF_FFFF_FFFF_FFFF
  const I64_MAX: nat := 0x7FFF_FFFF_FFFF_FFFF

  function Max(a: nat, b: nat): nat {
    if a < b then b else a
  }

  function Min(a: nat, b: nat): nat {
    if a < b then a else b
  }

  /** `u64::saturating_add`, used for every deadline. */
  function SatAdd(a: nat, b: nat): nat {
    Min(a + b, U64_MAX)
  }

  /** A JSON document. */
  datatype Value =
    | Null
    | Bool(b: bool)
    | Number(n: real)
    | String(s: string)
    | Array(items: seq<Value>)
    | Object(fields: map<string, Value>)

  // Policies, tasks and workers.

  datatype RetryDelay = RetryDelay(initialMs: nat, multiplier: nat, maxMs: nat)

  datatype RetryPolicy = RetryPolicy(maxAttempts: nat, delay: RetryDelay)

  datatype Residency = Any | Region(name: string)

  datatype Resources = Resources(cpuMillis: nat, memoryMb: nat, gpuCount: nat, capabilities: set<string>)

  datatype ExecutionPolicy = ExecutionPolicy(
    retry: RetryPolicy,
    fallbackTask: Option<TaskId>,
    residency: Residency,
    resources: Resources)

  datatype TaskSpec = TaskSpec(id: TaskId, version: string, capability: string)

  datatype WorkerProfile = WorkerProfile(id: WorkerId, residency: Residency, resources: Resources)

  // Workflows, gates and manifests.

  datatype StepSpec = StepSpec(id: StepId, task: TaskId, dependsOn: seq<StepId>, policy: ExecutionPolicy)

  datatype MetricDirection = AtLeast | AtMost

  datatype Metric = Metric(name: string, value: real)

  datatype EvaluationGate = EvaluationGate(metric: string, threshold: real, direction: MetricDirection)

  datatype GateDecision = GateDecision(
    passed: bool,
    metric: string,
    observed: Option<real>,
    threshold: real,
    direction: MetricDirection)

  datatype Workflow = Workflow(id: WorkflowId, version: string, steps: seq<StepSpec>, gates: seq<EvaluationGate>)

  datatype Manifest = Manifest(
    workflowId: WorkflowId,
    workflowVersion: string,
    tasks: map<TaskId, TaskSpec>,
    gates: seq<EvaluationGate>,
    metadata: map<string, string>)

  /** The attempt budget shared by the primary task and its fallback. */
  function Budget(s: StepSpec): nat {
    Max(s.policy.retry.maxAttempts, 1)
  }

  // Runs.

  datatype RunStatus = RunRunning | RunCancelled | RunSucceeded | RunFailed

  datatype StepStatus = Pending | Running | Retrying | Succeeded | Failed | Cancelled

  datatype StepAttempt = StepAttempt(
    number: nat,
    worker: WorkerId,
    leaseToken: nat,
    startedAt: nat,
    finishedAt: Option<nat>,
    status: StepStatus,
    error: Option<string>)

  datatype StepLease = StepLease(worker: WorkerId, token: nat, expiresAt: nat)

  datatype StepRecord = StepRecord(
    id: StepId,
    task: TaskId,
    status: StepStatus,
    attempts: nat,
    output: Option<Value>,
    error: Option<string>,
    fallbackUsed: bool,
    lease: Option<StepLease>,
    history: seq<StepAttempt>,
    artifacts: seq<ArtifactRef>,
    nextAttemptAt: Option<nat>)

  datatype Event =
    | RunStarted(run: RunId, workflow: WorkflowId)
    | StepStarted(run: RunId, step: StepId, task: TaskId, attempt: nat)
    | StepRetrying(run: RunId, step: StepId, attempt: nat, error: string)
    | StepFallbackSelected(run: RunId, step: StepId, task: TaskId)
    | StepSucceeded(run: RunId, step: StepId, attempt: nat)
    | StepFailed(run: RunId, step: StepId, attempt: nat, error: string)
    | RunFinished(run: RunId, status: RunStatus)

  datatype Envelope = Envelope(sequence: nat, event: Event)

  datatype RunRecord = RunRecord(
    runId: RunId,
    workflow: Workflow,
    manifest: Manifest,
    input: Value,
    status: RunStatus,
    steps: map<StepId, StepRecord>,
    events: seq<Event>,
    eventLog: seq<Envelope>,
    metrics: seq<Metric>,
    gateDecisions: map<string, GateDecision>,
    error: Option<string>,
    idempotencyKey: Option<IdempotencyKey>,
    revision: nat)

  datatype RunRequest = RunRequest(
    runId: RunId,
    workflow: Workflow,
    manifest: Manifest,
    input: Value,
    idempotencyKey: Option<IdempotencyKey>)

  datatype StepClaim = StepClaim(
    runId: RunId,
    workflowId: WorkflowId,
    step: StepSpec,
    task: TaskSpec,
    input: Value,
    worker: WorkerId,
    leaseToken: nat,
    attempt: nat,
    fallbackUsed: bool)

  datatype StepCompletion = StepCompletion(
    status: StepStatus,
    output: Option<Value>,
    error: Option<string>,
    nextTask: Option<TaskId>,
    fallbackUsed: bool,
    artifacts: seq<ArtifactRef>,
    event: Event,
    retryAfterMs: Option<nat>)

  datatype TaskError =
    | InvalidInput(message: string)
    | Transient(message: string)
    | Permanent(message: string)
    | Timeout(message: string)
    | Serialization(message: string)
  {
    predicate Retryable() {
      Transient? || Timeout?
    }

    function Text(): string {
      match this
      case InvalidInput(m) => "task input is invalid: " + m
      case Transient(m) => "task failed transiently: " + m
      case Permanent(m) => "task failed permanently: " + m
      case Timeout(m) => "task timed out after " + m + " ms"
      case Serialization(m) => "task serialization failed: " + m
    }
  }

  type TaskResult = Result<Value, TaskError>

  /** What a task answers: a function of the step, the task, the attempt and the input. */
  type Oracle = (StepId, TaskId, nat, Value) -> TaskResult

  datatype WorkflowError =
    | Empty
    | DuplicateStep(step: StepId)
    | UnknownDependency(step: StepId, dependency: StepId)
    | DependencyCycle
    | UnregisteredTask(task: TaskId)
    | TaskIdMismatch(step: StepId, task: TaskId)
    | UnsatisfiedPolicy(step: StepId)

  datatype RepositoryError =
    | RunNotFound(run: RunId)
    | LeaseLost(run: RunId, step: StepId)
    | IdempotencyConflict(run: RunId)
    | Conflict(run: RunId)
    | InvalidCompletion(run: RunId, step: StepId)
    | InvalidEvent(run: RunId)
    | InvalidRequest
    | Storage
}
