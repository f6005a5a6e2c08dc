/** The retry and fallback loop of the process-local executor (src/runtime.rs). */
module StepLoop {
  import opened Types
  import opened Transitions

  datatype StepRunResult = StepRunResult(record: StepRecord, events: seq<Event>)

  /** The variables of the loop. */
  datatype Loop = Loop(
    task: TaskId,
    usedFallback: bool,
    fallbackAttempted: bool,
    attempts: nat,
    lastError: Option<string>,
    events: seq<Event>)

  function Begin(step: StepSpec): Loop {
    Loop(step.task, false, false, 0, None, [])
  }

  /** Attempts that may still follow. */
  function AttemptsLeft(step: StepSpec, st: Loop): nat {
    (if st.attempts < Budget(step) then Budget(step) - st.attempts else 0) + (if st.fallbackAttempted then 0 else 1)
  }

  predicate Exhausted(step: StepSpec, st: Loop) {
    st.attempts >= Budget(step) && (!st.usedFallback || st.fallbackAttempted)
  }

  function Finished(step: StepSpec, task: TaskId, status: StepStatus, attempts: nat, output: Option<Value>,
                    error: Option<string>, usedFallback: bool): StepRecord
  {
    StepRecord(step.id, task, status, attempts, output, error, usedFallback, None, [], [], None)
  }

  function GiveUp(run: RunId, step: StepSpec, st: Loop): StepRunResult {
    var error := if st.lastError.Some? then st.lastError.value else "task failed without an error";
    StepRunResult(Finished(step, st.task, Failed, st.attempts, None, Some(error), st.usedFallback),
                  st.events + [StepFailed(run, step.id, st.attempts, error)])
  }

  /** One turn of the loop ends it or goes on with new variables. */
  datatype Turn = Stop(result: StepRunResult) | Continue(next: Loop)

  function TurnOf(run: RunId, step: StepSpec, registry: set<TaskId>, oracle: Oracle, input: Value, st: Loop): (t: Turn)
    ensures t.Continue? ==> t.next.attempts == st.attempts + 1 && AttemptsLeft(step, t.next) < AttemptsLeft(step, st)
    ensures t.Stop? ==>
              var r := t.result.record;
              && r.id == step.id
              && (r.status.Succeeded? || r.status.Failed?)
              && (r.status.Succeeded? <==> r.output.Some?)
              && (r.status.Failed? <==> r.error.Some?)
              && r.attempts == if st.task !in registry || Exhausted(step, st) then st.attempts else st.attempts + 1
  {
    if st.task !in registry then
      Stop(GiveUp(run, step, st.(lastError := Some("task " + st.task + " is not registered"))))
    else if Exhausted(step, st) then Stop(GiveUp(run, step, st))
    else
      var attempt := st.attempts + 1;
      var started := st.(attempts := attempt, fallbackAttempted := st.fallbackAttempted || st.usedFallback,
                         events := st.events + [StepStarted(run, step.id, st.task, attempt)]);
      match oracle(step.id, st.task, attempt, input)
      case Ok(output) =>
        Stop(StepRunResult(Finished(step, st.task, Succeeded, attempt, Some(output), None, st.usedFallback),
                           started.events + [StepSucceeded(run, step.id, attempt)]))
      case Err(error) =>
        var failed := started.(lastError := Some(error.Text()));
        if error.Retryable() && attempt < Budget(step) then
          Continue(failed.(events := failed.events + [StepRetrying(run, step.id, attempt, error.Text())]))
        else if !st.usedFallback && step.policy.fallbackTask.Some? then
          var fallback := step.policy.fallbackTask.value;
          Continue(failed.(usedFallback := true, task := fallback,
                           events := failed.events + [StepFallbackSelected(run, step.id, fallback)]))
        else if st.usedFallback || attempt >= Budget(step) then Stop(GiveUp(run, step, failed))
        else Continue(failed)
  }

  /** A task that is not registered ends the loop with that error. */
  lemma UnregisteredFails(run: RunId, step: StepSpec, registry: set<TaskId>, oracle: Oracle, input: Value, st: Loop)
    requires st.task !in registry
    ensures var t := TurnOf(run, step, registry, oracle, input, st);
            && t.Stop? && t.result.record.status.Failed?
            && t.result.record.error == Some("task " + st.task + " is not registered")
  {
  }

  /** The loop as a recursive function of its variables. */
  function Run(run: RunId, step: StepSpec, registry: set<TaskId>, oracle: Oracle, input: Value, st: Loop)
    : (r: StepRunResult)
    ensures r.record.id == step.id
    ensures r.record.status.Succeeded? || r.record.status.Failed?
    ensures r.record.status.Succeeded? <==> r.record.output.Some?
    ensures r.record.status.Failed? <==> r.record.error.Some?
    ensures st.attempts <= r.record.attempts
    decreases AttemptsLeft(step, st)
  {
    match TurnOf(run, step, registry, oracle, input, st)
    case Stop(result) => result
    case Continue(next) => Run(run, step, registry, oracle, input, next)
  }

  function RunStep(run: RunId, step: StepSpec, registry: set<TaskId>, oracle: Oracle, input: Value): StepRunResult {
    Run(run, step, registry, oracle, input, Begin(step))
  }

  /** The loop itself. */
  method ExecuteStep(run: RunId, step: StepSpec, registry: set<TaskId>, oracle: Oracle, input: Value)
    returns (result: StepRunResult)
    ensures result == RunStep(run, step, registry, oracle, input)
  {
    var events: seq<Event> := [];
    var selectedTask := step.task;
    var usedFallback, fallbackAttempted := false, false;
    var maxAttempts := Budget(step);
    var attempts: nat := 0;
    var lastError: Option<string> := None;
    while true
      invariant Run(run, step, registry, oracle, input,
                    Loop(selectedTask, usedFallback, fallbackAttempted, attempts, lastError, events))
             == RunStep(run, step, registry, oracle, input)
      decreases (if attempts < maxAttempts then maxAttempts - attempts else 0) + (if fallbackAttempted then 0 else 1)
    {
      if selectedTask !in registry {
        lastError := Some("task " + selectedTask + " is not registered");
        break;
      }
      if attempts >= maxAttempts && (!usedFallback || fallbackAttempted) {
        break;
      }
      attempts := attempts + 1;
      if usedFallback {
        fallbackAttempted := true;
      }
      events := events + [StepStarted(run, step.id, selectedTask, attempts)];
      var answer := oracle(step.id, selectedTask, attempts, input);
      if answer.Ok? {
        events := events + [StepSucceeded(run, step.id, attempts)];
        return StepRunResult(
          Finished(step, selectedTask, Succeeded, attempts, Some(answer.value), None, usedFallback), events);
      }
      lastError := Some(answer.error.Text());
      if answer.error.Retryable() && attempts < maxAttempts {
        events := events + [StepRetrying(run, step.id, attempts, answer.error.Text())];
        continue;
      }
      var terminalFailure := usedFallback || attempts >= maxAttempts;
      if !usedFallback && step.policy.fallbackTask.Some? {
        usedFallback := true;
        selectedTask := step.policy.fallbackTask.value;
        events := events + [StepFallbackSelected(run, step.id, selectedTask)];
        continue;
      }
      if terminalFailure {
        break;
      }
    }
    result := GiveUp(run, step, Loop(selectedTask, usedFallback, fallbackAttempted, attempts, lastError, events));
  }
}
