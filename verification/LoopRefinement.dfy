/** The in-process loop and the leased step machine carry out the same retry policy: how far, and
    exactly when. */
module LoopRefinement {
  import opened Types
  import opened Workflows
  import opened Policy
  import opened Transitions
  import opened Effects
  import opened StepInvariant
  import opened RunInvariant
  import opened RunTheorems
  import opened RunMachine
  import opened StepLoop
  import opened Durable

  /** Everything fixed while one step is driven through the repository. */
  datatype Site = Site(
    run: RunId,
    workflow: WorkflowId,
    tasks: map<TaskId, TaskSpec>,
    step: StepSpec,
    input: Value,
    worker: WorkerId,
    leaseMs: nat,
    clearBackoff: bool)

  datatype Progress = Progress(record: Option<StepRecord>, events: seq<Event>)

  ghost predicate Equipped(site: Site) {
    && site.step.task in site.tasks
    && (site.step.policy.fallbackTask.Some? ==> site.step.policy.fallbackTask.value in site.tasks)
    && (forall t :: t in site.tasks ==> site.tasks[t].id == t)
  }

  function Attempts(p: Progress): nat {
    if p.record.Some? then p.record.value.attempts else 0
  }

  /** When the next attempt may be claimed. */
  function Due(p: Progress): nat {
    if p.record.Some? && p.record.value.nextAttemptAt.Some? then p.record.value.nextAttemptAt.value else 0
  }

  function LeasedRecord(site: Site, p: Progress, token: nat): StepRecord {
    ClaimRecord(p.record, site.step, site.worker, token, site.leaseMs, Due(p), site.clearBackoff)
  }

  function ClaimMade(site: Site, p: Progress, token: nat): StepClaim
    requires CurrentTask(p.record, site.step) in site.tasks
  {
    var r := LeasedRecord(site, p, token);
    StepClaim(site.run, site.workflow, site.step, site.tasks[r.task], site.input, site.worker, token, r.attempts,
        r.fallbackUsed)
  }

  function ReportMade(site: Site, p: Progress, token: nat, oracle: Oracle): StepCompletion
    requires CurrentTask(p.record, site.step) in site.tasks
  {
    var claim := ClaimMade(site, p, token);
    CompletionFor(claim, oracle(site.step.id, claim.task.id, claim.attempt, claim.input))
  }

  /** Claim, start report, task, completion: one attempt through the repository. */
  function DurableAttempt(site: Site, p: Progress, token: nat, oracle: Oracle): Progress
    requires CurrentTask(p.record, site.step) in site.tasks
  {
    var c := ReportMade(site, p, token, oracle);
    Progress(Some(CompleteRecord(LeasedRecord(site, p, token), c, Due(p))),
             p.events + [StartOf(ClaimMade(site, p, token)), c.event])
  }

  /** Attempts follow as long as the step is offered; tokens are whatever the repository draws. */
  function Drive(site: Site, p: Progress, tokens: nat -> nat, oracle: Oracle): Progress
    decreases Budget(site.step) + 1 - Attempts(p)
  {
    if !Available(p.record, site.step, Due(p)) || CurrentTask(p.record, site.step) !in site.tasks then p
    else Drive(site, DurableAttempt(site, p, tokens(Attempts(p)), oracle), tokens, oracle)
  }

  /** The same outcome: status, task, attempts, fallback, output, error and events. */
  predicate SameOutcome(a: StepRunResult, p: Progress) {
    && p.record.Some?
    && var r := p.record.value;
       && a.record.id == r.id && a.record.status == r.status && a.record.task == r.task
       && a.record.attempts == r.attempts && a.record.fallbackUsed == r.fallbackUsed
       && a.record.output == r.output && a.record.error == r.error
       && a.events == p.events
  }

  // When the primary stops being retried.

  function PrimaryResult(site: Site, oracle: Oracle, attempt: nat): TaskResult {
    oracle(site.step.id, site.step.task, attempt, site.input)
  }

  /** The first attempt that is the last of the budget or does not fail retryably. */
  function FirstStop(site: Site, oracle: Oracle, attempt: nat): (stop: nat)
    ensures stop >= attempt
    decreases Budget(site.step) - attempt
  {
    var result := PrimaryResult(site, oracle, attempt);
    if attempt < Budget(site.step) && result.Err? && result.error.Retryable()
    then FirstStop(site, oracle, attempt + 1) else attempt
  }

  /** A permanent error before the budget is spent, and no fallback to turn to. */
  predicate GivesUpEarly(site: Site, oracle: Oracle, attempt: nat) {
    && site.step.policy.fallbackTask.None?
    && FirstStop(site, oracle, attempt) < Budget(site.step)
    && PrimaryResult(site, oracle, FirstStop(site, oracle, attempt)).Err?
  }

  /** Loop variables and stored record between two attempts. */
  ghost predicate Corresponds(site: Site, st: Loop, p: Progress) {
    && st.events == p.events && st.attempts == Attempts(p)
    && st.task == CurrentTask(p.record, site.step)
    && (st.fallbackAttempted ==> st.usedFallback)
    && (st.usedFallback ==> site.step.policy.fallbackTask == Some(st.task))
    && (!st.usedFallback ==> st.task == site.step.task)
    && (p.record.None? ==> st == Begin(site.step))
    && (p.record.Some? ==>
          var r := p.record.value;
          && r.id == site.step.id && r.status.Retrying? && r.lease.None? && r.output.None?
          && r.fallbackUsed == st.usedFallback && r.error == st.lastError && r.error.Some?
          && (st.attempts < Budget(site.step)
              || (st.usedFallback && !st.fallbackAttempted && st.attempts == Budget(site.step))))
  }

  function LoopTurn(site: Site, oracle: Oracle, st: Loop): Turn {
    TurnOf(site.run, site.step, site.tasks.Keys, oracle, site.input, st)
  }

  function LoopResult(site: Site, oracle: Oracle, st: Loop): StepRunResult {
    Run(site.run, site.step, site.tasks.Keys, oracle, site.input, st)
  }

  /** The next attempt fails permanently with budget left and no fallback: here the two part. */
  predicate PartsAt(site: Site, oracle: Oracle, st: Loop) {
    var result := oracle(site.step.id, st.task, st.attempts + 1, site.input);
    && !st.usedFallback && site.step.policy.fallbackTask.None?
    && st.attempts + 1 < Budget(site.step)
    && result.Err? && !result.error.Retryable()
  }

  /** What is leased for the next attempt. */
  lemma ClaimFacts(site: Site, st: Loop, p: Progress, token: nat)
    requires Equipped(site) && Corresponds(site, st, p)
    ensures Available(p.record, site.step, Due(p)) && CurrentTask(p.record, site.step) in site.tasks
    ensures var claim := ClaimMade(site, p, token);
            && claim.runId == site.run && claim.step == site.step && claim.input == site.input
            && claim.task.id == st.task && claim.attempt == st.attempts + 1 && claim.fallbackUsed == st.usedFallback
    ensures var r := LeasedRecord(site, p, token);
            && r.id == site.step.id && r.task == st.task
            && r.attempts == st.attempts + 1 && r.fallbackUsed == st.usedFallback
  {
  }

  /** The record and events after the attempt, in terms of the report. */
  lemma AttemptFacts(site: Site, st: Loop, p: Progress, token: nat, oracle: Oracle)
    requires Equipped(site) && Corresponds(site, st, p)
    requires CurrentTask(p.record, site.step) in site.tasks
    ensures var next, c := DurableAttempt(site, p, token, oracle), ReportMade(site, p, token, oracle);
            && next.events == st.events + [StepStarted(site.run, site.step.id, st.task, st.attempts + 1), c.event]
            && next.record.Some?
            && var r := next.record.value;
               && r.id == site.step.id && r.attempts == st.attempts + 1 && r.lease.None?
               && r.status == c.status && r.output == c.output && r.error == c.error
               && r.fallbackUsed == (st.usedFallback || c.fallbackUsed)
               && r.task == (if c.nextTask.Some? then c.nextTask.value else st.task)
  {
    hide Available, Corresponds, ClaimRecord, CloseAttempt, CompletionFor;
    CorrespondsTask(site, st, p);
    ClaimFacts(site, st, p, token);
  }

  /** The report for the result the loop sees. */
  lemma ReportFacts(site: Site, st: Loop, p: Progress, token: nat, oracle: Oracle)
    requires Equipped(site) && Corresponds(site, st, p)
    requires CurrentTask(p.record, site.step) in site.tasks
    ensures var result, attempt := oracle(site.step.id, st.task, st.attempts + 1, site.input), st.attempts + 1;
            var c := ReportMade(site, p, token, oracle);
            match result
            case Ok(output) => c == SucceededWith(site.run, site.step.id, output, attempt)
            case Err(error) =>
              if error.Retryable() && attempt < Budget(site.step) then
                c.(retryAfterMs := None) == RetryingWith(site.run, site.step.id, attempt, error.Text())
              else if !st.usedFallback && site.step.policy.fallbackTask.Some? then
                c == FallbackWith(site.run, site.step.id, site.step.policy.fallbackTask.value, error.Text())
              else c == FailedWith(site.run, site.step.id, attempt, error.Text())
  {
    hide Available, Corresponds, LeasedRecord, ForAttempt;
    ClaimFacts(site, st, p, token);
  }

  /** After an attempt that is to be repeated the stored step waits as long as the policy says. */
  ghost predicate WaitsAfter(site: Site, before: Progress, after: Progress, attempt: nat) {
    after.record.Some? && after.record.value.nextAttemptAt.Some?
    && (DelayFits(site.step.policy.retry.delay) && attempt >= 1 ==>
          Falls(after.record.value.nextAttemptAt.value, Due(before),
                WaitAfter(site.step.policy.retry.delay, attempt)))
  }

  lemma RetryWaits(site: Site, st: Loop, p: Progress, token: nat, oracle: Oracle)
    requires Equipped(site) && Corresponds(site, st, p) && CurrentTask(p.record, site.step) in site.tasks
    requires var result := oracle(site.step.id, st.task, st.attempts + 1, site.input);
             result.Err? && (result.error.Transient? || result.error.Timeout?)
    requires BudgetLeft(site.step, st.attempts + 1)
    ensures WaitsAfter(site, p, DurableAttempt(site, p, token, oracle), st.attempts + 1)
  {
    hide Available, Corresponds, CloseAttempt, CompletionFor, LeasedRecord, WaitAfter;
    var claim := ClaimMade(site, p, token);
    ClaimFacts(site, st, p, token);
    CompletionReports(claim, oracle(site.step.id, claim.task.id, claim.attempt, claim.input));
  }

  lemma TurnGoesOn(site: Site, st: Loop, p: Progress, token: nat, oracle: Oracle)
    requires Equipped(site) && Corresponds(site, st, p) && CurrentTask(p.record, site.step) in site.tasks
    requires LoopTurn(site, oracle, st).Continue? && !PartsAt(site, oracle, st)
    ensures Corresponds(site, LoopTurn(site, oracle, st).next, DurableAttempt(site, p, token, oracle))
  {
    NotExhausted(site, st, p);
    AttemptFacts(site, st, p, token, oracle);
    ReportFacts(site, st, p, token, oracle);
    hide DurableAttempt, ReportMade, AttemptsLeft, LeasedRecord;
    assert LoopTurn(site, oracle, st).next.events == DurableAttempt(site, p, token, oracle).events;
  }

  lemma TurnStops(site: Site, st: Loop, p: Progress, token: nat, oracle: Oracle)
    requires Equipped(site) && Corresponds(site, st, p) && CurrentTask(p.record, site.step) in site.tasks
    requires LoopTurn(site, oracle, st).Stop?
    ensures var next := DurableAttempt(site, p, token, oracle);
            SameOutcome(LoopTurn(site, oracle, st).result, next) && !Available(next.record, site.step, Due(next))
  {
    NotExhausted(site, st, p);
    AttemptFacts(site, st, p, token, oracle);
    ReportFacts(site, st, p, token, oracle);
    hide DurableAttempt, ReportMade, AttemptsLeft, LeasedRecord;
    assert LoopTurn(site, oracle, st).result.events == DurableAttempt(site, p, token, oracle).events;
  }

  lemma TurnParts(site: Site, st: Loop, p: Progress, token: nat, oracle: Oracle)
    requires Equipped(site) && Corresponds(site, st, p) && CurrentTask(p.record, site.step) in site.tasks
    requires PartsAt(site, oracle, st)
    ensures LoopTurn(site, oracle, st).Continue?
    ensures var next := DurableAttempt(site, p, token, oracle); !Available(next.record, site.step, Due(next))
  {
    NotExhausted(site, st, p);
    AttemptFacts(site, st, p, token, oracle);
    ReportFacts(site, st, p, token, oracle);
    hide DurableAttempt, ReportMade, AttemptsLeft, LeasedRecord;
  }

  /** One attempt on both sides: unless they part here, both stop alike or go on in
      correspondence, and a repetition waits. */
  lemma TurnAgrees(site: Site, st: Loop, p: Progress, token: nat, oracle: Oracle)
    requires Equipped(site) && Corresponds(site, st, p)
    ensures Available(p.record, site.step, Due(p)) && CurrentTask(p.record, site.step) in site.tasks
    ensures var t, next := LoopTurn(site, oracle, st), DurableAttempt(site, p, token, oracle);
            && Attempts(next) == st.attempts + 1
            && (PartsAt(site, oracle, st) ==> t.Continue? && !Available(next.record, site.step, Due(next)))
            && (!PartsAt(site, oracle, st) && t.Continue? ==> Corresponds(site, t.next, next))
            && (!PartsAt(site, oracle, st) && t.Stop? ==>
                  SameOutcome(t.result, next) && !Available(next.record, site.step, Due(next)))
            && (!PartsAt(site, oracle, st) && t.Continue? && t.next.usedFallback == st.usedFallback ==>
                  WaitsAfter(site, p, next, st.attempts + 1))
  {
    ClaimFacts(site, st, p, token);
    AttemptFacts(site, st, p, token, oracle);
    hide WaitsAfter, DurableAttempt, Corresponds, SameOutcome, Available;
    var t := LoopTurn(site, oracle, st);
    if PartsAt(site, oracle, st) {
      TurnParts(site, st, p, token, oracle);
    } else if t.Stop? {
      TurnStops(site, st, p, token, oracle);
    } else {
      TurnGoesOn(site, st, p, token, oracle);
      if t.next.usedFallback == st.usedFallback {
        RetryWaits(site, st, p, token, oracle);
      }
    }
  }

  /** Where the primary stops being retried is where the two sides could part. */
  lemma PartsWhereItGivesUp(site: Site, oracle: Oracle, st: Loop)
    requires !st.usedFallback ==> st.task == site.step.task
    requires !st.usedFallback
    ensures PartsAt(site, oracle, st) ==>
              GivesUpEarly(site, oracle, st.attempts + 1) && FirstStop(site, oracle, st.attempts + 1) == st.attempts + 1
    ensures !PartsAt(site, oracle, st) && LoopTurn(site, oracle, st).Continue?
              && !LoopTurn(site, oracle, st).next.usedFallback ==>
              FirstStop(site, oracle, st.attempts + 1) == FirstStop(site, oracle, st.attempts + 2)
    ensures !PartsAt(site, oracle, st) && LoopTurn(site, oracle, st).Stop? && site.step.task in site.tasks
              && !Exhausted(site.step, st) ==>
              !GivesUpEarly(site, oracle, st.attempts + 1)
  {
    hide AttemptsLeft;
  }

  lemma {:induction false} Agrees(site: Site, st: Loop, p: Progress, tokens: nat -> nat, oracle: Oracle)
    requires Equipped(site) && Corresponds(site, st, p)
    requires !st.usedFallback ==> !GivesUpEarly(site, oracle, st.attempts + 1)
    ensures SameOutcome(LoopResult(site, oracle, st), Drive(site, p, tokens, oracle))
    decreases AttemptsLeft(site.step, st)
  {
    hide Corresponds, SameOutcome, TurnOf, DurableAttempt, GivesUpEarly, PartsAt, FirstStop;
    TurnAgrees(site, st, p, tokens(Attempts(p)), oracle);
    var t, next := LoopTurn(site, oracle, st), DurableAttempt(site, p, tokens(Attempts(p)), oracle);
    CorrespondsTask(site, st, p);
    if !st.usedFallback {
      PartsWhereItGivesUp(site, oracle, st);
    } else {
      NeverPartsOnFallback(site, oracle, st);
    }
    if t.Continue? {
      if !t.next.usedFallback {
        EarlyShift(site, oracle, st);
      }
      Agrees(site, t.next, next, tokens, oracle);
    }
  }

  lemma CorrespondsTask(site: Site, st: Loop, p: Progress)
    requires Corresponds(site, st, p)
    ensures !st.usedFallback ==> st.task == site.step.task
    ensures st.events == p.events
  {
  }

  lemma NeverPartsOnFallback(site: Site, oracle: Oracle, st: Loop)
    requires st.usedFallback
    ensures !PartsAt(site, oracle, st)
  {
  }

  /** Going on without a fallback keeps the point where the primary stops. */
  lemma EarlyShift(site: Site, oracle: Oracle, st: Loop)
    requires LoopTurn(site, oracle, st).Continue? && !LoopTurn(site, oracle, st).next.usedFallback
    requires !PartsAt(site, oracle, st) && (!st.usedFallback ==> st.task == site.step.task)
    ensures LoopTurn(site, oracle, st).next.attempts == st.attempts + 1 && !st.usedFallback
    ensures GivesUpEarly(site, oracle, st.attempts + 1) == GivesUpEarly(site, oracle, st.attempts + 2)
  {
    hide AttemptsLeft;
  }

  /** Without agreement the loop makes at least one attempt more than the stored step. */
  lemma {:induction false} Differs(site: Site, st: Loop, p: Progress, tokens: nat -> nat, oracle: Oracle)
    requires Equipped(site) && Corresponds(site, st, p) && !st.usedFallback
    requires GivesUpEarly(site, oracle, st.attempts + 1)
    ensures LoopResult(site, oracle, st).record.attempts > Attempts(Drive(site, p, tokens, oracle))
    decreases AttemptsLeft(site.step, st)
  {
    hide Corresponds, SameOutcome, DurableAttempt, GivesUpEarly, FirstStop, AttemptsLeft;
    TurnAgrees(site, st, p, tokens(Attempts(p)), oracle);
    var t, next := LoopTurn(site, oracle, st), DurableAttempt(site, p, tokens(Attempts(p)), oracle);
    CorrespondsTask(site, st, p);
    PartsWhereItGivesUp(site, oracle, st);
    if PartsAt(site, oracle, st) {
      NotExhausted(site, st, p);
      GoesOnOnce(site, oracle, st);
      assert Drive(site, next, tokens, oracle) == next;
    } else {
      NotExhausted(site, st, p);
      if t.Continue? {
        NoFallbackToUse(site, oracle, st);
        EarlyShift(site, oracle, st);
        Differs(site, t.next, next, tokens, oracle);
      }
    }
  }

  lemma NotExhausted(site: Site, st: Loop, p: Progress)
    requires Corresponds(site, st, p) && Equipped(site)
    ensures !Exhausted(site.step, st) && st.task in site.tasks
  {
  }

  lemma NoFallbackToUse(site: Site, oracle: Oracle, st: Loop)
    requires GivesUpEarly(site, oracle, st.attempts + 1) && !st.usedFallback && LoopTurn(site, oracle, st).Continue?
    ensures !LoopTurn(site, oracle, st).next.usedFallback
  {
    hide AttemptsLeft, FirstStop;
  }

  /** After the permanent error the loop runs the task again. */
  lemma GoesOnOnce(site: Site, oracle: Oracle, st: Loop)
    requires PartsAt(site, oracle, st) && st.task in site.tasks && !Exhausted(site.step, st)
    ensures LoopResult(site, oracle, st).record.attempts > st.attempts + 1
  {
    hide AttemptsLeft;
    var t := LoopTurn(site, oracle, st);
    assert t.next.task == st.task && !Exhausted(site.step, t.next);
    assert LoopResult(site, oracle, st) == LoopResult(site, oracle, t.next);
    var again := LoopTurn(site, oracle, t.next);
    if again.Continue? {
      assert LoopResult(site, oracle, t.next) == LoopResult(site, oracle, again.next);
    }
  }

  /** The loop and the durable worker reach the same outcome for all task results, except exactly when
      the primary, without a fallback, fails permanently before its budget is spent. */
  lemma LoopRefinesDurable(site: Site, tokens: nat -> nat, oracle: Oracle)
    requires Equipped(site)
    ensures SameOutcome(RunStep(site.run, site.step, site.tasks.Keys, oracle, site.input),
                        Drive(site, Progress(None, []), tokens, oracle))
        <==> !GivesUpEarly(site, oracle, 1)
  {
    hide GivesUpEarly, Drive;
    var st, p := Begin(site.step), Progress(None, []);
    assert Corresponds(site, st, p);
    if GivesUpEarly(site, oracle, 1) {
      Differs(site, st, p, tokens, oracle);
    } else {
      Agrees(site, st, p, tokens, oracle);
    }
  }

  /** The policy speaks of transient failures and timeouts, yet without a fallback the loop runs a
      task again that failed permanently; the durable worker does not. */
  lemma LoopRepeatsPermanentErrors(site: Site, tokens: nat -> nat)
    requires Equipped(site) && site.step.policy.fallbackTask.None? && Budget(site.step) >= 2
    ensures var oracle: Oracle := (_, _, _, _) => Err(Permanent("rejected"));
            && Attempts(Drive(site, Progress(None, []), tokens, oracle)) == 1
            && RunStep(site.run, site.step, site.tasks.Keys, oracle, site.input).record.attempts > 1
  {
    hide Drive, AttemptsLeft;
    var oracle: Oracle := (_, _, _, _) => Err(Permanent("rejected"));
    var st, p := Begin(site.step), Progress(None, []);
    assert Corresponds(site, st, p) && PartsAt(site, oracle, st);
    TurnAgrees(site, st, p, tokens(0), oracle);
    var next := DurableAttempt(site, p, tokens(0), oracle);
    DriveOnce(site, p, tokens, oracle);
    DriveOnce(site, next, tokens, oracle);
    GoesOnOnce(site, oracle, st);
  }

  lemma DriveOnce(site: Site, p: Progress, tokens: nat -> nat, oracle: Oracle)
    ensures Drive(site, p, tokens, oracle)
         == if !Available(p.record, site.step, Due(p)) || CurrentTask(p.record, site.step) !in site.tasks then p
            else Drive(site, DurableAttempt(site, p, tokens(Attempts(p)), oracle), tokens, oracle)
  {
  }
}
