/** The wait of the retry policy, from a worker's report to the next claim, in both repositories. */
module WorkerBackoff {
  import opened Types
  import opened Policy
  import opened Effects
  import opened RunInvariant
  import opened RunMachine
  import opened Operations
  import opened Durable
  import Memory = MemoryStore
  import PG = PostgresStore
  import MS = MemorySystem
  import MT = MemoryTheorems
  import PS = PostgresSystem
  import PT = PostgresTheorems

  /** The operation is the worker's report, for the claim it names, of an error that may pass, with an
      attempt left in the budget. */
  predicate ReportsPassing(op: Op, issued: IssuedClaims, error: TaskError) {
    && op.OpComplete? && (error.Transient? || error.Timeout?)
    && var named := ClaimNamed(issued, op.run, op.step, op.attempt);
       && named.Some? && BudgetLeft(named.value.step, op.attempt)
       && op.completion == CompletionFor(named.value, Err(error))
  }

  /** Not before `wait` has passed since the report. */
  predicate DueAfter(op: Op, wait: nat, due: nat)
    requires op.OpComplete?
  {
    Falls(due, op.now, wait)
  }

  /** The waits the policy promises after an attempt: in closed form, at least the initial delay if the
      multiplier is not 0, and the clamped power where that is what the closed form gives. */
  predicate Promised(d: RetryDelay, attempt: nat, wait: nat)
    requires attempt >= 1
  {
    || wait == WaitAfter(d, attempt)
    || (d.multiplier >= 1 && wait == d.initialMs)
    || (d.initialMs > 0 && wait == IdealDelay(d, attempt)
        && (|| (Pow(d.multiplier, attempt - 1) <= U32_MAX && (attempt <= 21 || d.multiplier <= 1))
            || Max(d.maxMs, d.initialMs) <= d.initialMs * CappedFactor(d, attempt)))
  }

  lemma PromisedAtMost(d: RetryDelay, attempt: nat, wait: nat)
    requires attempt >= 1 && DelayFits(d) && Promised(d, attempt, wait)
    ensures wait <= WaitAfter(d, attempt)
  {
    hide Pow;
    ForAttemptIsClampedFactor(d, attempt);
    if d.initialMs > 0 {
      DelayBounds(d, attempt);
      DelayIsIdealIff(d, attempt);
    }
  }

  /** What the report asks for is at least the promised wait. */
  lemma ReportAsks(op: Op, issued: IssuedClaims, error: TaskError, wait: nat, due: nat)
    requires ReportsPassing(op, issued, error)
    requires ClaimNamed(issued, op.run, op.step, op.attempt).value.attempt == op.attempt
    requires var d := ClaimNamed(issued, op.run, op.step, op.attempt).value.step.policy.retry.delay;
             DelayFits(d) && Promised(d, op.attempt, wait) && DueAfter(op, wait, due)
    ensures op.completion.retryAfterMs.Some? && due <= MT.RetryDue(op)
  {
    hide ClaimNamed, WaitAfter, Promised, CompletionFor;
    var claim := ClaimNamed(issued, op.run, op.step, op.attempt).value;
    CompletionReports(claim, Err(error));
    PromisedAtMost(claim.step.policy.retry.delay, op.attempt, wait);
  }

  lemma MemoryNamesAttempt(x: MS.System, run: RunId, step: StepId, attempt: nat)
    requires MS.SystemInv(x) && ClaimNamed(x.issued, run, step, attempt).Some?
    ensures ClaimNamed(x.issued, run, step, attempt).value.attempt == attempt
  {
    hide MS.SystemInv, RunInv;
    MS.NamedClaimFits(x, run, step, attempt);
    MT.RunInOrder(x, run);
    FiledByAttempt(MS.TrackedRun(x, run), step, attempt);
  }

  lemma PostgresNamesAttempt(x: PS.Server, run: RunId, step: StepId, attempt: nat)
    requires PS.ServerInv(x) && ClaimNamed(x.issued, run, step, attempt).Some?
    ensures ClaimNamed(x.issued, run, step, attempt).value.attempt == attempt
  {
    hide PS.ServerInv, RunInv;
    PS.NamedClaimFits(x, run, step, attempt);
    PS.RowFacts(x, run);
    FiledByAttempt(PS.TrackedRow(x, run), step, attempt);
  }

  /** In memory: once the report is accepted, whatever happens next, no worker is handed the next attempt
      before the promised wait has passed. */
  lemma MemoryWaits(x: MS.System, report: Op, error: TaskError, ops: seq<Op>, claim: Op, wait: nat, due: nat)
    requires MS.SystemInv(x) && ReportsPassing(report, x.issued, error)
    requires var named := ClaimNamed(x.issued, report.run, report.step, report.attempt).value;
             && Memory.CompleteStep(x.store, named, report.completion, report.now).1.Ok?
             && DelayFits(named.step.policy.retry.delay)
             && Promised(named.step.policy.retry.delay, report.attempt, wait) && DueAfter(report, wait, due)
    requires claim.OpClaim? && claim.run == report.run
    ensures var y := MS.PerformAll(MS.Perform(x, report), ops);
            !MT.TooEarly(MT.Granted(y, claim), report.step, report.attempt + 1, claim.now, due)
  {
    hide MS.SystemInv, MS.Perform, MS.PerformAll, MT.Granted, Memory.CompleteStep, ClaimNamed, Promised,
      CompletionFor, BudgetLeft;
    MemoryNamesAttempt(x, report.run, report.step, report.attempt);
    ReportAsks(report, x.issued, error, wait, due);
    MT.BackoffRespected(x, report, ops, claim);
  }

  /** And the same in PostgreSQL. */
  lemma PostgresWaits(x: PS.Server, report: Op, error: TaskError, ops: seq<Op>, claim: Op, wait: nat, due: nat)
    requires PS.ServerInv(x) && ReportsPassing(report, x.issued, error)
    requires var named := ClaimNamed(x.issued, report.run, report.step, report.attempt).value;
             && PG.Complete(x.table, named, report.completion, report.now).1.Ok?
             && DelayFits(named.step.policy.retry.delay)
             && Promised(named.step.policy.retry.delay, report.attempt, wait) && DueAfter(report, wait, due)
    requires claim.OpClaim? && claim.run == report.run
    ensures var y := PS.PerformAll(PS.Perform(x, report), ops);
            !MT.TooEarly(PT.Obtained(y, claim), report.step, report.attempt + 1, claim.now, due)
  {
    hide PS.ServerInv, PS.Perform, PS.PerformAll, PT.Obtained, PG.Complete, ClaimNamed, Promised, CompletionFor,
      BudgetLeft;
    PostgresNamesAttempt(x, report.run, report.step, report.attempt);
    ReportAsks(report, x.issued, error, wait, due);
    PT.BackoffRespected(x, report, ops, claim);
  }
}
