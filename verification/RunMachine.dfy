/** One run as a state machine. Both repositories perform these moves; they only differ in how they
    draw lease tokens and event sequences, which is why both are arguments here. */
module RunMachine {
  import opened Types
  import opened Workflows
  import opened Evaluation
  import opened Policy
  import opened Transitions
  import opened StepInvariant
  import opened RunInvariant
  import opened RunTheorems
  import opened Operations

  /** A run with every claim ever issued for it. */
  datatype Tracked = Tracked(run: RunRecord, claims: Claims)

  datatype Move =
    | Stay
    | Claim(worker: WorkerProfile, step: StepSpec, token: nat, leaseMs: nat, now: nat, clearBackoff: bool)
    | Renew(claim: StepClaim, leaseMs: nat, now: nat)
    | Complete(claim: StepClaim, completion: StepCompletion, sequence: nat, now: nat)
    | Record(event: Event, sequence: nat)
    | Finish(metrics: seq<Metric>, sequence: nat)
    | Cancel(sequence: nat, now: nat)
    | Recover(last: nat, now: nat)

  ghost predicate Inv(x: Tracked) {
    RunInv(x.run, x.claims)
  }

  /** Claims presented to the run were issued for it; new tokens and sequences exceed the old ones. */
  ghost predicate Legal(x: Tracked, m: Move) {
    match m
    case Stay => true
    case Claim(worker, step, token, _, now, _) =>
      && x.run.status.RunRunning? && step in x.run.workflow.steps && Claimable(x.run, worker, step, now)
      && token > 0 && TokensUpTo(x.run, token - 1)
    case Renew(claim, _, now) => Issued(x.claims, claim) && HoldsLease(x.run, claim, now)
    case Complete(claim, c, sequence, now) =>
      && Issued(x.claims, claim) && HoldsLease(x.run, claim, now)
      && CompletionMatches(c, claim, x.run.manifest) && Fresh(x.run, sequence)
    case Record(e, sequence) => EventValid(x.run, e) && Fresh(x.run, sequence)
    case Finish(_, sequence) => Fresh(x.run, sequence)
    case Cancel(sequence, _) => x.run.status.RunRunning? && Fresh(x.run, sequence)
    case Recover(last, _) => LogUpTo(x.run, last)
  }

  ghost function Next(x: Tracked, m: Move): Tracked
    requires Legal(x, m)
  {
    match m
    case Stay => x
    case Claim(worker, step, token, leaseMs, now, clear) =>
      var (run, claim) := ClaimRun(x.run, step, worker.id, token, leaseMs, now, clear);
      Tracked(run, AddClaim(x.claims, claim))
    case Renew(claim, leaseMs, now) => x.(run := RenewRun(x.run, claim, leaseMs, now))
    case Complete(claim, c, sequence, now) => x.(run := CompleteAndLog(x.run, claim, c, sequence, now))
    case Record(e, sequence) => x.(run := AppendEvent(x.run, sequence, e))
    case Finish(metrics, sequence) => x.(run := FinishAndLog(x.run, metrics, sequence))
    case Cancel(sequence, now) => x.(run := CancelAndLog(x.run, sequence, now))
    case Recover(last, now) => x.(run := RecoverSteps(x.run, x.run.workflow.steps, last, now).0)
  }

  /** Every legal move keeps the run invariant. */
  lemma MoveKeeps(x: Tracked, m: Move)
    requires Inv(x) && Legal(x, m)
    ensures Inv(Next(x, m))
  {
    hide RunInv, Claimable, EventValid, CompletionMatches, RecoverSteps, TokensUpTo, Fresh, LogUpTo;
    match m {
      case Stay =>
      case Claim(worker, step, token, leaseMs, now, clear) =>
        ClaimKeepsRun(x.run, x.claims, worker, step, token, leaseMs, now, clear);
      case Renew(claim, leaseMs, now) => RenewKeepsRun(x.run, x.claims, claim, leaseMs, now);
      case Complete(claim, c, sequence, now) => CompleteKeepsRun(x.run, x.claims, claim, c, sequence, now);
      case Record(e, sequence) => RecordKeepsRun(x.run, x.claims, e, sequence);
      case Finish(metrics, sequence) => FinishKeepsRun(x.run, x.claims, metrics, sequence);
      case Cancel(sequence, now) => CancelKeepsRun(x.run, x.claims, sequence, now);
      case Recover(last, now) => RecoveryEndsExpired(x.run, x.claims, last, now);
    }
  }

  /** A completion is the one the operation carries, for the claim it names; recovery happens at its
      time. */
  predicate CarriedBy(op: Op, id: RunId, issued: IssuedClaims, m: Move) {
    && (m.Complete? ==>
          && op.OpComplete? && op.run == id && m.completion == op.completion
          && ClaimNamed(issued, id, op.step, op.attempt) == Some(m.claim))
    && (m.Recover? ==> op.OpRecover? && m.now == op.now)
  }

  // Facts about where leases are.

  lemma LeaseMeansRunning(x: Tracked, id: StepId)
    requires Inv(x) && id in x.run.steps
    ensures x.run.steps[id].lease.Some? <==> x.run.steps[id].status.Running?
    ensures !x.run.steps[id].status.Pending?
  {
    hide LogOk, StatusOk, StepInput, HistoryOk, ClaimsOk, BudgetOk, ViewOk, ManifestCovers, ValidSteps, StepsOk;
    var s := StepOf(x.run, x.claims, id);
  }

  /** A step without a live attempt is touched only by a claim or a cancellation. */
  lemma QuietStep(x: Tracked, m: Move, id: StepId)
    requires Inv(x) && Legal(x, m) && id in x.run.steps && !x.run.steps[id].status.Running?
    ensures id in Next(x, m).run.steps
    ensures m.Claim? && m.step.id == id ==>
              && Available(Some(x.run.steps[id]), m.step, m.now)
              && Next(x, m).run.steps[id].attempts == x.run.steps[id].attempts + 1
    ensures m.Cancel? ==> Next(x, m).run.steps[id] == CancelRecord(x.run.steps[id], m.now)
    ensures !(m.Claim? && m.step.id == id) && !m.Cancel? ==> Next(x, m).run.steps[id] == x.run.steps[id]
  {
    hide RunInv, CompletionMatches, EventValid, RecoverSteps, SupportsTask, DependenciesDone, EvaluateGates;
    LeaseMeansRunning(x, id);
    if m.Recover? {
      RecoveryEndsExpired(x.run, x.claims, m.last, m.now);
    }
  }

  // Succeeded steps and issued claims are permanent.

  /** A success and its output are never revised. */
  lemma SuccessIsFinal(x: Tracked, m: Move, id: StepId)
    requires Inv(x) && Legal(x, m) && DoneStep(x.run, id)
    ensures DoneStep(Next(x, m).run, id)
    ensures Next(x, m).run.steps[id].output == x.run.steps[id].output
  {
    hide RunInv, Next, Legal;
    QuietStep(x, m, id);
  }

  /** Issued claims are only added to. */
  lemma ClaimsGrow(x: Tracked, m: Move, id: StepId)
    requires Legal(x, m)
    ensures ClaimsFor(x.claims, id) <= ClaimsFor(Next(x, m).claims, id)
    ensures forall c :: Issued(x.claims, c) ==> Issued(Next(x, m).claims, c)
  {
    hide Claimable, EventValid, CompletionMatches, TokensUpTo, Fresh, LogUpTo;
  }

  // Fencing.

  /** The claim that holds its step: the last one issued, while the step runs. */
  ghost predicate Live(x: Tracked, c: StepClaim) {
    && c.step.id in x.run.steps && x.run.steps[c.step.id].status.Running?
    && ClaimsFor(x.claims, c.step.id) != [] && c == Last(ClaimsFor(x.claims, c.step.id))
  }

  lemma HolderIsLive(x: Tracked, c: StepClaim, now: nat)
    requires Inv(x) && Issued(x.claims, c) && HoldsLease(x.run, c, now)
    ensures Live(x, c)
  {
    hide StepsOk, LogOk, StatusOk, ManifestCovers, ValidSteps;
    HolderIsLast(x.run, x.claims, c, now);
  }

  lemma AttemptInRange(x: Tracked, c: StepClaim)
    requires Inv(x) && Issued(x.claims, c)
    ensures c.step.id in x.run.steps && c.attempt <= x.run.steps[c.step.id].attempts
    ensures x.run.steps[c.step.id].attempts == |x.claims[c.step.id]|
  {
    hide LogOk, StatusOk, ManifestCovers, ValidSteps, StepsOk, StepInput, BudgetOk, ViewOk;
    KeysMatch(x.run, x.claims);
    var id := c.step.id;
    var s := StepOf(x.run, x.claims, id);
    var i :| 0 <= i < |x.claims[id]| && x.claims[id][i] == c;
    assert ClaimOk(ContextOf(x.run, s), c, x.run.steps[id].history[i]);
  }

  /** A claim that is no longer live never becomes live again. */
  lemma RetiredStays(x: Tracked, m: Move, c: StepClaim)
    requires Inv(x) && Legal(x, m) && Issued(x.claims, c) && !Live(x, c)
    ensures Issued(Next(x, m).claims, c) && !Live(Next(x, m), c)
  {
    hide RunInv, Claimable, EventValid, CompletionMatches, TokensUpTo, Fresh, LogUpTo, RecoverSteps, CloseAttempt,
      Issued;
    ClaimsGrow(x, m, c.step.id);
    AttemptInRange(x, c);
    if !(m.Claim? && m.step.id == c.step.id) && !x.run.steps[c.step.id].status.Running? {
      QuietStep(x, m, c.step.id);
    }
  }

  /** Completing retires the claim. */
  lemma CompletionRetires(x: Tracked, m: Move)
    requires Inv(x) && Legal(x, m) && m.Complete?
    ensures !Live(Next(x, m), m.claim)
  {
    hide RunInv, EventValid, Fresh;
  }

  // Backoff.

  /** The step waits after its attempt number `attempts` until `until`, or has moved past that point. */
  predicate Waiting(run: RunRecord, id: StepId, attempts: nat, until: nat) {
    id in run.steps &&
    var r := run.steps[id];
    || r.attempts > attempts
    || (r.attempts == attempts
        && (r.status.Cancelled? || (r.status.Retrying? && r.nextAttemptAt == Some(until))))
  }

  /** A retry with a delay makes the step wait until the deadline. */
  lemma RetryStartsWaiting(x: Tracked, m: Move)
    requires Legal(x, m) && m.Complete? && m.completion.retryAfterMs.Some?
    ensures Waiting(Next(x, m).run, m.claim.step.id, x.run.steps[m.claim.step.id].attempts,
                    SatAdd(m.now, m.completion.retryAfterMs.value))
  {
    hide EventValid, Fresh;
  }

  /** Claims are filed by attempt. */
  lemma FiledByAttempt(x: Tracked, step: StepId, attempt: nat)
    requires Inv(x) && 1 <= attempt <= |ClaimsFor(x.claims, step)|
    ensures ClaimsFor(x.claims, step)[attempt - 1].attempt == attempt
  {
    hide LogOk, StatusOk, ManifestCovers, ValidSteps, StepsOk, StepInput, BudgetOk, ViewOk;
    KeysMatch(x.run, x.claims);
    var s := StepOf(x.run, x.claims, step);
    var claim := ClaimsFor(x.claims, step)[attempt - 1];
    assert ClaimOk(ContextOf(x.run, s), claim, x.run.steps[step].history[attempt - 1]);
  }

  /** The claim filed under an attempt that holds its lease is for the running attempt. */
  lemma NumberedByAttempt(x: Tracked, step: StepId, attempt: nat, now: nat)
    requires Inv(x) && 1 <= attempt <= |ClaimsFor(x.claims, step)|
    requires HoldsLease(x.run, ClaimsFor(x.claims, step)[attempt - 1], now)
    ensures step in x.run.steps && x.run.steps[step].attempts == attempt
  {
    hide LogOk, StatusOk, ManifestCovers, ValidSteps, StepsOk, StepInput, BudgetOk, ViewOk, LeaseHeld;
    KeysMatch(x.run, x.claims);
    var claim := ClaimsFor(x.claims, step)[attempt - 1];
    var s := StepOf(x.run, x.claims, step);
    assert ClaimOk(ContextOf(x.run, s), claim, x.run.steps[step].history[attempt - 1]);
    HolderIsLast(x.run, x.claims, claim, now);
  }

  lemma AttemptsNeverDrop(x: Tracked, m: Move, id: StepId)
    requires Legal(x, m) && Inv(x) && id in x.run.steps
    ensures id in Next(x, m).run.steps && Next(x, m).run.steps[id].attempts >= x.run.steps[id].attempts
  {
    hide RunInv, CompletionMatches, EventValid, RecoverSteps, Claimable, EvaluateGates;
    if m.Recover? {
      RecoveryEndsExpired(x.run, x.claims, m.last, m.now);
    }
  }

  /** Waiting lasts, and no claim of the next attempt is handed out before the deadline. */
  lemma WaitingLasts(x: Tracked, m: Move, id: StepId, attempts: nat, until: nat)
    requires Inv(x) && Legal(x, m) && Waiting(x.run, id, attempts, until)
    ensures Waiting(Next(x, m).run, id, attempts, until)
    ensures m.Claim? && m.step.id == id && Next(x, m).run.steps[id].attempts == attempts + 1 ==> m.now >= until
  {
    hide RunInv, Next, Legal, CloseAttempt;
    AttemptsNeverDrop(x, m, id);
    if x.run.steps[id].attempts == attempts {
      QuietStep(x, m, id);
    } else if m.Claim? && m.step.id == id {
      ClaimAddsAttempt(x, m);
    }
  }

  lemma ClaimAddsAttempt(x: Tracked, m: Move)
    requires Legal(x, m) && m.Claim? && m.step.id in x.run.steps
    ensures Next(x, m).run.steps[m.step.id].attempts == x.run.steps[m.step.id].attempts + 1
  {
    hide Claimable, TokensUpTo;
  }

  /** No move leads back to `Running`. */
  lemma TerminalStays(x: Tracked, m: Move)
    requires Inv(x) && Legal(x, m) && Terminal(x.run.status)
    ensures Terminal(Next(x, m).run.status)
  {
    hide RunInv, CompletionMatches, RecoverSteps, Claimable, EvaluateGates, HasFailed, AllSucceeded, AllPassed,
      EventValid;
    if m.Recover? {
      RecoverFrame(x, m);
    }
  }

  // Cancellation.

  /** Cancelled with neither a failed step nor success throughout. */
  predicate Settled(run: RunRecord) {
    run.status.RunCancelled? && !HasFailed(run) && !AllSucceeded(run)
  }

  lemma NoLeaseWhenCancelled(x: Tracked, id: StepId)
    requires Inv(x) && x.run.status.RunCancelled? && id in x.run.steps
    ensures x.run.steps[id].lease.None?
  {
    hide LogOk, StepsOk, ManifestCovers, ValidSteps, DecisionsOk;
    LeaseMeansRunning(x, id);
  }

  /** Such a run keeps its status and its steps for good. */
  lemma SettledStays(x: Tracked, m: Move)
    requires Inv(x) && Legal(x, m) && Settled(x.run)
    ensures Settled(Next(x, m).run) && Next(x, m).run.steps == x.run.steps
  {
    hide RunInv, CompletionMatches, RecoverSteps, Claimable, EvaluateGates, HasFailed, AllSucceeded;
    forall id | id in x.run.steps ensures x.run.steps[id].lease.None? {
      NoLeaseWhenCancelled(x, id);
    }
    if m.Recover? {
      RecoveryEndsExpired(x.run, x.claims, m.last, m.now);
      RecoverFrame(x, m);
    }
    StatusFrame(x.run, Next(x, m).run);
  }

  lemma StatusFrame(a: RunRecord, b: RunRecord)
    ensures a.steps == b.steps && a.workflow == b.workflow ==>
              HasFailed(a) == HasFailed(b) && AllSucceeded(a) == AllSucceeded(b)
  {
  }

  lemma RecoverFrame(x: Tracked, m: Move)
    requires Inv(x) && Legal(x, m) && m.Recover?
    ensures Next(x, m).run.status == x.run.status && SameConstants(x.run, Next(x, m).run)
  {
    hide RunInv, RecoverSteps, RecoveredRecord;
    var steps := x.run.workflow.steps;
    assert steps[..|steps|] == steps;
    RecoverPrefix(x.run, x.claims, |steps|, m.last, m.now);
  }

  // Sequences of moves.

  ghost predicate LegalAll(x: Tracked, moves: seq<Move>)
    decreases |moves|
  {
    moves == [] || (Legal(x, moves[0]) && LegalAll(Next(x, moves[0]), moves[1..]))
  }

  ghost function NextAll(x: Tracked, moves: seq<Move>): Tracked
    requires LegalAll(x, moves)
    decreases |moves|
  {
    if moves == [] then x else NextAll(Next(x, moves[0]), moves[1..])
  }

  lemma {:induction false} MovesConcatenate(x: Tracked, a: seq<Move>, b: seq<Move>)
    requires LegalAll(x, a) && LegalAll(NextAll(x, a), b)
    ensures LegalAll(x, a + b) && NextAll(x, a + b) == NextAll(NextAll(x, a), b)
    decreases |a|
  {
    hide Legal, Next;
    if a == [] {
      assert a + b == b;
    } else {
      MovesConcatenate(Next(x, a[0]), a[1..], b);
      assert (a + b)[1..] == a[1..] + b;
    }
  }
}
