/** The durable workers and the in-process executor agree on whole runs: in any history in which every
    completion reports what the task answered and no lease expires, with any interleaving of workers,
    the stored outputs are those of the recursive evaluation of the graph. */
module WholeRuns {
  import opened Types
  import opened Workflows
  import opened Evaluation
  import opened Policy
  import opened Transitions
  import opened StepInvariant
  import opened RunInvariant
  import opened RunTheorems
  import opened RunMachine
  import opened Operations
  import opened StepLoop
  import opened Durable
  import opened LoopRefinement
  import opened Scheduler
  import opened Executor
  import Memory = MemoryStore
  import Traces = MemoryTraces
  import MS = MemorySystem
  import MT = MemoryTheorems

  /** The step as both executors see it; who works on it and for how long does not matter. */
  function Place(run: RunRecord, s: StepSpec): Site {
    Site(run.runId, run.workflow.id, run.manifest.tasks, s, StepInput(run, s), "", 0, false)
  }

  /** What the in-process loop makes of the step. */
  function Expected(site: Site, oracle: Oracle): StepRecord {
    LoopResult(site, oracle, Begin(site.step)).record
  }

  // How a stored record follows the loop.

  /** The loop passes through these variables between two attempts, and the record corresponds. */
  ghost predicate Reached(site: Site, oracle: Oracle, st: Loop, p: Progress) {
    && Corresponds(site, st, p)
    && LoopResult(site, oracle, st).record == Expected(site, oracle)
    && (!st.usedFallback ==> GivesUpEarly(site, oracle, st.attempts + 1) == GivesUpEarly(site, oracle, 1))
  }

  /** The record is in the attempt that follows. */
  ghost predicate InAttempt(site: Site, r: StepRecord, p: Progress) {
    && r.id == site.step.id && r.task == CurrentTask(p.record, site.step) && r.attempts == Attempts(p) + 1
    && r.fallbackUsed == (p.record.Some? && p.record.value.fallbackUsed)
  }

  predicate SameResult(a: StepRecord, r: StepRecord) {
    && a.id == r.id && a.status == r.status && a.task == r.task && a.attempts == r.attempts
    && a.fallbackUsed == r.fallbackUsed && a.output == r.output && a.error == r.error
  }

  ghost predicate OnCourse(site: Site, oracle: Oracle, r: StepRecord) {
    match r.status
    case Running => exists st, p :: Reached(site, oracle, st, p) && InAttempt(site, r, p)
    case Retrying => exists st: Loop :: Reached(site, oracle, st, Progress(Some(r), st.events))
    case Succeeded => SameResult(Expected(site, oracle), r)
    case Failed => GivesUpEarly(site, oracle, 1) || SameResult(Expected(site, oracle), r)
    case Cancelled => true
    case Pending => false
  }

  /** A first claim, or one after a retry, starts the next attempt of the loop. */
  lemma ClaimOnCourse(site: Site, oracle: Oracle, prior: Option<StepRecord>, r: StepRecord)
    requires prior.Some? ==> OnCourse(site, oracle, prior.value) && prior.value.status.Retrying?
    requires InAttempt(site, r, Progress(prior, [])) && r.status.Running?
    ensures OnCourse(site, oracle, r)
  {
    hide GivesUpEarly, LoopResult;
    if prior.None? {
      assert Reached(site, oracle, Begin(site.step), Progress(None, []));
    } else {
      var st: Loop :| Reached(site, oracle, st, Progress(prior, st.events));
      assert InAttempt(site, r, Progress(prior, st.events));
    }
  }

  /** The record agrees with that of one durable attempt, whoever made it and when. */
  predicate Alike(a: StepRecord, b: StepRecord) {
    && a.id == b.id && a.status == b.status && a.task == b.task && a.attempts == b.attempts
    && a.fallbackUsed == b.fallbackUsed && a.output == b.output && a.error == b.error && a.lease.None? && b.lease.None?
  }

  /** A claim of the running attempt. */
  ghost predicate ClaimFor(site: Site, r: StepRecord, claim: StepClaim) {
    && claim.runId == site.run && claim.step == site.step && claim.input == site.input
    && claim.task.id == r.task && claim.attempt == r.attempts && claim.fallbackUsed == r.fallbackUsed
  }

  function ReportOf(claim: StepClaim, oracle: Oracle): StepCompletion {
    CompletionFor(claim, oracle(claim.step.id, claim.task.id, claim.attempt, claim.input))
  }

  /** Completing a running attempt with the task's answer is one durable attempt. */
  lemma CompletionIsAttempt(site: Site, oracle: Oracle, st: Loop, p: Progress, r: StepRecord, claim: StepClaim,
                            now: nat)
    requires Equipped(site) && Corresponds(site, st, p) && InAttempt(site, r, p) && ClaimFor(site, r, claim)
    requires r.status.Running?
    ensures CurrentTask(p.record, site.step) in site.tasks
    ensures var next := DurableAttempt(site, p, 0, oracle);
            next.record.Some? && Alike(CompleteRecord(r, ReportOf(claim, oracle), now), next.record.value)
  {
    hide Available, TurnOf, ForAttempt, CloseAttempt;
    ClaimFacts(site, st, p, 0);
    AttemptFacts(site, st, p, 0, oracle);
    hide DurableAttempt, LeasedRecord;
  }

  lemma CompleteOnCourse(site: Site, oracle: Oracle, r: StepRecord, claim: StepClaim, now: nat)
    requires Equipped(site) && r.status.Running? && OnCourse(site, oracle, r) && ClaimFor(site, r, claim)
    ensures OnCourse(site, oracle, CompleteRecord(r, ReportOf(claim, oracle), now))
  {
    hide Corresponds, TurnOf, DurableAttempt, CompleteRecord, GivesUpEarly, FirstStop, PartsAt, ReportOf, Available,
      Begin;
    var st, p :| Reached(site, oracle, st, p) && InAttempt(site, r, p);
    var after := CompleteRecord(r, ReportOf(claim, oracle), now);
    CompletionIsAttempt(site, oracle, st, p, r, claim, now);
    TurnAgrees(site, st, p, 0, oracle);
    CorrespondsTask(site, st, p);
    var t, next := LoopTurn(site, oracle, st), DurableAttempt(site, p, 0, oracle);
    if PartsAt(site, oracle, st) {
      PartedIsFailed(site, oracle, st, p);
    } else if t.Continue? {
      StillReached(site, oracle, st, p, after);
    } else {
      assert LoopResult(site, oracle, st) == t.result;
    }
  }

  /** Where the two part the stored step fails, and the loop has given up early. */
  lemma PartedIsFailed(site: Site, oracle: Oracle, st: Loop, p: Progress)
    requires Equipped(site) && Reached(site, oracle, st, p) && PartsAt(site, oracle, st)
    requires CurrentTask(p.record, site.step) in site.tasks
    ensures GivesUpEarly(site, oracle, 1)
    ensures var next := DurableAttempt(site, p, 0, oracle); next.record.Some? && next.record.value.status.Failed?
  {
    hide FirstStop, GivesUpEarly, DurableAttempt, ReportMade, LoopResult, LoopTurn;
    CorrespondsTask(site, st, p);
    PartsWhereItGivesUp(site, oracle, st);
    AttemptFacts(site, st, p, 0, oracle);
    ReportFacts(site, st, p, 0, oracle);
  }

  lemma StillReached(site: Site, oracle: Oracle, st: Loop, p: Progress, after: StepRecord)
    requires Equipped(site) && Reached(site, oracle, st, p) && !PartsAt(site, oracle, st)
    requires CurrentTask(p.record, site.step) in site.tasks
    requires LoopTurn(site, oracle, st).Continue?
    requires var t, next := LoopTurn(site, oracle, st), DurableAttempt(site, p, 0, oracle);
             Corresponds(site, t.next, next) && next.record.Some? && Alike(after, next.record.value)
    ensures OnCourse(site, oracle, after)
  {
    hide TurnOf, DurableAttempt, GivesUpEarly, FirstStop, PartsAt, Begin;
    var next := LoopTurn(site, oracle, st).next;
    assert LoopResult(site, oracle, next) == LoopResult(site, oracle, st);
    if !next.usedFallback {
      EarlyShift(site, oracle, st);
    }
    assert Reached(site, oracle, next, Progress(Some(after), next.events));
  }

  // Whole runs.

  /** Every stored record follows the loop on the outputs of its dependencies. */
  ghost predicate AllOnCourse(run: RunRecord, oracle: Oracle) {
    forall s :: s in run.workflow.steps && s.id in run.steps ==> OnCourse(Place(run, s), oracle, run.steps[s.id])
  }

  /** Completions report what the task answered. */
  predicate Truthful(m: Move, oracle: Oracle) {
    m.Complete? ==> m.completion == ReportOf(m.claim, oracle)
  }

  /** Moreover no lease expires. */
  ghost predicate Honest(x: Tracked, m: Move, oracle: Oracle) {
    && Truthful(m, oracle)
    && (m.Recover? ==> forall id :: id in x.run.steps ==> !Expired(x.run.steps[id], m.now))
  }

  /** Records with dependencies done keep their input. */
  lemma InputStays(x: Tracked, m: Move, s: StepSpec)
    requires Inv(x) && Legal(x, m) && s in x.run.workflow.steps
    requires DependenciesDone(x.run.steps, s)
    ensures Place(Next(x, m).run, s) == Place(x.run, s)
    ensures DependenciesDone(Next(x, m).run.steps, s)
  {
    hide RunInv, Legal, Next;
    MT.MoveConstants(x, m);
    var a, b := x.run.steps, Next(x, m).run.steps;
    forall d | d in s.dependsOn ensures d in b && b[d].status.Succeeded? && b[d].output == a[d].output {
      SuccessIsFinal(x, m, d);
    }
    assert DependencyOutputs(a, s.dependsOn) == DependencyOutputs(b, s.dependsOn);
  }

  lemma PlaceEquipped(x: Tracked, s: StepSpec)
    requires Inv(x) && s in x.run.workflow.steps
    ensures Equipped(Place(x.run, s))
  {
    hide StepsOk, LogOk, StatusOk, ValidSteps, StepInput;
  }

  lemma StepDone(x: Tracked, s: StepSpec)
    requires Inv(x) && s in x.run.workflow.steps && s.id in x.run.steps
    ensures DependenciesDone(x.run.steps, s) && x.run.steps[s.id].id == s.id
  {
    hide LogOk, StatusOk, ManifestCovers, ValidSteps, StepInput, BudgetOk, ViewOk, ClaimsOk, HistoryOk;
    RecordOf(x.run, x.claims, s);
  }

  /** A move on the record of one step keeps it on course. */
  lemma StepOnCourse(x: Tracked, m: Move, oracle: Oracle, s: StepSpec)
    requires Inv(x) && Legal(x, m) && Honest(x, m, oracle) && AllOnCourse(x.run, oracle)
    requires s in x.run.workflow.steps && s.id in Next(x, m).run.steps
    ensures OnCourse(Place(Next(x, m).run, s), oracle, Next(x, m).run.steps[s.id])
  {
    hide RunInv, OnCourse, Legal, Next, Honest;
    if s.id in x.run.steps {
      StepDone(x, s);
      InputStays(x, m, s);
      KnownStep(x, m, oracle, s);
    } else {
      NewStep(x, m, oracle, s);
    }
  }

  lemma NewStep(x: Tracked, m: Move, oracle: Oracle, s: StepSpec)
    requires Inv(x) && Legal(x, m) && s in x.run.workflow.steps && s.id !in x.run.steps && s.id in Next(x, m).run.steps
    ensures OnCourse(Place(Next(x, m).run, s), oracle, Next(x, m).run.steps[s.id])
  {
    hide RunInv, OnCourse, CompletionMatches, EventValid, RecoverSteps, SupportsTask, EvaluateGates, StepInput;
    if m.Recover? {
      RecoveryEndsExpired(x.run, x.claims, m.last, m.now);
      assert false;
    } else {
      StepsNamed(x, m.step, s);
      ClaimOnCourse(Place(Next(x, m).run, s), oracle, None, Next(x, m).run.steps[s.id]);
    }
  }

  lemma StepsNamed(x: Tracked, s: StepSpec, t: StepSpec)
    requires Inv(x) && s in x.run.workflow.steps && t in x.run.workflow.steps && s.id == t.id
    ensures s == t
  {
    hide StepsOk, LogOk, StatusOk, ManifestCovers;
    DistinctSteps(x.run);
    SameIdSameStep(x.run.workflow.steps, s, t);
  }

  lemma KnownStep(x: Tracked, m: Move, oracle: Oracle, s: StepSpec)
    requires Inv(x) && Legal(x, m) && Honest(x, m, oracle) && AllOnCourse(x.run, oracle)
    requires s in x.run.workflow.steps && s.id in x.run.steps && s.id in Next(x, m).run.steps
    requires x.run.steps[s.id].id == s.id
    ensures OnCourse(Place(x.run, s), oracle, Next(x, m).run.steps[s.id])
  {
    hide RunInv, OnCourse, CompletionMatches, EventValid, RecoverSteps, SupportsTask, DependenciesDone,
      EvaluateGates, Place, CompleteRecord, ReportOf, CancelRecord, HasFailed, AllSucceeded;
    var site, r := Place(x.run, s), x.run.steps[s.id];
    assert OnCourse(site, oracle, r);
    match m {
      case Claim(_, step, token, leaseMs, now, clear) =>
        if step.id == s.id {
          StepsNamed(x, step, s);
          Reclaimed(x, m, oracle, s);
        }
      case Renew(claim, leaseMs, now) =>
        if claim.step.id == s.id {
          LeaseMeansRunning(x, s.id);
          RenewedOnCourse(site, oracle, r, leaseMs, now);
        }
      case Complete(claim, c, sequence, now) =>
        if claim.step.id == s.id {
          LiveClaim(x, claim, s, now);
          PlaceEquipped(x, s);
          CompleteOnCourse(site, oracle, r, claim, now);
        }
      case Cancel(_, now) => CancelledOnCourse(site, oracle, r, now);
      case Recover(last, now) => RecoveryEndsExpired(x.run, x.claims, last, now);
      case Stay =>
      case Record(_, _) =>
      case Finish(_, _) =>
    }
  }

  lemma Reclaimed(x: Tracked, m: Move, oracle: Oracle, s: StepSpec)
    requires Inv(x) && Legal(x, m) && m.Claim? && m.step == s && s.id in x.run.steps
    requires OnCourse(Place(x.run, s), oracle, x.run.steps[s.id]) && x.run.steps[s.id].id == s.id
    ensures s.id in Next(x, m).run.steps && OnCourse(Place(x.run, s), oracle, Next(x, m).run.steps[s.id])
  {
    hide RunInv, OnCourse, SupportsTask, DependenciesDone, StepInput, TokensUpTo;
    LeaseMeansRunning(x, s.id);
    ClaimOnCourse(Place(x.run, s), oracle, Some(x.run.steps[s.id]), Next(x, m).run.steps[s.id]);
  }

  lemma RenewedOnCourse(site: Site, oracle: Oracle, r: StepRecord, leaseMs: nat, now: nat)
    requires r.lease.Some? && OnCourse(site, oracle, r)
    ensures r.status.Running? ==> OnCourse(site, oracle, RenewRecord(r, leaseMs, now))
  {
    hide Reached, Deadline, GivesUpEarly;
    if r.status.Running? {
      var st, p :| Reached(site, oracle, st, p) && InAttempt(site, r, p);
      assert InAttempt(site, RenewRecord(r, leaseMs, now), p);
    }
  }

  lemma CancelledOnCourse(site: Site, oracle: Oracle, r: StepRecord, now: nat)
    requires OnCourse(site, oracle, r)
    ensures OnCourse(site, oracle, CancelRecord(r, now))
  {
    hide Reached, InAttempt, GivesUpEarly, SameResult;
  }

  /** The claim that holds the step is for its running attempt, with the input the step has now. */
  lemma LiveClaim(x: Tracked, claim: StepClaim, s: StepSpec, now: nat)
    requires Inv(x) && Issued(x.claims, claim) && HoldsLease(x.run, claim, now) && claim.step.id == s.id
    requires s in x.run.workflow.steps && s.id in x.run.steps
    ensures x.run.steps[s.id].status.Running? && ClaimFor(Place(x.run, s), x.run.steps[s.id], claim)
  {
    hide LogOk, StatusOk, ManifestCovers, ValidSteps, StepsOk, StepInput, BudgetOk, ViewOk, HistoryOk;
    HolderIsLast(x.run, x.claims, claim, now);
    RecordOf(x.run, x.claims, s);
    var k :| 0 <= k < |x.claims[s.id]| && x.claims[s.id][k] == claim;
    assert ClaimOk(ContextOf(x.run, s), claim, x.run.steps[s.id].history[k]);
    ManifestKeyed(x.run, x.claims, x.run.steps[s.id].task);
  }

  /** Every honest move keeps the whole run on course. */
  lemma MoveOnCourse(x: Tracked, m: Move, oracle: Oracle)
    requires Inv(x) && Legal(x, m) && Honest(x, m, oracle) && AllOnCourse(x.run, oracle)
    ensures AllOnCourse(Next(x, m).run, oracle)
  {
    hide RunInv, OnCourse, Legal, Next, Honest, Place;
    MT.MoveConstants(x, m);
    forall s | s in Next(x, m).run.workflow.steps && s.id in Next(x, m).run.steps
      ensures OnCourse(Place(Next(x, m).run, s), oracle, Next(x, m).run.steps[s.id])
    {
      StepOnCourse(x, m, oracle, s);
    }
  }

  // Agreement with the recursive evaluation.

  function JobOf(run: RunRecord, oracle: Oracle): Job {
    Job(run.runId, run.workflow, run.input, run.manifest.tasks, oracle)
  }

  /** The record is what the evaluation of the graph says, unless the step failed early. */
  ghost predicate Evaluates(run: RunRecord, oracle: Oracle, s: StepSpec)
    requires Acyclic(run.workflow.steps) && s.id in run.steps
  {
    var m, r := Solution(JobOf(run, oracle)), run.steps[s.id];
    && (r.status.Succeeded? ==> s.id in m && SameResult(m[s.id], r))
    && (r.status.Failed? ==> s.id in m && (GivesUpEarly(Place(run, s), oracle, 1) || SameResult(m[s.id], r)))
  }

  lemma DependenciesAgree(x: Tracked, oracle: Oracle, s: StepSpec)
    requires Inv(x) && AllOnCourse(x.run, oracle) && Acyclic(x.run.workflow.steps)
    requires s in x.run.workflow.steps && s.id in x.run.steps
    requires forall t :: t in x.run.workflow.steps && t.id in x.run.steps && t.id in s.dependsOn ==>
               Evaluates(x.run, oracle, t)
    ensures Evaluates(x.run, oracle, s)
  {
    hide RunInv, Solution, Acyclic, Run, GivesUpEarly;
    var run, job := x.run, JobOf(x.run, oracle);
    var m := Solution(job);
    StepDone(x, s);
    forall d | d in s.dependsOn
      ensures d in m && d in run.steps && m[d].status.Succeeded? && m[d].output == run.steps[d].output
    {
      var t := SpecOf(x, d);
    }
    assert DependencyOutputs(m, s.dependsOn) == DependencyOutputs(run.steps, s.dependsOn);
    assert Solves(job, m);
    assert m[s.id] == ResultOf(job, s, m).record;
    assert OnCourse(Place(run, s), oracle, run.steps[s.id]);
  }

  lemma SpecOf(x: Tracked, id: StepId) returns (s: StepSpec)
    requires Inv(x) && id in x.run.steps
    ensures s in x.run.workflow.steps && s.id == id
  {
    hide LogOk, StatusOk, ManifestCovers, ValidSteps, StepInv;
    s := StepOf(x.run, x.claims, id);
  }

  lemma {:induction false} PrefixAgrees(x: Tracked, oracle: Oracle, order: seq<StepId>, n: nat)
    requires Inv(x) && AllOnCourse(x.run, oracle) && TopologicalOrder(x.run.workflow.steps, order) && n <= |order|
    ensures Acyclic(x.run.workflow.steps)
    ensures forall s :: s in x.run.workflow.steps && s.id in x.run.steps && s.id in order[..n] ==>
              Evaluates(x.run, oracle, s)
  {
    hide RunInv, Evaluates, AllOnCourse, NoDuplicates;
    if n > 0 {
      PrefixAgrees(x, oracle, order, n - 1);
      var id := order[n - 1];
      assert order[..n] == order[..n - 1] + [id];
      forall s | s in x.run.workflow.steps && s.id in x.run.steps && s.id in order[..n]
        ensures Evaluates(x.run, oracle, s)
      {
        if s.id == id {
          forall d | d in s.dependsOn ensures d in order[..n - 1] {}
          DependenciesAgree(x, oracle, s);
        }
      }
    }
  }

  /** Every stored success carries the result of the recursive evaluation, and so does every failure
      other than one on a permanent error with budget left and no fallback. */
  lemma StoredResultsAgree(x: Tracked, oracle: Oracle)
    requires Inv(x) && AllOnCourse(x.run, oracle)
    ensures Acyclic(x.run.workflow.steps)
    ensures forall s :: s in x.run.workflow.steps && s.id in x.run.steps ==> Evaluates(x.run, oracle, s)
  {
    hide StepsOk, LogOk, StatusOk, ManifestCovers, Evaluates, AllOnCourse;
    var order :| TopologicalOrder(x.run.workflow.steps, order);
    PrefixAgrees(x, oracle, order, |order|);
    assert order[..|order|] == order;
  }

  /** No step fails on a permanent error while its budget lasts and it has no fallback. */
  ghost predicate NoneGivesUpEarly(run: RunRecord, oracle: Oracle) {
    forall s :: s in run.workflow.steps && s.id in run.steps ==> !GivesUpEarly(Place(run, s), oracle, 1)
  }

  lemma SuccessMeansSolved(x: Tracked, oracle: Oracle)
    requires Inv(x) && AllOnCourse(x.run, oracle) && AllSucceeded(x.run)
    ensures Acyclic(x.run.workflow.steps)
    ensures var m := Solution(JobOf(x.run, oracle));
            && !Fails(m) && m.Keys == x.run.steps.Keys
            && forall id :: id in m ==> SameResult(m[id], x.run.steps[id])
  {
    hide RunInv, AllOnCourse, Solution, GivesUpEarly, Acyclic;
    StoredResultsAgree(x, oracle);
    var m := Solution(JobOf(x.run, oracle));
    assert Solves(JobOf(x.run, oracle), m);
    AllRecorded(x);
    forall id | id in x.run.steps ensures id in m && SameResult(m[id], x.run.steps[id]) {
      var s := SpecOf(x, id);
      assert Evaluates(x.run, oracle, s);
    }
  }

  lemma AllRecorded(x: Tracked)
    requires Inv(x) && AllSucceeded(x.run)
    ensures x.run.steps.Keys == Ids(x.run.workflow.steps)
  {
    hide StepOk, LogOk, StatusOk, ManifestCovers;
    DistinctSteps(x.run);
    IdCount(x.run.workflow.steps);
    SubsetCount(x.run.steps.Keys, Ids(x.run.workflow.steps));
  }

  lemma FailureMeansFails(x: Tracked, oracle: Oracle)
    requires Inv(x) && AllOnCourse(x.run, oracle) && HasFailed(x.run) && NoneGivesUpEarly(x.run, oracle)
    ensures Acyclic(x.run.workflow.steps) && Fails(Solution(JobOf(x.run, oracle)))
  {
    hide RunInv, AllOnCourse, Solution, GivesUpEarly, Acyclic, Place;
    StoredResultsAgree(x, oracle);
    var id :| id in x.run.steps && x.run.steps[id].status.Failed?;
    var s := SpecOf(x, id);
    assert Evaluates(x.run, oracle, s);
  }

  /** A durable run that has come to its verdict has the status the in-process executor gives the same
      job and metrics, with the same decisions and, if it went through, the same results. */
  lemma DurableAgreesWithLocal(x: Tracked, oracle: Oracle, local: RunRecord)
    requires Inv(x) && AllOnCourse(x.run, oracle) && x.run.manifest.gates == x.run.workflow.gates
    requires x.run.status.RunSucceeded? || (x.run.status.RunFailed? && NoneGivesUpEarly(x.run, oracle))
    requires Acyclic(x.run.workflow.steps) && Outcome(JobOf(x.run, oracle), x.run.metrics, local)
    ensures local.status == x.run.status && local.gateDecisions == x.run.gateDecisions
    ensures AllSucceeded(x.run) ==>
              && local.steps.Keys == x.run.steps.Keys
              && forall id :: id in local.steps ==> SameResult(local.steps[id], x.run.steps[id])
  {
    hide StepsOk, LogOk, ManifestCovers, ValidSteps, AllOnCourse, Solution, Acyclic, Logged, FailedBy,
      EvaluateGates, AllPassed, NoneGivesUpEarly, AllSucceeded, HasFailed;
    if AllSucceeded(x.run) {
      SuccessMeansSolved(x, oracle);
    }
    if HasFailed(x.run) {
      NotBoth(x.run);
      FailureMeansFails(x, oracle);
    }
  }

  lemma NotBoth(run: RunRecord)
    ensures HasFailed(run) ==> !AllSucceeded(run)
  {
  }

  // Histories.

  /** The clients report what the task answered. */
  predicate TruthfulOp(op: Op, id: RunId, issued: IssuedClaims, oracle: Oracle) {
    op.OpComplete? && op.run == id ==>
      var claim := ClaimNamed(issued, id, op.step, op.attempt);
      claim.Some? ==> op.completion == ReportOf(claim.value, oracle)
  }

  /** Moreover they recover only while no lease of the run has expired. */
  ghost predicate HonestOp(op: Op, id: RunId, run: RunRecord, issued: IssuedClaims, oracle: Oracle) {
    && TruthfulOp(op, id, issued, oracle)
    && (op.OpRecover? ==> forall step :: step in run.steps ==> !Expired(run.steps[step], op.now))
  }

  lemma TruthfulMove(op: Op, id: RunId, issued: IssuedClaims, oracle: Oracle, m: Move)
    requires CarriedBy(op, id, issued, m) && TruthfulOp(op, id, issued, oracle)
    ensures Truthful(m, oracle)
  {
    hide ReportOf, ClaimNamed;
  }

  lemma HonestMove(op: Op, id: RunId, x: Tracked, issued: IssuedClaims, oracle: Oracle, m: Move)
    requires CarriedBy(op, id, issued, m) && HonestOp(op, id, x.run, issued, oracle)
    ensures Honest(x, m, oracle)
  {
    hide ReportOf, ClaimNamed, Expired;
  }

  ghost predicate HonestHistory(ops: seq<Op>, id: RunId, oracle: Oracle) {
    forall n: nat :: n < |ops| ==>
      var x := MS.PerformAll(MS.START, ops[..n]);
      id in x.store.runs ==> HonestOp(ops[n], id, x.store.runs[id], x.issued, oracle)
  }

  /** In every honest history, with whatever interleaving of workers, cancellations and other runs, the
      run stays on course. */
  lemma {:induction false} HistoryOnCourse(ops: seq<Op>, id: RunId, oracle: Oracle)
    requires HonestHistory(ops, id, oracle)
    ensures var x := MS.PerformAll(MS.START, ops);
            && MS.SystemInv(x)
            && (id in x.store.runs ==> Inv(MS.TrackedRun(x, id)) && AllOnCourse(x.store.runs[id], oracle))
  {
    hide MS.SystemInv, MS.Perform, RunInv, AllOnCourse, HonestOp;
    MS.Reachable(ops);
    if ops != [] {
      var n := |ops| - 1;
      var init := ops[..n];
      forall k: nat | k < n ensures init[..k] == ops[..k] {}
      HistoryOnCourse(init, id, oracle);
      OpOnCourse(MS.PerformAll(MS.START, init), ops[n], id, oracle);
    }
    if id in MS.PerformAll(MS.START, ops).store.runs {
      MT.RunInOrder(MS.PerformAll(MS.START, ops), id);
    }
  }

  lemma OpOnCourse(x: MS.System, op: Op, id: RunId, oracle: Oracle)
    requires MS.SystemInv(x)
    requires id in x.store.runs ==>
               AllOnCourse(x.store.runs[id], oracle) && HonestOp(op, id, x.store.runs[id], x.issued, oracle)
    ensures id in MS.Perform(x, op).store.runs ==> AllOnCourse(MS.Perform(x, op).store.runs[id], oracle)
  {
    hide MS.SystemInv, MS.Perform, RunInv, OnCourse, HonestOp, Legal, Next, Honest;
    if id in x.store.runs {
      MT.RunInOrder(x, id);
      var m := MS.Refines(x, op, id);
      HonestMove(op, id, MS.TrackedRun(x, id), x.issued, oracle, m);
      MoveOnCourse(MS.TrackedRun(x, id), m, oracle);
    } else if id in MS.Perform(x, op).store.runs {
      CreatedEmpty(x, op, id);
    }
  }

  lemma CreatedEmpty(x: MS.System, op: Op, id: RunId)
    requires MS.SystemInv(x) && id !in x.store.runs && id in MS.Perform(x, op).store.runs
    ensures MS.Perform(x, op).store.runs[id].steps == map[]
  {
    hide MS.SystemInv, RunInv, ValidRequest, Memory.CreateRun, CreateAndLog, Traces.Creates;
    MS.RunsAfter(x, op, id);
    MS.NewRunInOrder(x, op.request);
    NothingRecorded(op.request, x.store.nextSequence + 1);
  }

  lemma NothingRecorded(request: RunRequest, sequence: nat)
    ensures CreateAndLog(request, sequence).steps == map[]
  {
  }

  /** Hence durable workers and the in-process executor agree on whole runs: whatever order the
      repository serves the steps in, a run that has come to its verdict got the in-process verdict and
      the in-process results. */
  lemma WorkersAgreeWithExecutor(ops: seq<Op>, id: RunId, oracle: Oracle, local: RunRecord)
    requires HonestHistory(ops, id, oracle) && id in MS.PerformAll(MS.START, ops).store.runs
    requires var run := MS.PerformAll(MS.START, ops).store.runs[id];
             && run.manifest.gates == run.workflow.gates
             && (run.status.RunSucceeded? || (run.status.RunFailed? && NoneGivesUpEarly(run, oracle)))
             && Acyclic(run.workflow.steps) && Outcome(JobOf(run, oracle), run.metrics, local)
    ensures var run := MS.PerformAll(MS.START, ops).store.runs[id];
            && local.status == run.status && local.gateDecisions == run.gateDecisions
            && (AllSucceeded(run) ==>
                  local.steps.Keys == run.steps.Keys
                  && forall step :: step in run.steps ==> SameResult(local.steps[step], run.steps[step]))
  {
    hide MS.PerformAll, MS.SystemInv, RunInv, AllOnCourse, HonestHistory, NoneGivesUpEarly, Acyclic, Outcome,
      AllSucceeded;
    HistoryOnCourse(ops, id, oracle);
    DurableAgreesWithLocal(MS.TrackedRun(MS.PerformAll(MS.START, ops), id), oracle, local);
  }
}
