/** The two repositories in lockstep: under the same operations they hold the same runs and have
    handed out the same claims, up to lease tokens, event sequences, revisions and the backoff mark
    of steps that are not waiting. */
module Lockstep {
  import opened Types
  import opened Workflows
  import opened Evaluation
  import opened Policy
  import opened Transitions
  import opened StepInvariant
  import opened RunInvariant
  import opened RunTheorems
  import opened RunMachine
  import opened Operations
  import PS = PostgresSystem

  // Sameness up to renaming.

  predicate SimLease(a: Option<StepLease>, b: Option<StepLease>) {
    match a
    case None => b.None?
    case Some(x) => b.Some? && x.worker == b.value.worker && x.expiresAt == b.value.expiresAt
  }

  predicate SimAttempt(a: StepAttempt, b: StepAttempt) {
    a.(leaseToken := 0) == b.(leaseToken := 0)
  }

  predicate SimHistory(a: seq<StepAttempt>, b: seq<StepAttempt>) {
    |a| == |b| && forall i :: 0 <= i < |a| ==> SimAttempt(a[i], b[i])
  }

  predicate SimRecord(a: StepRecord, b: StepRecord) {
    && a.(lease := None, history := [], nextAttemptAt := None)
       == b.(lease := None, history := [], nextAttemptAt := None)
    && SimLease(a.lease, b.lease) && SimHistory(a.history, b.history)
    && (a.status.Retrying? || a.status.Pending? ==> a.nextAttemptAt == b.nextAttemptAt)
  }

  predicate SimPrior(a: Option<StepRecord>, b: Option<StepRecord>) {
    match a
    case None => b.None?
    case Some(x) => b.Some? && SimRecord(x, b.value)
  }

  ghost predicate SimSteps(a: map<StepId, StepRecord>, b: map<StepId, StepRecord>) {
    forall id :: SimPrior(Find(a, id), Find(b, id))
  }

  predicate SimLog(a: seq<Envelope>, b: seq<Envelope>) {
    |a| == |b| && forall i :: 0 <= i < |a| ==> a[i].event == b[i].event
  }

  ghost predicate SimRun(a: RunRecord, b: RunRecord) {
    && a.(steps := map[], eventLog := [], revision := 0) == b.(steps := map[], eventLog := [], revision := 0)
    && SimSteps(a.steps, b.steps)
    && SimLog(a.eventLog, b.eventLog)
  }

  predicate SimClaim(a: StepClaim, b: StepClaim) {
    a.(leaseToken := 0) == b.(leaseToken := 0)
  }

  predicate SimClaimList(a: seq<StepClaim>, b: seq<StepClaim>) {
    |a| == |b| && forall i :: 0 <= i < |a| ==> SimClaim(a[i], b[i])
  }

  ghost predicate SimClaims(a: Claims, b: Claims) {
    forall id :: SimClaimList(ClaimsFor(a, id), ClaimsFor(b, id))
  }

  ghost predicate Sim(a: Tracked, b: Tracked) {
    SimRun(a.run, b.run) && SimClaims(a.claims, b.claims)
  }

  // Decisions agree.

  lemma SimDone(a: RunRecord, b: RunRecord, s: StepSpec)
    requires SimSteps(a.steps, b.steps)
    ensures DependenciesDone(a.steps, s) == DependenciesDone(b.steps, s)
    ensures DependencyOutputs(a.steps, s.dependsOn) == DependencyOutputs(b.steps, s.dependsOn)
  {
    hide SimHistory, SimLease;
    forall d ensures SimPrior(Find(a.steps, d), Find(b.steps, d)) {}
    forall d ensures d in a.steps <==> d in b.steps {
      assert SimPrior(Find(a.steps, d), Find(b.steps, d));
    }
    forall d | d in a.steps && d in b.steps
      ensures a.steps[d].status == b.steps[d].status && a.steps[d].output == b.steps[d].output
    {
      assert SimPrior(Find(a.steps, d), Find(b.steps, d));
    }
  }

  lemma SimClaimable(a: RunRecord, b: RunRecord, worker: WorkerProfile, s: StepSpec, now: nat)
    requires SimRun(a, b)
    ensures Claimable(a, worker, s, now) == Claimable(b, worker, s, now)
  {
    hide SupportsTask, DependenciesDone, DependencyOutputs, SimHistory;
    SimDone(a, b, s);
    assert SimPrior(Find(a.steps, s.id), Find(b.steps, s.id));
  }

  lemma {:induction false} SimFirst(a: RunRecord, b: RunRecord, worker: WorkerProfile, steps: seq<StepSpec>, now: nat)
    requires SimRun(a, b)
    ensures FirstClaimable(a, worker, steps, now) == FirstClaimable(b, worker, steps, now)
  {
    hide SimRun, Claimable;
    if steps != [] {
      SimClaimable(a, b, worker, steps[0], now);
      SimFirst(a, b, worker, steps[1..], now);
    }
  }

  // Records change alike.

  lemma SimClaimRecord(a: Option<StepRecord>, b: Option<StepRecord>, s: StepSpec, worker: WorkerId, t1: nat, t2: nat,
                       leaseMs: nat, now: nat, c1: bool, c2: bool)
    requires SimPrior(a, b)
    ensures SimRecord(ClaimRecord(a, s, worker, t1, leaseMs, now, c1), ClaimRecord(b, s, worker, t2, leaseMs, now, c2))
  {
  }

  lemma SimClose(a: seq<StepAttempt>, b: seq<StepAttempt>, now: nat, status: StepStatus, error: Option<string>)
    requires SimHistory(a, b)
    ensures SimHistory(CloseAttempt(a, now, status, error), CloseAttempt(b, now, status, error))
  {
  }

  lemma SimComplete(a: StepRecord, b: StepRecord, c: StepCompletion, now: nat)
    requires SimRecord(a, b)
    ensures SimRecord(CompleteRecord(a, c, now), CompleteRecord(b, c, now))
  {
    hide CloseAttempt, SimHistory;
    SimClose(a.history, b.history, now, c.status, c.error);
  }

  lemma SimRecover(run: RunId, s: StepSpec, a: StepRecord, b: StepRecord, now: nat)
    requires SimRecord(a, b)
    ensures SimRecord(RecoverRecord(run, s, a, now).0, RecoverRecord(run, s, b, now).0)
    ensures RecoverRecord(run, s, a, now).1 == RecoverRecord(run, s, b, now).1
  {
    hide CloseAttempt, SimHistory;
    var next := RecoverRecord(run, s, a, now).0;
    SimClose(a.history, b.history, now, next.status, next.error);
  }

  lemma SimCancel(a: StepRecord, b: StepRecord, now: nat)
    requires SimRecord(a, b)
    ensures SimRecord(CancelRecord(a, now), CancelRecord(b, now))
  {
    if a.history != [] {
      assert SimAttempt(a.history[|a.history| - 1], b.history[|b.history| - 1]);
    }
  }

  // Runs change alike.

  lemma SimUpdate(a: map<StepId, StepRecord>, b: map<StepId, StepRecord>, id: StepId, x: StepRecord, y: StepRecord)
    requires SimSteps(a, b) && SimRecord(x, y)
    ensures SimSteps(a[id := x], b[id := y])
  {
    hide SimRecord;
    var a2, b2 := a[id := x], b[id := y];
    forall k ensures SimPrior(Find(a2, k), Find(b2, k)) {
      assert SimPrior(Find(a, k), Find(b, k));
    }
  }

  lemma SimAppend(a: RunRecord, b: RunRecord, q1: nat, q2: nat, e: Event)
    requires SimRun(a, b)
    ensures SimRun(AppendEvent(a, q1, e), AppendEvent(b, q2, e))
  {
    hide SimSteps;
  }

  lemma SimTouch(a: RunRecord, b: RunRecord, c: RunRecord)
    requires SimRun(a, b) && PS.SameButRevision(c, b)
    ensures SimRun(a, c)
  {
    hide SimSteps, SimLog;
  }

  lemma SimAt(a: RunRecord, b: RunRecord, id: StepId)
    requires SimRun(a, b)
    ensures id in a.steps <==> id in b.steps
    ensures id in a.steps ==> SimRecord(a.steps[id], b.steps[id])
  {
    hide SimRecord, SimLog;
    assert SimPrior(Find(a.steps, id), Find(b.steps, id));
  }

  lemma SimClaimRun(a: Tracked, b: Tracked, s: StepSpec, worker: WorkerId, t1: nat, t2: nat, leaseMs: nat,
      now: nat, c1: bool, c2: bool)
    requires Sim(a, b) && CurrentTask(Find(a.run.steps, s.id), s) in a.run.manifest.tasks
    ensures CurrentTask(Find(b.run.steps, s.id), s) in b.run.manifest.tasks
    ensures var (r1, k1) := ClaimRun(a.run, s, worker, t1, leaseMs, now, c1);
            var (r2, k2) := ClaimRun(b.run, s, worker, t2, leaseMs, now, c2);
            SimClaim(k1, k2) && Sim(Tracked(r1, AddClaim(a.claims, k1)), Tracked(r2, AddClaim(b.claims, k2)))
  {
    hide SimRecord, ClaimRecord, SimLog, DependencyOutputs;
    assert SimPrior(Find(a.run.steps, s.id), Find(b.run.steps, s.id));
    assert CurrentTask(Find(b.run.steps, s.id), s) == CurrentTask(Find(a.run.steps, s.id), s) by {
      SimTask(a.run, b.run, s);
    }
    SimClaimRecord(Find(a.run.steps, s.id), Find(b.run.steps, s.id), s, worker, t1, t2, leaseMs, now, c1, c2);
    ClaimedFields(Find(a.run.steps, s.id), s, worker, t1, leaseMs, now, c1);
    ClaimedFields(Find(b.run.steps, s.id), s, worker, t2, leaseMs, now, c2);
    SimFields(ClaimRecord(Find(a.run.steps, s.id), s, worker, t1, leaseMs, now, c1),
              ClaimRecord(Find(b.run.steps, s.id), s, worker, t2, leaseMs, now, c2));
    SimDone(a.run, b.run, s);
    var (r1, k1) := ClaimRun(a.run, s, worker, t1, leaseMs, now, c1);
    var (r2, k2) := ClaimRun(b.run, s, worker, t2, leaseMs, now, c2);
    SimUpdate(a.run.steps, b.run.steps, s.id, r1.steps[s.id], r2.steps[s.id]);
    SimAddClaim(a.claims, b.claims, k1, k2);
  }

  lemma SimTask(a: RunRecord, b: RunRecord, s: StepSpec)
    requires SimRun(a, b)
    ensures CurrentTask(Find(b.steps, s.id), s) == CurrentTask(Find(a.steps, s.id), s)
  {
    assert SimPrior(Find(a.steps, s.id), Find(b.steps, s.id));
  }

  lemma ClaimedFields(prior: Option<StepRecord>, s: StepSpec, worker: WorkerId, token: nat, leaseMs: nat, now: nat,
      clear: bool)
    ensures var r := ClaimRecord(prior, s, worker, token, leaseMs, now, clear);
            r.lease.Some? && r.lease.value.worker == worker && r.lease.value.token == token
                && r.task == CurrentTask(prior, s)
  {
  }

  lemma SimFields(a: StepRecord, b: StepRecord)
    requires SimRecord(a, b)
    ensures a.attempts == b.attempts && a.fallbackUsed == b.fallbackUsed && a.status == b.status && a.error == b.error
    ensures a.task == b.task
  {
  }

  lemma SimAddClaim(a: Claims, b: Claims, x: StepClaim, y: StepClaim)
    requires SimClaims(a, b) && SimClaim(x, y)
    ensures SimClaims(AddClaim(a, x), AddClaim(b, y))
  {
    forall id ensures SimClaimList(ClaimsFor(AddClaim(a, x), id), ClaimsFor(AddClaim(b, y), id)) {
      assert SimClaimList(ClaimsFor(a, id), ClaimsFor(b, id));
    }
  }

  /** Whether a claim still holds its lease does not depend on the tokens: it holds exactly if its
      attempt is the running one and the lease has not expired. */
  lemma HoldingIsOwnership(x: Tracked, c: StepClaim, now: nat)
    requires Inv(x) && Issued(x.claims, c)
    ensures c.step.id in x.run.steps
    ensures HoldsLease(x.run, c, now) <==>
            var r := x.run.steps[c.step.id];
            r.lease.Some? && c.attempt == r.attempts && r.lease.value.expiresAt > now
  {
    hide LogOk, StatusOk, ManifestCovers, ValidSteps, StepsOk, StepInput, BudgetOk, ViewOk;
    KeysMatch(x.run, x.claims);
    var id := c.step.id;
    var s := StepOf(x.run, x.claims, id);
    var k :| 0 <= k < |x.claims[id]| && x.claims[id][k] == c;
    assert ClaimOk(ContextOf(x.run, s), c, x.run.steps[id].history[k]);
  }

  lemma SimHolds(a: Tracked, b: Tracked, x: StepClaim, y: StepClaim, now: nat)
    requires Sim(a, b) && Inv(a) && Inv(b) && Issued(a.claims, x) && Issued(b.claims, y) && SimClaim(x, y)
    ensures HoldsLease(a.run, x, now) == HoldsLease(b.run, y, now)
  {
    hide RunInv, SimLog, SimHistory, Issued;
    HoldingIsOwnership(a, x, now);
    HoldingIsOwnership(b, y, now);
    SimAt(a.run, b.run, x.step.id);
  }

  lemma SimRenewRun(a: RunRecord, b: RunRecord, x: StepClaim, y: StepClaim, leaseMs: nat, now: nat)
    requires SimRun(a, b) && SimClaim(x, y) && HoldsLease(a, x, now) && HoldsLease(b, y, now)
    ensures SimRun(RenewRun(a, x, leaseMs, now), RenewRun(b, y, leaseMs, now))
  {
    hide SimHistory, SimLog;
    SimAt(a, b, x.step.id);
    SimUpdate(a.steps, b.steps, x.step.id, RenewRecord(a.steps[x.step.id], leaseMs, now),
        RenewRecord(b.steps[y.step.id], leaseMs, now));
  }

  lemma SimMatches(c: StepCompletion, x: StepClaim, y: StepClaim, manifest: Manifest)
    requires SimClaim(x, y)
    ensures CompletionMatches(c, x, manifest) == CompletionMatches(c, y, manifest)
  {
  }

  lemma SimCompleteRun(a: RunRecord, b: RunRecord, x: StepClaim, y: StepClaim, c: StepCompletion, q1: nat, q2: nat,
      now: nat)
    requires SimRun(a, b) && SimClaim(x, y) && x.step.id in a.steps && y.step.id in b.steps
    ensures SimRun(CompleteAndLog(a, x, c, q1, now), CompleteAndLog(b, y, c, q2, now))
  {
    hide SimRecord, SimLog, CompleteRecord;
    var id := x.step.id;
    SimAt(a, b, id);
    SimComplete(a.steps[id], b.steps[id], c, now);
    SimFields(CompleteRecord(a.steps[id], c, now), CompleteRecord(b.steps[id], c, now));
    SimUpdate(a.steps, b.steps, id, CompleteRecord(a.steps[id], c, now), CompleteRecord(b.steps[id], c, now));
    SimAppend(CompleteRun(a, x, c, now), CompleteRun(b, y, c, now), q1, q2, c.event);
  }

  lemma SimLogged(a: seq<Envelope>, b: seq<Envelope>, p: Event -> bool)
    requires SimLog(a, b)
    ensures (exists v :: v in a && p(v.event)) <==> (exists v :: v in b && p(v.event))
  {
    if v :| v in a && p(v.event) {
      var i :| 0 <= i < |a| && a[i] == v;
      assert b[i] in b && p(b[i].event);
    }
    if v :| v in b && p(v.event) {
      var i :| 0 <= i < |b| && b[i] == v;
      assert a[i] in a && p(a[i].event);
    }
  }

  lemma SimValid(a: RunRecord, b: RunRecord, e: Event)
    requires SimRun(a, b)
    ensures EventValid(a, e) == EventValid(b, e)
  {
    hide SimSteps, SimHistory, SimLease;
    var x, y := a.eventLog, b.eventLog;
    assert SimLog(x, y);
    hide SimLog;
    if !e.RunStarted? && !e.RunFinished? {
      SimAt(a, b, e.step);
    }
    match e {
      case RunStarted(_, _) => SimLogged(x, y, (f: Event) => f.RunStarted?);
      case StepStarted(_, step, _, n) =>
        SimLogged(x, y, (f: Event) => f.StepStarted? && f.step == step && f.attempt == n);
      case StepRetrying(_, step, n, _) =>
        SimLogged(x, y, (f: Event) => f.StepRetrying? && f.step == step && f.attempt == n);
      case StepFallbackSelected(_, step, task) =>
        SimLogged(x, y, (f: Event) => f.StepFallbackSelected? && f.step == step && f.task == task);
      case StepSucceeded(_, step, n) =>
        SimLogged(x, y, (f: Event) => f.StepSucceeded? && f.step == step && f.attempt == n);
      case StepFailed(_, step, n, _) =>
        SimLogged(x, y, (f: Event) => f.StepFailed? && f.step == step && f.attempt == n);
      case RunFinished(_, _) => SimLogged(x, y, (f: Event) => f.RunFinished?);
    }
  }

  lemma SimVerdict(a: RunRecord, b: RunRecord)
    requires SimRun(a, b)
    ensures HasFailed(a) == HasFailed(b) && AllSucceeded(a) == AllSucceeded(b)
  {
    hide SimLog, SimHistory, SimLease;
    forall id ensures id in a.steps <==> id in b.steps {
      SimAt(a, b, id);
    }
    assert a.steps.Keys == b.steps.Keys;
    forall id | id in a.steps ensures a.steps[id].status == b.steps[id].status {
      SimAt(a, b, id);
    }
  }

  lemma SimFinish(a: RunRecord, b: RunRecord, metrics: seq<Metric>, q1: nat, q2: nat)
    requires SimRun(a, b)
    ensures SimRun(FinishAndLog(a, metrics, q1), FinishAndLog(b, metrics, q2))
  {
    hide SimSteps, SimLog, EvaluateGates, HasFailed, AllSucceeded, AllPassed;
    SimVerdict(a, b);
    var x, y := FinishRun(a, metrics), FinishRun(b, metrics);
    assert SimRun(x, y);
    if x.status != a.status {
      SimAppend(x, y, q1, q2, RunFinished(a.runId, x.status));
    }
  }

  lemma SimCancelRun(a: RunRecord, b: RunRecord, q1: nat, q2: nat, now: nat)
    requires SimRun(a, b)
    ensures SimRun(CancelAndLog(a, q1, now), CancelAndLog(b, q2, now))
  {
    hide SimRecord, SimLog, CancelRecord;
    var x, y := CancelRun(a, now), CancelRun(b, now);
    forall id ensures SimPrior(Find(x.steps, id), Find(y.steps, id)) {
      SimAt(a, b, id);
      if id in a.steps {
        SimCancel(a.steps[id], b.steps[id], now);
      }
    }
    SimAppend(x, y, q1, q2, RunFinished(a.runId, RunCancelled));
  }

  lemma {:induction false} SimRecoverSteps(a: RunRecord, b: RunRecord, steps: seq<StepSpec>, l1: nat, l2: nat, now: nat)
    requires SimRun(a, b)
    ensures SimRun(RecoverSteps(a, steps, l1, now).0, RecoverSteps(b, steps, l2, now).0)
  {
    hide SimRun, RecoverStep, StepExpired;
    if steps != [] {
      var init, s := steps[..|steps| - 1], steps[|steps| - 1];
      SimRecoverSteps(a, b, init, l1, l2, now);
      var (x, m1, e1) := RecoverSteps(a, init, l1, now);
      var (y, m2, e2) := RecoverSteps(b, init, l2, now);
      SimExpired(x, y, s, now);
      if StepExpired(x, s, now) {
        SimRecoverStep(x, y, s, m1 + 1, m2 + 1, now);
      }
    }
  }

  lemma SimExpired(a: RunRecord, b: RunRecord, s: StepSpec, now: nat)
    requires SimRun(a, b)
    ensures StepExpired(a, s, now) == StepExpired(b, s, now)
  {
    hide SimHistory, SimLog;
    SimAt(a, b, s.id);
  }

  lemma SimRecoverStep(a: RunRecord, b: RunRecord, s: StepSpec, q1: nat, q2: nat, now: nat)
    requires SimRun(a, b) && StepExpired(a, s, now) && StepExpired(b, s, now)
    ensures SimRun(RecoverStep(a, s, q1, now), RecoverStep(b, s, q2, now))
  {
    hide SimRecord, SimLog, RecoverRecord;
    SimAt(a, b, s.id);
    SimRecover(a.runId, s, a.steps[s.id], b.steps[s.id], now);
    var (x, e) := RecoverRecord(a.runId, s, a.steps[s.id], now);
    var (y, f) := RecoverRecord(b.runId, s, b.steps[s.id], now);
    SimFields(x, y);
    SimUpdate(a.steps, b.steps, s.id, x, y);
    SimAppend(a.(steps := a.steps[s.id := x], error := if x.status.Failed? then x.error else a.error),
              b.(steps := b.steps[s.id := y], error := if y.status.Failed? then y.error else b.error), q1, q2, e);
  }
}
