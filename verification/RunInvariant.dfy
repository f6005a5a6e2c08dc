/** The invariant of a run together with every claim ever issued for it, kept by each transition. */
module RunInvariant {
  import opened Types
  import opened Workflows
  import opened Evaluation
  import opened Policy
  import opened Transitions
  import opened StepLog
  import opened StepInvariant

  /** Claims issued per step, in order of their attempts. */
  type Claims = map<StepId, seq<StepClaim>>

  function ClaimsFor(claims: Claims, id: StepId): seq<StepClaim> {
    if id in claims then claims[id] else []
  }

  function AddClaim(claims: Claims, claim: StepClaim): Claims {
    claims[claim.step.id := ClaimsFor(claims, claim.step.id) + [claim]]
  }

  function ContextOf(run: RunRecord, s: StepSpec): Context {
    Context(run.runId, run.workflow.id, run.manifest.tasks, s, StepInput(run, s))
  }

  ghost predicate StepOk(run: RunRecord, claims: Claims, s: StepSpec) {
    && PriorInv(ContextOf(run, s), Find(run.steps, s.id), ClaimsFor(claims, s.id), Replay(run.events, s.id))
    && (s.id in run.steps ==> DependenciesDone(run.steps, s))
  }

  ghost predicate StepsOk(run: RunRecord, claims: Claims) {
    && run.steps.Keys == claims.Keys <= Ids(run.workflow.steps)
    && (forall s :: s in run.workflow.steps ==> StepOk(run, claims, s))
  }

  /** Payloads and envelopes agree, sequences increase, the run's own start comes first. */
  ghost predicate LogOk(run: RunRecord) {
    && |run.events| == |run.eventLog| > 0
    && (forall i :: 0 <= i < |run.events| ==> run.eventLog[i].event == run.events[i])
    && (forall i, j :: 0 <= i < j < |run.eventLog| ==> run.eventLog[i].sequence < run.eventLog[j].sequence)
    && run.events[0].RunStarted?
    && (forall e :: e in run.events ==> e.run == run.runId)
  }

  ghost predicate DecisionsOk(run: RunRecord) {
    || run.gateDecisions == EvaluateGates(run.manifest.gates, run.metrics)
    || (run.gateDecisions == map[] && run.metrics == [] && (run.status.RunRunning? || run.status.RunCancelled?))
  }

  /** The run status agrees with the steps, the gates and the log. */
  ghost predicate StatusOk(run: RunRecord) {
    && (run.status.RunRunning? ==> forall id :: id in run.steps ==> !run.steps[id].status.Cancelled?)
    && (run.status.RunCancelled? ==>
          forall id :: id in run.steps ==> !run.steps[id].status.Running? && !run.steps[id].status.Retrying?)
    && (run.status.RunSucceeded? ==> AllSucceeded(run) && AllPassed(run.gateDecisions))
    && (run.status.RunFailed? && !HasFailed(run) ==>
          AllSucceeded(run) && !AllPassed(run.gateDecisions) && run.error == Some(GATES_FAILED))
    && LastFinish(run.events) == (if run.status.RunRunning? then None else Some(run.status))
    && DecisionsOk(run)
  }

  ghost predicate RunInv(run: RunRecord, claims: Claims) {
    && ValidSteps(run.workflow.steps)
    && ManifestCovers(run.workflow, run.manifest)
    && StepsOk(run, claims)
    && LogOk(run)
    && StatusOk(run)
  }

  /** A sequence number that may come next. */
  ghost predicate Fresh(run: RunRecord, sequence: nat) {
    forall v :: v in run.eventLog ==> v.sequence < sequence
  }

  ghost predicate TokensUpTo(run: RunRecord, bound: nat) {
    forall id :: id in run.steps ==> TokensBelow(run.steps[id], bound)
  }

  predicate SameConstants(a: RunRecord, b: RunRecord) {
    a.runId == b.runId && a.workflow == b.workflow && a.manifest == b.manifest && a.input == b.input
  }

  lemma DistinctSteps(run: RunRecord)
    requires ValidSteps(run.workflow.steps)
    ensures DistinctIds(run.workflow.steps)
  {
    var order :| TopologicalOrder(run.workflow.steps, order);
    OrderImpliesDistinct(run.workflow.steps, order);
  }

  /** The step behind a record, with the record in order. */
  lemma StepOf(run: RunRecord, claims: Claims, id: StepId) returns (s: StepSpec)
    requires StepsOk(run, claims) && id in run.steps
    ensures s in run.workflow.steps && s.id == id && id in claims
    ensures StepInv(ContextOf(run, s), run.steps[id], claims[id], Replay(run.events, id))
    ensures DependenciesDone(run.steps, s)
  {
    hide StepInv, Replay, StepInput;
    s :| s in run.workflow.steps && s.id == id;
    assert StepOk(run, claims, s);
  }

  lemma RecordOf(run: RunRecord, claims: Claims, s: StepSpec)
    requires StepsOk(run, claims) && s in run.workflow.steps && s.id in run.steps
    ensures s.id in claims
    ensures StepInv(ContextOf(run, s), run.steps[s.id], claims[s.id], Replay(run.events, s.id))
    ensures DependenciesDone(run.steps, s)
  {
    hide StepInv, Replay, StepInput;
    assert StepOk(run, claims, s);
  }

  /** Outputs of finished dependencies do not depend on records that are not finished. */
  lemma InputFrame(run: RunRecord, run2: RunRecord, s: StepSpec, changed: StepId)
    requires SameConstants(run, run2) && DependenciesDone(run.steps, s)
    requires changed in run.steps ==> !run.steps[changed].status.Succeeded?
    requires forall id :: id in run.steps && id != changed ==> id in run2.steps && run2.steps[id] == run.steps[id]
    ensures DependenciesDone(run2.steps, s) && StepInput(run2, s) == StepInput(run, s)
  {
    assert DependencyOutputs(run2.steps, s.dependsOn) == DependencyOutputs(run.steps, s.dependsOn);
  }

  /** run2 is run with one record replaced that was not finished; other steps' logs are untouched. */
  ghost predicate OneStepUpdate(run: RunRecord, run2: RunRecord, s: StepSpec) {
    && s in run.workflow.steps && SameConstants(run, run2)
    && s.id in run2.steps && run2.steps == run.steps[s.id := run2.steps[s.id]]
    && (s.id in run.steps ==> !run.steps[s.id].status.Succeeded?)
    && DependenciesDone(run.steps, s)
    && (forall id :: id != s.id ==> Replay(run2.events, id) == Replay(run.events, id))
  }

  lemma OtherStepKept(run: RunRecord, claims: Claims, run2: RunRecord, claims2: Claims, s: StepSpec, t: StepSpec)
    requires StepOk(run, claims, t) && OneStepUpdate(run, run2, s) && t.id != s.id
    requires ClaimsFor(claims2, t.id) == ClaimsFor(claims, t.id)
    ensures StepOk(run2, claims2, t)
  {
    hide StepInv, Replay, StepInput;
    if t.id in run.steps {
      InputFrame(run, run2, t, s.id);
    }
  }

  /** Replacing one unfinished record by one in order keeps every step in order. */
  lemma StepUpdated(run: RunRecord, claims: Claims, run2: RunRecord, claims2: Claims, s: StepSpec)
    requires StepsOk(run, claims) && DistinctIds(run.workflow.steps) && OneStepUpdate(run, run2, s)
    requires s.id in claims2 && claims2 == claims[s.id := claims2[s.id]]
    requires StepInv(ContextOf(run, s), run2.steps[s.id], claims2[s.id], Replay(run2.events, s.id))
    ensures StepsOk(run2, claims2)
  {
    hide StepInv, Replay, StepInput, DistinctIds;
    InputFrame(run, run2, s, s.id);
    forall t | t in run2.workflow.steps ensures StepOk(run2, claims2, t) {
      if t.id == s.id {
        SameIdSameStep(run.workflow.steps, s, t);
      } else {
        OtherStepKept(run, claims, run2, claims2, s, t);
      }
    }
  }

  lemma AppendKeepsLog(run: RunRecord, sequence: nat, e: Event)
    requires LogOk(run) && Fresh(run, sequence) && e.run == run.runId
    ensures LogOk(AppendEvent(run, sequence, e))
  {
    var run2 := AppendEvent(run, sequence, e);
    forall i, j | 0 <= i < j < |run2.eventLog| ensures run2.eventLog[i].sequence < run2.eventLog[j].sequence {
      if j == |run.eventLog| {
        assert run.eventLog[i] in run.eventLog;
      }
    }
  }

  lemma AppendReplays(run: RunRecord, sequence: nat, e: Event)
    ensures forall id :: Replay(AppendEvent(run, sequence, e).events, id) == Advance(Replay(run.events, id), id, e)
    ensures LastFinish(AppendEvent(run, sequence, e).events)
         == if e.RunFinished? then Some(e.status) else LastFinish(run.events)
  {
    forall id ensures Replay(AppendEvent(run, sequence, e).events, id) == Advance(Replay(run.events, id), id, e) {
      ReplaySnoc(run.events, e, id);
    }
    LastFinishSnoc(run.events, e);
  }

  /** Replacing the record of a running step, or any record of a running run, keeps the run status honest. */
  lemma StatusUpdated(run: RunRecord, run2: RunRecord, id: StepId)
    requires StatusOk(run) && SameConstants(run, run2)
    requires run2.status == run.status && run2.metrics == run.metrics && run2.gateDecisions == run.gateDecisions
    requires LastFinish(run2.events) == LastFinish(run.events)
    requires id in run2.steps && run2.steps == run.steps[id := run2.steps[id]]
    requires !run2.steps[id].status.Cancelled?
    requires run.status.RunRunning? || (id in run.steps && run.steps[id].status.Running?)
    ensures StatusOk(run2)
  {
    if run.status.RunFailed? {
      var f :| f in run.steps && run.steps[f].status.Failed?;
      assert run2.steps[f].status.Failed?;
    }
  }

  lemma CreateKeeps(request: RunRequest, sequence: nat)
    requires ValidRequest(request)
    ensures RunInv(CreateAndLog(request, sequence), map[])
  {
    var run := NewRun(request);
    var e := RunStarted(request.runId, request.workflow.id);
    AppendReplays(run, sequence, e);
    assert AppendEvent(run, sequence, e).events == [e];
  }

  lemma OneStep(run: RunRecord, claims: Claims, s: StepSpec)
    requires StepsOk(run, claims) && s in run.workflow.steps
    ensures StepOk(run, claims, s)
  {
    hide StepOk;
  }

  /** The record just leased is in order with the claim added. */
  lemma ClaimKeepsStep(run: RunRecord, claims: Claims, worker: WorkerId, step: StepSpec, token: nat,
                       leaseMs: nat, now: nat, clear: bool)
    requires StepOk(run, claims, step) && CurrentTask(Find(run.steps, step.id), step) in run.manifest.tasks
    requires Available(Find(run.steps, step.id), step, now) && token > 0 && TokensUpTo(run, token - 1)
    ensures var (run2, claim) := ClaimRun(run, step, worker, token, leaseMs, now, clear);
            StepInv(ContextOf(run, step), run2.steps[step.id], ClaimsFor(claims, step.id) + [claim],
                    Replay(run.events, step.id))
  {
    hide StepInv, Replay, StepInput, DependenciesDone, Available;
    var (run2, claim) := ClaimRun(run, step, worker, token, leaseMs, now, clear);
    ClaimKeeps(ContextOf(run, step), Find(run.steps, step.id), ClaimsFor(claims, step.id),
               Replay(run.events, step.id), worker, token, leaseMs, now, clear, claim);
  }

  lemma ClaimKeepsRun(run: RunRecord, claims: Claims, worker: WorkerProfile, step: StepSpec, token: nat,
                      leaseMs: nat, now: nat, clear: bool)
    requires RunInv(run, claims) && run.status.RunRunning? && step in run.workflow.steps
    requires Claimable(run, worker, step, now) && token > 0 && TokensUpTo(run, token - 1)
    ensures var (run2, claim) := ClaimRun(run, step, worker.id, token, leaseMs, now, clear);
            RunInv(run2, AddClaim(claims, claim))
  {
    hide StepInv, Replay, StepInput, ValidSteps, LogOk, SupportsTask, DependenciesDone, ManifestCovers, StatusOk,
      TokensUpTo, StepsOk;
    var (run2, claim) := ClaimRun(run, step, worker.id, token, leaseMs, now, clear);
    DistinctSteps(run);
    assert StepOk(run, claims, step) by { OneStep(run, claims, step); }
    ClaimKeepsStep(run, claims, worker.id, step, token, leaseMs, now, clear);
    StepUpdated(run, claims, run2, AddClaim(claims, claim), step);
    StatusUpdated(run, run2, step.id);
    LogFrame(run, run2);
  }

  lemma LogFrame(run: RunRecord, run2: RunRecord)
    requires LogOk(run) && run2.events == run.events && run2.eventLog == run.eventLog && run2.runId == run.runId
    ensures LogOk(run2)
  {
  }

  /** A transition of a record under lease that may append one event about its step. */
  lemma LeasedUpdate(run: RunRecord, claims: Claims, run2: RunRecord, s: StepSpec)
    requires RunInv(run, claims) && s in run.workflow.steps && s.id in run.steps && run.steps[s.id].status.Running?
    requires SameConstants(run, run2) && s.id in run2.steps && run2.steps == run.steps[s.id := run2.steps[s.id]]
    requires run2.status == run.status && run2.metrics == run.metrics && run2.gateDecisions == run.gateDecisions
    requires forall id :: id != s.id ==> Replay(run2.events, id) == Replay(run.events, id)
    requires LastFinish(run2.events) == LastFinish(run.events)
    requires s.id in claims
    requires StepInv(ContextOf(run, s), run2.steps[s.id], claims[s.id], Replay(run2.events, s.id))
    requires !run2.steps[s.id].status.Cancelled?
    requires LogOk(run2)
    ensures RunInv(run2, claims)
  {
    hide StepInv, Replay, StepInput, ValidSteps, LogOk, ManifestCovers, StepsOk, StatusOk;
    DistinctSteps(run);
    RecordOf(run, claims, s);
    assert claims == claims[s.id := claims[s.id]];
    StepUpdated(run, claims, run2, claims, s);
    StatusUpdated(run, run2, s.id);
  }

  lemma RunningIffLeased(c: Context, r: StepRecord, claims: seq<StepClaim>, v: View)
    requires StepInv(c, r, claims, v)
    ensures r.lease.Some? <==> r.status.Running?
  {
  }

  lemma RenewKeepsRun(run: RunRecord, claims: Claims, claim: StepClaim, leaseMs: nat, now: nat)
    requires RunInv(run, claims) && HoldsLease(run, claim, now)
    ensures RunInv(RenewRun(run, claim, leaseMs, now), claims)
  {
    hide StepInv, Replay, StepInput, ValidSteps, LogOk, ManifestCovers, StepsOk, StatusOk, LastFinish;
    var id := claim.step.id;
    var run2 := RenewRun(run, claim, leaseMs, now);
    var s := StepOf(run, claims, id);
    RunningIffLeased(ContextOf(run, s), run.steps[id], claims[id], Replay(run.events, id));
    RenewKeeps(ContextOf(run, s), run.steps[id], claims[id], Replay(run.events, id), leaseMs, now);
    LogFrame(run, run2);
    LeasedUpdate(run, claims, run2, s);
  }

  ghost predicate Issued(claims: Claims, claim: StepClaim) {
    claim.step.id in claims && claim in claims[claim.step.id]
  }

  /** The holder of a lease, among the issued claims, is the last claim of its step. */
  lemma HolderIsLast(run: RunRecord, claims: Claims, claim: StepClaim, now: nat)
    requires StepsOk(run, claims) && Issued(claims, claim) && HoldsLease(run, claim, now)
    ensures claim.step in run.workflow.steps && claim.runId == run.runId
    ensures run.steps[claim.step.id].status.Running?
    ensures claims[claim.step.id] != [] && claim == Last(claims[claim.step.id])
    ensures claim.attempt == run.steps[claim.step.id].attempts
    ensures claim.fallbackUsed == run.steps[claim.step.id].fallbackUsed
  {
    hide StepInv, Replay, StepInput, StepsOk;
    var id := claim.step.id;
    var s := StepOf(run, claims, id);
    var k :| 0 <= k < |claims[id]| && claims[id][k] == claim;
    LeaseNamesLastClaim(ContextOf(run, s), run.steps[id], claims[id], Replay(run.events, id), k);
  }

  lemma CompleteKeepsRun(run: RunRecord, claims: Claims, claim: StepClaim, c: StepCompletion,
                         sequence: nat, now: nat)
    requires RunInv(run, claims) && Issued(claims, claim) && HoldsLease(run, claim, now)
    requires CompletionMatches(c, claim, run.manifest) && Fresh(run, sequence)
    ensures RunInv(CompleteAndLog(run, claim, c, sequence, now), claims)
  {
    hide StepInv, Replay, StepInput, ValidSteps, LogOk, ManifestCovers, StepsOk, StatusOk, LastFinish, Fresh;
    var id := claim.step.id;
    var mid := CompleteRun(run, claim, c, now);
    HolderIsLast(run, claims, claim, now);
    RecordOf(run, claims, claim.step);
    CompleteKeeps(ContextOf(run, claim.step), run.steps[id], claims[id], Replay(run.events, id), c, run.manifest, now);
    LogFrame(run, mid);
    FreshFrame(run, mid, sequence);
    AppendKeepsLog(mid, sequence, c.event);
    AppendReplays(mid, sequence, c.event);
    LeasedUpdate(run, claims, CompleteAndLog(run, claim, c, sequence, now), claim.step);
  }

  lemma FreshFrame(run: RunRecord, run2: RunRecord, sequence: nat)
    requires Fresh(run, sequence) && run2.eventLog == run.eventLog
    ensures Fresh(run2, sequence)
  {
  }

  lemma FallbackKnown(run: RunRecord, s: StepSpec)
    requires ManifestCovers(run.workflow, run.manifest) && s in run.workflow.steps
    ensures s.policy.fallbackTask.Some? ==> s.policy.fallbackTask.value in run.manifest.tasks
  {
  }

  lemma RecoverKeepsRun(run: RunRecord, claims: Claims, step: StepSpec, sequence: nat, now: nat)
    requires RunInv(run, claims) && step in run.workflow.steps && StepExpired(run, step, now) && Fresh(run, sequence)
    ensures RunInv(RecoverStep(run, step, sequence, now), claims)
  {
    hide StepInv, Replay, StepInput, ValidSteps, LogOk, ManifestCovers, StepsOk, StatusOk, LastFinish, Fresh;
    var id := step.id;
    var (r, e) := RecoverRecord(run.runId, step, run.steps[id], now);
    var mid := run.(steps := run.steps[id := r], error := if r.status.Failed? then r.error else run.error);
    FallbackKnown(run, step);
    RecordOf(run, claims, step);
    RunningIffLeased(ContextOf(run, step), run.steps[id], claims[id], Replay(run.events, id));
    RecoverKeeps(ContextOf(run, step), run.steps[id], claims[id], Replay(run.events, id), now);
    RecoverEvent(run, claims, step, now);
    LogFrame(run, mid);
    FreshFrame(run, mid, sequence);
    AppendKeepsLog(mid, sequence, e);
    AppendReplays(mid, sequence, e);
    LeasedUpdate(run, claims, RecoverStep(run, step, sequence, now), step);
  }

  lemma RecoverEvent(run: RunRecord, claims: Claims, step: StepSpec, now: nat)
    requires StepsOk(run, claims) && step in run.workflow.steps && step.id in run.steps
    ensures var e := RecoverRecord(run.runId, step, run.steps[step.id], now).1;
            e.run == run.runId && !e.RunStarted? && !e.RunFinished? && e.step == step.id
  {
    hide Replay, StepInput, StepsOk, HistoryOk, BudgetOk, ClaimsOk, ViewOk, LeaseOk;
    RecordOf(run, claims, step);
  }

  lemma CancelSteps(run: RunRecord, claims: Claims, run2: RunRecord, s: StepSpec, now: nat)
    requires StepOk(run, claims, s) && SameConstants(run, run2) && run2.steps == CancelRun(run, now).steps
    requires Replay(run2.events, s.id) == Replay(run.events, s.id)
    ensures StepOk(run2, claims, s)
  {
    hide StepInv, Replay;
    if s.id in run.steps {
      assert DependencyOutputs(run2.steps, s.dependsOn) == DependencyOutputs(run.steps, s.dependsOn);
      CancelKeeps(ContextOf(run, s), run.steps[s.id], ClaimsFor(claims, s.id), Replay(run.events, s.id), now);
    }
  }

  lemma CancelKeepsRun(run: RunRecord, claims: Claims, sequence: nat, now: nat)
    requires RunInv(run, claims) && run.status.RunRunning? && Fresh(run, sequence)
    ensures RunInv(CancelAndLog(run, sequence, now), claims)
  {
    hide StepInv, Replay, StepInput, ValidSteps, LogOk, ManifestCovers, StepOk, LastFinish, Fresh, EvaluateGates;
    var mid := CancelRun(run, now);
    var e := RunFinished(run.runId, RunCancelled);
    var run2 := CancelAndLog(run, sequence, now);
    LogFrame(run, mid);
    FreshFrame(run, mid, sequence);
    AppendKeepsLog(mid, sequence, e);
    AppendReplays(mid, sequence, e);
    forall s | s in run2.workflow.steps ensures StepOk(run2, claims, s) {
      CancelSteps(run, claims, run2, s, now);
    }
  }

  lemma SameStepsKept(run: RunRecord, claims: Claims, run2: RunRecord)
    requires StepsOk(run, claims) && SameConstants(run, run2) && run2.steps == run.steps
    requires forall id :: Replay(run2.events, id) == Replay(run.events, id)
    ensures StepsOk(run2, claims)
  {
    hide StepInv, Replay, StepInput;
    forall s | s in run2.workflow.steps ensures StepOk(run2, claims, s) {
      assert StepOk(run, claims, s);
      assert StepInput(run2, s) == StepInput(run, s) by {
        InputOfSteps(run, run2, s);
      }
    }
  }

  lemma InputOfSteps(run: RunRecord, run2: RunRecord, s: StepSpec)
    requires run2.input == run.input && run2.steps == run.steps
    ensures StepInput(run2, s) == StepInput(run, s)
  {
  }

  lemma FinishKeepsRun(run: RunRecord, claims: Claims, metrics: seq<Metric>, sequence: nat)
    requires RunInv(run, claims) && Fresh(run, sequence)
    ensures RunInv(FinishAndLog(run, metrics, sequence), claims)
  {
    hide StepsOk, Replay, ValidSteps, LogOk, ManifestCovers, LastFinish, Fresh, EvaluateGates, HasFailed,
      AllSucceeded;
    var judged := FinishRun(run, metrics);
    var e := RunFinished(run.runId, judged.status);
    var run2 := FinishAndLog(run, metrics, sequence);
    FinishFrame(run, run2);
    LogFrame(run, judged);
    FreshFrame(run, judged, sequence);
    AppendKeepsLog(judged, sequence, e);
    AppendReplays(judged, sequence, e);
    SameStepsKept(run, claims, run2);
    FinishStatus(run, run2, claims, metrics);
  }

  lemma FinishFrame(run: RunRecord, run2: RunRecord)
    requires SameConstants(run, run2) && run2.steps == run.steps
    ensures HasFailed(run2) == HasFailed(run) && AllSucceeded(run2) == AllSucceeded(run)
  {
  }

  lemma FinishStatus(run: RunRecord, run2: RunRecord, claims: Claims, metrics: seq<Metric>)
    requires StatusOk(run) && SameConstants(run, run2) && run2.steps == run.steps
    requires var judged := FinishRun(run, metrics);
             && run2.status == judged.status && run2.metrics == judged.metrics
             && run2.gateDecisions == judged.gateDecisions && run2.error == judged.error
    requires LastFinish(run2.events)
          == if run2.status != run.status then Some(run2.status) else LastFinish(run.events)
    ensures StatusOk(run2)
  {
    hide LastFinish, EvaluateGates;
    FinishFrame(run, run2);
  }

  /** Of the reports a worker may add, only a start and a late retry notice can still be accepted:
      everything else is already in the log. */
  lemma RecordKeepsRun(run: RunRecord, claims: Claims, e: Event, sequence: nat)
    requires RunInv(run, claims) && EventValid(run, e) && Fresh(run, sequence)
    ensures e.StepStarted? || e.StepRetrying?
    ensures RunInv(AppendEvent(run, sequence, e), claims)
  {
    hide StepInv, Replay, ValidSteps, StepsOk, LogOk, ManifestCovers, LastFinish, Fresh, EvaluateGates, EventValid;
    var run2 := AppendEvent(run, sequence, e);
    StepReportsOnly(run, e);
    AppendKeepsLog(run, sequence, e);
    AppendReplays(run, sequence, e);
    RecordKeepsSteps(run, claims, e, sequence);
    FinishFrame(run, run2);
  }

  lemma Enveloped(run: RunRecord, e: Event)
    requires LogOk(run) && e in run.events
    ensures exists v :: v in run.eventLog && v.event == e
  {
    var i :| 0 <= i < |run.events| && run.events[i] == e;
    assert run.eventLog[i] in run.eventLog;
  }

  /** Starting and finishing a run is never reported twice. */
  lemma StepReportsOnly(run: RunRecord, e: Event)
    requires LogOk(run) && StatusOk(run) && EventValid(run, e)
    ensures !e.RunStarted? && !e.RunFinished? && e.run == run.runId
  {
    hide EvaluateGates, HasFailed, AllSucceeded;
    var first := run.events[0];
    Enveloped(run, first);
    if LastFinish(run.events).Some? {
      LastFinishOccurs(run.events);
      var f :| f in run.events && f.RunFinished?;
      Enveloped(run, f);
    }
  }

  lemma RecordKeepsSteps(run: RunRecord, claims: Claims, e: Event, sequence: nat)
    requires ValidSteps(run.workflow.steps) && StepsOk(run, claims) && LogOk(run)
    requires EventValid(run, e) && !e.RunStarted? && !e.RunFinished?
    ensures e.StepStarted? || e.StepRetrying?
    ensures StepsOk(AppendEvent(run, sequence, e), claims)
  {
    hide StepInv, Replay, StepInput, ValidSteps, StepsOk, LogOk;
    var run2 := AppendEvent(run, sequence, e);
    AppendReplays(run, sequence, e);
    DistinctSteps(run);
    var id := e.step;
    var s := StepOf(run, claims, id);
    ReportIsNew(run, ContextOf(run, s), claims[id], e);
    assert claims == claims[id := claims[id]];
    if e.StepStarted? {
      StartKeeps(ContextOf(run, s), run.steps[id], claims[id], Replay(run.events, id), e);
    } else {
      RetryKeeps(ContextOf(run, s), run.steps[id], claims[id], Replay(run.events, id), e);
    }
    StepUpdated(run, claims, run2, claims, s);
  }

  lemma ReportIsNew(run: RunRecord, c: Context, claims: seq<StepClaim>, e: Event)
    requires LogOk(run) && EventValid(run, e) && !e.RunStarted? && !e.RunFinished? && e.step in run.steps
    requires StepInv(c, run.steps[e.step], claims, Replay(run.events, e.step))
    ensures e.StepStarted? || e.StepRetrying?
    ensures e.StepStarted? ==> Replay(run.events, e.step).started < e.attempt
    ensures e.StepRetrying? ==> Replay(run.events, e.step).retried < e.attempt
  {
    hide Replay, BudgetOk, ClaimsOk, LeaseOk;
    BoundsWereReported(run.events, e.step);
    forall f | f in run.events ensures exists v :: v in run.eventLog && v.event == f {
      Enveloped(run, f);
    }
  }
}
