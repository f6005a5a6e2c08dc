/** What the run invariant means: progress, budgets, inputs, fallback, log, outcome, recovery. */
module RunTheorems {
  import opened Types
  import opened Workflows
  import opened Evaluation
  import opened Policy
  import opened Transitions
  import opened StepLog
  import opened StepInvariant
  import opened RunInvariant
  import opened Effects

  // Progress.

  /** The backoff of the step is over. */
  predicate BackoffOver(run: RunRecord, s: StepSpec, now: nat) {
    s.id in run.steps && run.steps[s.id].nextAttemptAt.Some? ==> run.steps[s.id].nextAttemptAt.value <= now
  }

  ghost predicate NextTaskKnown(run: RunRecord, s: StepSpec) {
    CurrentTask(Find(run.steps, s.id), s) in run.manifest.tasks
  }

  /** Any worker able to run the step's current task gets a claim once the backoff is over. */
  ghost predicate Offered(run: RunRecord, s: StepSpec) {
    && NextTaskKnown(run, s)
    && forall worker: WorkerProfile, now ::
         Able(worker, s, run.manifest.tasks[CurrentTask(Find(run.steps, s.id), s)]) && BackoffOver(run, s, now)
         ==> FirstClaimable(run, worker, run.workflow.steps, now).Some?
  }

  predicate SomeLease(run: RunRecord) {
    exists id <- run.steps :: run.steps[id].lease.Some?
  }

  predicate DoneStep(run: RunRecord, id: StepId) {
    id in run.steps && run.steps[id].status.Succeeded?
  }

  /** A running run never gets stuck. */
  lemma DeadlockFree(run: RunRecord, claims: Claims)
    requires RunInv(run, claims) && run.status.RunRunning?
    ensures || HasFailed(run)
            || AllSucceeded(run)
            || SomeLease(run)
            || exists s :: s in run.workflow.steps && Offered(run, s)
  {
    hide StepsOk, LogOk, ManifestCovers, LastFinish, DecisionsOk, Offered;
    var order :| TopologicalOrder(run.workflow.steps, order);
    var i := FirstUnfinished(run, order);
    if i == |order| {
      AllDone(run, claims, order);
    } else {
      assert order[i] in order;
      var s :| s in run.workflow.steps && s.id == order[i];
      assert DependenciesDone(run.steps, s) by {
        forall d | d in s.dependsOn ensures DoneStep(run, d) {
          assert d in order[..i];
        }
      }
      if !HasFailed(run) && !SomeLease(run) {
        assert s.id in run.steps ==> !run.steps[s.id].status.Failed? && run.steps[s.id].lease.None?;
        UnfinishedIsOffered(run, claims, s);
      }
    }
  }

  lemma FirstUnfinished(run: RunRecord, order: seq<StepId>) returns (i: nat)
    ensures i <= |order| && (forall j :: 0 <= j < i ==> DoneStep(run, order[j]))
    ensures i < |order| ==> !DoneStep(run, order[i])
  {
    i := 0;
    while i < |order| && DoneStep(run, order[i])
      invariant i <= |order| && forall j :: 0 <= j < i ==> DoneStep(run, order[j])
    {
      i := i + 1;
    }
  }

  lemma AllDone(run: RunRecord, claims: Claims, order: seq<StepId>)
    requires StepsOk(run, claims) && TopologicalOrder(run.workflow.steps, order)
    requires forall j :: 0 <= j < |order| ==> DoneStep(run, order[j])
    ensures AllSucceeded(run)
  {
    hide StepOk;
    OrderImpliesDistinct(run.workflow.steps, order);
    IdCount(run.workflow.steps);
    forall id | id in Ids(run.workflow.steps) ensures DoneStep(run, id) {
      assert id in order;
    }
    assert run.steps.Keys == Ids(run.workflow.steps);
  }

  lemma UnfinishedIsOffered(run: RunRecord, claims: Claims, s: StepSpec)
    requires RunInv(run, claims) && run.status.RunRunning? && s in run.workflow.steps
    requires DependenciesDone(run.steps, s) && !DoneStep(run, s.id)
    requires s.id in run.steps ==> !run.steps[s.id].status.Failed? && run.steps[s.id].lease.None?
    ensures Offered(run, s)
  {
    hide StepsOk, StepInv, LogOk, ManifestCovers, StatusOk, Replay;
    UnfinishedIsAvailable(run, claims, s);
    var task := CurrentTask(Find(run.steps, s.id), s);
    forall worker: WorkerProfile, now |
      Able(worker, s, run.manifest.tasks[task]) && BackoffOver(run, s, now)
      ensures FirstClaimable(run, worker, run.workflow.steps, now).Some?
    {
      AbleIff(worker, s, run.manifest.tasks[task]);
      assert Claimable(run, worker, s, now);
    }
  }

  lemma UnfinishedIsAvailable(run: RunRecord, claims: Claims, s: StepSpec)
    requires RunInv(run, claims) && run.status.RunRunning? && s in run.workflow.steps && !DoneStep(run, s.id)
    requires s.id in run.steps ==> !run.steps[s.id].status.Failed? && run.steps[s.id].lease.None?
    ensures NextTaskKnown(run, s)
    ensures forall now :: BackoffOver(run, s, now) ==> Available(Find(run.steps, s.id), s, now)
  {
    hide LogOk, LastFinish, DecisionsOk, Replay, HistoryOk, ClaimsOk, ViewOk, StepInput, StepsOk, ValidSteps;
    if s.id in run.steps {
      RecordOf(run, claims, s);
    }
  }

  // Budgets.

  /** Attempts are the issued claims; the budget is exceeded by one attempt at most, and only by a
      fallback that follows a primary which used up the whole budget. */
  lemma AttemptBudget(run: RunRecord, claims: Claims, s: StepSpec)
    requires RunInv(run, claims) && s in run.workflow.steps && s.id in run.steps
    ensures s.id in claims
    ensures run.steps[s.id].attempts == |run.steps[s.id].history| == |claims[s.id]|
    ensures |claims[s.id]| <= Budget(s) + (if run.steps[s.id].fallbackUsed then 1 else 0)
    ensures |claims[s.id]| == Budget(s) + 1 ==>
              (forall i :: 0 <= i < |claims[s.id]| ==> (claims[s.id][i].fallbackUsed <==> i == Budget(s)))
    ensures forall i :: 0 <= i < |claims[s.id]| ==> claims[s.id][i].attempt == i + 1
  {
    hide LogOk, StatusOk, Replay, ViewOk, StepInput, StepsOk, ValidSteps, ManifestCovers;
    RecordOf(run, claims, s);
  }

  function BudgetWithFallback(s: StepSpec): nat {
    Budget(s) + (if s.policy.fallbackTask.Some? then 1 else 0)
  }

  function TotalBudget(steps: seq<StepSpec>): nat {
    if steps == [] then 0
    else TotalBudget(steps[..|steps| - 1]) + BudgetWithFallback(steps[|steps| - 1])
  }

  function TotalClaims(claims: Claims, steps: seq<StepSpec>): nat {
    if steps == [] then 0
    else TotalClaims(claims, steps[..|steps| - 1]) + |ClaimsFor(claims, steps[|steps| - 1].id)|
  }

  lemma StepClaimsBounded(run: RunRecord, claims: Claims, s: StepSpec)
    requires RunInv(run, claims) && s in run.workflow.steps
    ensures |ClaimsFor(claims, s.id)| <= BudgetWithFallback(s)
  {
    hide LogOk, StatusOk, Replay, ViewOk, StepInput, ValidSteps, ManifestCovers;
    if s.id in run.steps {
      RecordOf(run, claims, s);
    }
  }

  /** However long a run goes on, the claims it issues are bounded by its step budgets. */
  lemma {:induction false} ClaimsBounded(run: RunRecord, claims: Claims, n: nat)
    requires RunInv(run, claims) && n <= |run.workflow.steps|
    ensures TotalClaims(claims, run.workflow.steps[..n]) <= TotalBudget(run.workflow.steps[..n])
  {
    hide RunInv;
    var steps := run.workflow.steps;
    if n > 0 {
      ClaimsBounded(run, claims, n - 1);
      assert steps[..n][..n - 1] == steps[..n - 1];
      StepClaimsBounded(run, claims, steps[n - 1]);
    }
  }

  // Inputs and fallback.

  /** Any two claims of a step carry the same input: the run input and the outputs of exactly the
      declared dependencies, each taken from a succeeded record. */
  lemma StableInputs(run: RunRecord, claims: Claims, s: StepSpec, a: StepClaim, b: StepClaim)
    requires RunInv(run, claims) && s in run.workflow.steps && s.id in claims
    requires a in claims[s.id] && b in claims[s.id]
    ensures a.input == b.input
    ensures CarriesInput(a.input, run.input, s.dependsOn, run.steps)
    ensures forall d :: d in s.dependsOn ==> DoneStep(run, d) && run.steps[d].output.Some?
  {
    hide LogOk, StatusOk, Replay, ViewOk, HistoryOk, BudgetOk, StepsOk, ValidSteps, ManifestCovers, StepInv;
    assert s.id in run.steps by { KeysMatch(run, claims); }
    RecordOf(run, claims, s);
    InputCarries(run.input, s.dependsOn, run.steps);
    ClaimInputs(ContextOf(run, s), run.steps[s.id], claims[s.id], Replay(run.events, s.id), a);
    ClaimInputs(ContextOf(run, s), run.steps[s.id], claims[s.id], Replay(run.events, s.id), b);
    forall d | d in s.dependsOn ensures DoneStep(run, d) && run.steps[d].output.Some? {
      SucceededHasOutput(run, claims, d);
    }
  }

  lemma KeysMatch(run: RunRecord, claims: Claims)
    requires StepsOk(run, claims)
    ensures run.steps.Keys == claims.Keys
  {
  }

  lemma ClaimInputs(c: Context, r: StepRecord, claims: seq<StepClaim>, v: View, claim: StepClaim)
    requires StepInv(c, r, claims, v) && claim in claims
    ensures claim.input == c.input
  {
    var i :| 0 <= i < |claims| && claims[i] == claim;
    assert ClaimOk(c, claims[i], r.history[i]);
  }

  lemma SucceededHasOutput(run: RunRecord, claims: Claims, id: StepId)
    requires StepsOk(run, claims) && DoneStep(run, id)
    ensures run.steps[id].output.Some?
  {
    hide StepsOk, Replay, StepInput, HistoryOk, ViewOk, BudgetOk, ClaimsOk;
    var s := StepOf(run, claims, id);
  }

  /** A step fails only without a fallback or after the fallback ran; the fallback is chosen once
      and stays; its task is what runs. */
  lemma FallbackDiscipline(run: RunRecord, claims: Claims, s: StepSpec)
    requires RunInv(run, claims) && s in run.workflow.steps && s.id in run.steps
    ensures s.id in claims && claims[s.id] != []
    ensures run.steps[s.id].status.Failed? ==> s.policy.fallbackTask.None? || Last(claims[s.id]).fallbackUsed
    ensures forall i, j :: 0 <= i < j < |claims[s.id]| && claims[s.id][i].fallbackUsed ==> claims[s.id][j].fallbackUsed
    ensures forall i :: 0 <= i < |claims[s.id]| && claims[s.id][i].fallbackUsed ==> run.steps[s.id].fallbackUsed
    ensures forall c :: c in claims[s.id] ==>
              s.policy.fallbackTask.Some? || !c.fallbackUsed
    ensures forall c :: c in claims[s.id] ==> c.task.id == TaskChoice(s, c.fallbackUsed)
  {
    hide LogOk, StatusOk, Replay, ViewOk, StepInput, StepsOk, ValidSteps;
    RecordOf(run, claims, s);
    forall c | c in claims[s.id]
      ensures (c.fallbackUsed ==> s.policy.fallbackTask.Some?) && c.task.id == TaskChoice(s, c.fallbackUsed)
    {
      var i :| 0 <= i < |claims[s.id]| && claims[s.id][i] == c;
      assert ClaimOk(ContextOf(run, s), c, run.steps[s.id].history[i]);
    }
  }

  // The log.

  predicate HasStatus(run: RunRecord, id: StepId, status: StepStatus) {
    id in run.steps && run.steps[id].status == status
  }

  /** Log and state agree on success, failure, fallback and attempts. */
  lemma LogAgrees(run: RunRecord, claims: Claims, s: StepSpec)
    requires RunInv(run, claims) && s in run.workflow.steps
    ensures Count(run.events, s.id, Success) == (if HasStatus(run, s.id, Succeeded) then 1 else 0)
    ensures Count(run.events, s.id, Failure) == (if HasStatus(run, s.id, Failed) then 1 else 0)
    ensures Count(run.events, s.id, Fallback) == (if s.id in run.steps && run.steps[s.id].fallbackUsed then 1 else 0)
  {
    hide RunInv, Replay, Advance;
    ViewOf(run, claims, s);
    AcceptedCounts(run.events, s.id);
  }

  /** Every report in the log carries an attempt of the record: the last one if it ended the step. */
  lemma LogReports(run: RunRecord, claims: Claims, s: StepSpec, e: Event)
    requires RunInv(run, claims) && s in run.workflow.steps && e in run.events
    ensures Is(e, s.id, Success) || Is(e, s.id, Failure) ==>
              s.id in run.steps && e.attempt == run.steps[s.id].attempts
    ensures Is(e, s.id, Start) || Is(e, s.id, Retry) ==>
              s.id in run.steps && 1 <= e.attempt <= run.steps[s.id].attempts
    ensures Is(e, s.id, Fallback) ==> Some(e.task) == s.policy.fallbackTask
  {
    hide RunInv, Replay, Advance;
    ViewOf(run, claims, s);
    AcceptedReports(run.events, s.id);
    assert Within(e, s.id, Replay(run.events, s.id));
  }

  lemma ViewOf(run: RunRecord, claims: Claims, s: StepSpec)
    requires RunInv(run, claims) && s in run.workflow.steps
    ensures s.id !in run.steps ==> Replay(run.events, s.id) == FRESH
    ensures s.id in run.steps ==>
              var r, v := run.steps[s.id], Replay(run.events, s.id);
              && ViewOk(r, v)
              && (r.fallbackUsed ==> Some(r.task) == s.policy.fallbackTask)
  {
    hide Replay, ClaimsOk, BudgetOk, HistoryOk, StepInput, LogOk, StatusOk, ValidSteps, ManifestCovers;
    assert StepOk(run, claims, s);
  }

  /** Reports are unique per attempt and ordered: a start before the end of its attempt, nothing
      after success or failure. */
  lemma LogIsOrdered(run: RunRecord, claims: Claims, s: StepSpec, i: nat, j: nat)
    requires RunInv(run, claims) && s in run.workflow.steps && i < j < |run.events|
    ensures Is(run.events[i], s.id, Start) && Is(run.events[j], s.id, Start) ==>
              run.events[i].attempt < run.events[j].attempt
    ensures Is(run.events[j], s.id, Start) ==>
              forall attempt: nat :: EndsAttempt(run.events, s.id, i, attempt) ==> attempt < run.events[j].attempt
    ensures Is(run.events[i], s.id, Success) || Is(run.events[i], s.id, Failure) ==>
              forall k :: !Is(run.events[j], s.id, k)
  {
    hide RunInv, Replay, EndsAttempt;
    ViewOf(run, claims, s);
    AcceptedOrder(run.events, s.id, i, j);
  }

  // Outcome.

  ghost predicate EveryStepDone(run: RunRecord) {
    forall s :: s in run.workflow.steps ==> DoneStep(run, s.id)
  }

  /** The status finishing gives: a failed step fails the run, success throughout leaves it to the last
      gate on each metric, anything else leaves the run as it is. */
  ghost predicate FinalVerdict(run: RunRecord, metrics: seq<Metric>, status: RunStatus) {
    if exists id :: id in run.steps && run.steps[id].status.Failed? then status == RunFailed
    else if !EveryStepDone(run) then status == run.status
    else status == if GatesMet(run.manifest.gates, metrics) then RunSucceeded else RunFailed
  }

  /** Finishing gives every run in order exactly this verdict, whatever its status was. */
  lemma FinishGivesVerdict(run: RunRecord, claims: Claims, metrics: seq<Metric>, sequence: nat)
    requires RunInv(run, claims)
    ensures FinalVerdict(run, metrics, FinishAndLog(run, metrics, sequence).status)
    ensures Judged(run, FinishAndLog(run, metrics, sequence), metrics, sequence)
  {
    hide RunInv, FinishAndLog, GatesMet, Decided;
    FinishJudges(run, metrics, sequence);
    DoneThroughout(run, claims);
  }

  /** Counting the succeeded records is looking at every step. */
  lemma DoneThroughout(run: RunRecord, claims: Claims)
    requires RunInv(run, claims)
    ensures AllSucceeded(run) <==> EveryStepDone(run)
  {
    hide LogOk, StepOk, ManifestCovers, StatusOk;
    DistinctSteps(run);
    IdCount(run.workflow.steps);
    SubsetCount(run.steps.Keys, Ids(run.workflow.steps));
    if AllSucceeded(run) {
      forall s | s in run.workflow.steps ensures DoneStep(run, s.id) {
        assert s.id in Ids(run.workflow.steps);
      }
    }
    if EveryStepDone(run) {
      forall id | id in Ids(run.workflow.steps) ensures DoneStep(run, id) {
        var s :| s in run.workflow.steps && s.id == id;
      }
      SubsetCount(Ids(run.workflow.steps), run.steps.Keys);
    }
  }

  /** Success means every workflow step succeeded and the last gate on every metric passed; failure
      means a failed step, or that some such gate did not pass; the log's last word is the status; and
      finishing gives the verdict above. */
  lemma RunOutcome(run: RunRecord, claims: Claims)
    requires RunInv(run, claims)
    ensures run.status.RunSucceeded? ==>
              && (forall s :: s in run.workflow.steps ==> DoneStep(run, s.id))
              && AllPassed(EvaluateGates(run.manifest.gates, run.metrics))
    ensures run.status.RunFailed? && !HasFailed(run) ==>
              && (forall s :: s in run.workflow.steps ==> DoneStep(run, s.id))
              && !AllPassed(EvaluateGates(run.manifest.gates, run.metrics))
              && run.error == Some(GATES_FAILED)
    ensures LastFinish(run.events) == if run.status.RunRunning? then None else Some(run.status)
    ensures forall metrics, sequence :: FinalVerdict(run, metrics, FinishAndLog(run, metrics, sequence).status)
  {
    forall metrics, sequence ensures FinalVerdict(run, metrics, FinishAndLog(run, metrics, sequence).status) {
      hide RunInv, FinalVerdict, FinishAndLog;
      FinishGivesVerdict(run, claims, metrics, sequence);
    }
    hide LogOk, StepOk, ManifestCovers, LastFinish, AllPassed, EvaluateGates, FinalVerdict, FinishAndLog;
    DistinctSteps(run);
    IdCount(run.workflow.steps);
    if AllSucceeded(run) {
      SubsetCount(run.steps.Keys, Ids(run.workflow.steps));
      forall s | s in run.workflow.steps ensures DoneStep(run, s.id) {
        assert s.id in Ids(run.workflow.steps);
      }
    }
  }

  // Recovery.

  ghost predicate LogUpTo(run: RunRecord, last: nat) {
    forall v :: v in run.eventLog ==> v.sequence <= last
  }

  ghost function RecoveredRecord(run: RunRecord, s: StepSpec, now: nat): StepRecord
    requires s.id in run.steps
  {
    if Expired(run.steps[s.id], now) then RecoverRecord(run.runId, s, run.steps[s.id], now).0 else run.steps[s.id]
  }

  /** What recovery leaves behind after visiting some steps of a run. */
  ghost predicate Recovered(run: RunRecord, r: RunRecord, steps: seq<StepSpec>, expired: seq<StepId>, now: nat) {
    && SameConstants(run, r) && r.status == run.status
    && r.metrics == run.metrics && r.gateDecisions == run.gateDecisions && r.idempotencyKey == run.idempotencyKey
    && r.steps.Keys == run.steps.Keys
    && (forall s :: s in steps && s.id in run.steps ==> r.steps[s.id] == RecoveredRecord(run, s, now))
    && (forall id :: id in run.steps && id !in Ids(steps) ==> r.steps[id] == run.steps[id])
    && (forall id :: id in expired <==> id in Ids(steps) && id in run.steps && Expired(run.steps[id], now))
    && NoDuplicates(expired)
    && run.eventLog <= r.eventLog && |r.eventLog| == |run.eventLog| + |expired|
    && run.events <= r.events && |r.events| == |run.events| + |expired|
  }

  lemma RecoverVisit(run: RunRecord, r: RunRecord, steps: seq<StepSpec>, expired: seq<StepId>, now: nat,
                     step: StepSpec, sequence: nat)
    requires Recovered(run, r, steps, expired, now) && step.id !in Ids(steps)
    ensures !StepExpired(r, step, now) ==> Recovered(run, r, steps + [step], expired, now)
    ensures StepExpired(r, step, now) ==>
              Recovered(run, RecoverStep(r, step, sequence, now), steps + [step], expired + [step.id], now)
  {
    hide RecoverRecord;
    assert Ids(steps + [step]) == Ids(steps) + {step.id} by {
      forall s | s in steps + [step] ensures s.id in Ids(steps) + {step.id} {}
      forall id | id in Ids(steps) ensures id in Ids(steps + [step]) {
        var s :| s in steps && s.id == id;
        assert s in steps + [step];
      }
      assert step in steps + [step];
    }
    forall s | s in steps ensures s.id != step.id {}
  }

  lemma {:induction false} RecoverPrefix(run: RunRecord, claims: Claims, n: nat, last: nat, now: nat)
    requires RunInv(run, claims) && n <= |run.workflow.steps| && LogUpTo(run, last)
    ensures var (r, m, expired) := RecoverSteps(run, run.workflow.steps[..n], last, now);
            && RunInv(r, claims) && LogUpTo(r, m)
            && Recovered(run, r, run.workflow.steps[..n], expired, now)
  {
    hide RunInv, RecoverStep, StepExpired, Recovered;
    var steps := run.workflow.steps[..n];
    if n == 0 {
      RecoverNothing(run, now);
      assert steps == [];
    } else {
      RecoverPrefix(run, claims, n - 1, last, now);
      var init, step := run.workflow.steps[..n - 1], run.workflow.steps[n - 1];
      assert steps == init + [step] && steps[..n - 1] == init;
      var (r, m, expired) := RecoverSteps(run, init, last, now);
      NewId(run, claims, n - 1);
      RecoverVisit(run, r, init, expired, now, step, m + 1);
      assert step in r.workflow.steps;
      if StepExpired(r, step, now) {
        LogRoom(r, m);
        RecoverKeepsRun(r, claims, step, m + 1, now);
        RecoverLog(r, step, m, now);
      }
    }
  }

  lemma RecoverNothing(run: RunRecord, now: nat)
    ensures Recovered(run, run, [], [], now)
  {
  }

  lemma NewId(run: RunRecord, claims: Claims, n: nat)
    requires RunInv(run, claims) && n < |run.workflow.steps|
    ensures run.workflow.steps[n].id !in Ids(run.workflow.steps[..n])
  {
    hide StepsOk, LogOk, StatusOk, ManifestCovers, ValidSteps;
    DistinctSteps(run);
  }

  lemma LogRoom(run: RunRecord, last: nat)
    requires LogUpTo(run, last)
    ensures Fresh(run, last + 1)
  {
  }

  lemma RecoverLog(run: RunRecord, step: StepSpec, last: nat, now: nat)
    requires LogUpTo(run, last) && StepExpired(run, step, now)
    ensures LogUpTo(RecoverStep(run, step, last + 1, now), last + 1)
  {
    hide RecoverRecord;
  }

  /** The expired ones among the steps, in their order. */
  function ExpiredIds(run: RunRecord, steps: seq<StepSpec>, now: nat): seq<StepId> {
    if steps == [] then []
    else
      var s := steps[|steps| - 1];
      ExpiredIds(run, steps[..|steps| - 1], now)
      + (if s.id in run.steps && Expired(run.steps[s.id], now) then [s.id] else [])
  }

  /** Each recovered step is told by one event, in order, and a failed one leaves its error on the run. */
  ghost predicate Announced(run: RunRecord, r: RunRecord, expired: seq<StepId>) {
    && run.events <= r.events && |r.events| == |run.events| + |expired|
    && (forall k :: 0 <= k < |expired| ==>
          && expired[k] in run.steps && expired[k] in r.steps
          && Tells(r.events[|run.events| + k], run.runId, run.steps[expired[k]], r.steps[expired[k]]))
    && r.error == if exists id :: id in expired && id in r.steps && r.steps[id].status.Failed?
                  then Some("worker lease expired") else run.error
  }

  lemma AnnouncedNext(run: RunRecord, r: RunRecord, expired: seq<StepId>, s: StepSpec, sequence: nat, now: nat)
    requires Announced(run, r, expired) && r.runId == run.runId
    requires s.id !in expired && s.id in run.steps && s.id in r.steps && r.steps[s.id] == run.steps[s.id]
    ensures Announced(run, RecoverStep(r, s, sequence, now), expired + [s.id])
  {
    hide RecoverRecord, Tells;
    RecoverMovesOn(run.runId, s, run.steps[s.id], now);
    var next, ids := RecoverStep(r, s, sequence, now), expired + [s.id];
    assert s.id in ids && forall id :: id in ids <==> id in expired || id == s.id;
    assert forall id :: id in expired ==> id in r.steps ==> next.steps[id] == r.steps[id];
  }

  lemma {:induction false} RecoveryAnnounces(run: RunRecord, claims: Claims, n: nat, last: nat, now: nat)
    requires RunInv(run, claims) && n <= |run.workflow.steps| && LogUpTo(run, last)
    ensures var (r, m, expired) := RecoverSteps(run, run.workflow.steps[..n], last, now);
            && expired == ExpiredIds(run, run.workflow.steps[..n], now) && Announced(run, r, expired)
            && r.revision == run.revision + |expired|
  {
    hide RunInv, RecoverStep, StepExpired, Expired, Recovered, Announced;
    if n == 0 {
      NothingAnnounced(run);
    } else {
      var init, step := run.workflow.steps[..n - 1], run.workflow.steps[n - 1];
      assert run.workflow.steps[..n][..n - 1] == init;
      RecoveryAnnounces(run, claims, n - 1, last, now);
      RecoverPrefix(run, claims, n - 1, last, now);
      NewId(run, claims, n - 1);
      var (r, m, expired) := RecoverSteps(run, init, last, now);
      StillThere(run, r, init, expired, now, step.id);
      assert StepExpired(r, step, now) == (step.id in run.steps && Expired(run.steps[step.id], now)) by {
        ExpiredStill(run, r, step, now);
      }
      if StepExpired(r, step, now) {
        AnnouncedNext(run, r, expired, step, m + 1, now);
        RevisionRises(r, step, m + 1, now);
      }
    }
  }

  lemma NothingAnnounced(run: RunRecord)
    ensures Announced(run, run, [])
  {
  }

  lemma StillThere(run: RunRecord, r: RunRecord, steps: seq<StepSpec>, expired: seq<StepId>, now: nat, id: StepId)
    requires Recovered(run, r, steps, expired, now) && id !in Ids(steps)
    ensures r.runId == run.runId && id !in expired && (id in r.steps <==> id in run.steps)
    ensures id in run.steps ==> r.steps[id] == run.steps[id]
  {
    hide RecoveredRecord, Expired, NoDuplicates;
  }

  lemma ExpiredStill(run: RunRecord, r: RunRecord, s: StepSpec, now: nat)
    requires (s.id in r.steps <==> s.id in run.steps) && (s.id in run.steps ==> r.steps[s.id] == run.steps[s.id])
    ensures StepExpired(r, s, now) <==> s.id in run.steps && Expired(run.steps[s.id], now)
  {
    hide Expired;
  }

  lemma RevisionRises(run: RunRecord, s: StepSpec, sequence: nat, now: nat)
    requires StepExpired(run, s, now)
    ensures RecoverStep(run, s, sequence, now).revision == run.revision + 1
  {
    hide RecoverRecord;
  }

  /** Exactly the steps whose lease had expired are recovered, each once; every other record is
      untouched. */
  ghost predicate ExpiredGone(run: RunRecord, r: RunRecord, expired: seq<StepId>, now: nat) {
    && NoDuplicates(expired)
    && r.steps.Keys == run.steps.Keys
    && (forall id :: id in expired <==> id in run.steps && Expired(run.steps[id], now))
    && (forall id :: id in r.steps ==> !Expired(r.steps[id], now))
    && (forall id :: id in run.steps && id !in expired ==> r.steps[id] == run.steps[id])
    && (forall id :: id in expired ==> r.steps[id].lease.None? && r.steps[id].attempts == run.steps[id].attempts)
  }

  lemma RecoveryEndsExpired(run: RunRecord, claims: Claims, last: nat, now: nat)
    requires RunInv(run, claims) && LogUpTo(run, last)
    ensures var (r, m, expired) := RecoverSteps(run, run.workflow.steps, last, now);
            RunInv(r, claims) && ExpiredGone(run, r, expired, now)
  {
    hide RunInv, RecoverSteps, CloseAttempt;
    var steps := run.workflow.steps;
    assert steps[..|steps|] == steps;
    RecoverPrefix(run, claims, |steps|, last, now);
    KnownIds(run, claims);
    var (r, m, expired) := RecoverSteps(run, steps, last, now);
    forall id | id in run.steps
      ensures id in expired <==> Expired(run.steps[id], now)
      ensures !Expired(r.steps[id], now)
      ensures id !in expired ==> r.steps[id] == run.steps[id]
      ensures id in expired ==> r.steps[id].lease.None? && r.steps[id].attempts == run.steps[id].attempts
    {
      var s :| s in steps && s.id == id;
      assert r.steps[s.id] == RecoveredRecord(run, s, now);
    }
  }

  /** And they are recovered in workflow order, each going the way its budget and its fallback ask for. */
  ghost predicate RecoveredExactly(run: RunRecord, r: RunRecord, expired: seq<StepId>, now: nat) {
    && ExpiredGone(run, r, expired, now)
    && SameRequest(run, r) && SameVerdict(run, r) && r.revision == run.revision + |expired|
    && expired == ExpiredIds(run, run.workflow.steps, now) && Announced(run, r, expired)
    && (forall s :: s in run.workflow.steps && s.id in expired ==> MovedOn(s, run.steps[s.id], r.steps[s.id], now))
  }

  /** Recovery of a whole run is complete and exact: exactly the steps whose lease had expired are
      returned, each once and in order, each moves on as it must and is told by one event, and no expired
      lease is left; every other record is untouched. */
  lemma RecoveryIsExact(run: RunRecord, claims: Claims, last: nat, now: nat)
    requires RunInv(run, claims) && LogUpTo(run, last)
    ensures var (r, m, expired) := RecoverSteps(run, run.workflow.steps, last, now);
            RunInv(r, claims) && RecoveredExactly(run, r, expired, now)
  {
    hide RunInv, RecoverSteps, RecoverRecord, MovedOn, Announced, ExpiredIds, ExpiredGone;
    var steps := run.workflow.steps;
    assert steps[..|steps|] == steps;
    RecoveryEndsExpired(run, claims, last, now);
    RecoverPrefix(run, claims, |steps|, last, now);
    RecoveryAnnounces(run, claims, |steps|, last, now);
    var (r, m, expired) := RecoverSteps(run, steps, last, now);
    forall s | s in steps && s.id in expired
      ensures s.id in run.steps && s.id in r.steps && MovedOn(s, run.steps[s.id], r.steps[s.id], now)
    {
      assert r.steps[s.id] == RecoveredRecord(run, s, now);
      RecoverMovesOn(run.runId, s, run.steps[s.id], now);
    }
  }

  lemma KnownIds(run: RunRecord, claims: Claims)
    requires RunInv(run, claims)
    ensures run.steps.Keys <= Ids(run.workflow.steps)
  {
    hide StepOk, LogOk, StatusOk, ManifestCovers, ValidSteps;
  }
}
