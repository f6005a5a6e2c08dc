/** What every call on the in-memory repository answers and changes, case by case, for any caller and any
    stored data: which error in which order, which run changes and how, what is published, which counter
    moves. */
module MemoryEffects {
  import opened Types
  import opened Workflows
  import opened Evaluation
  import opened Policy
  import opened Transitions
  import opened Effects
  import opened RunTheorems
  import opened MemoryStore
  import opened MemoryTraces
  import opened MemorySystem
  import opened MemoryTheorems
  import opened Operations
  import opened RunInvariant

  // Frames.

  /** The one run is replaced, the index and the other runs stay. */
  predicate OnlyRun(s: Store, t: Store, id: RunId) {
    id in t.runs && t.runs == s.runs[id := t.runs[id]] && t.idempotency == s.idempotency
  }

  predicate Unpublished(s: Store, t: Store) {
    t.events == s.events && t.nextSequence == s.nextSequence
  }

  /** One event joins the global log under the next sequence. */
  predicate Published(s: Store, t: Store, e: Event) {
    t.nextSequence == s.nextSequence + 1 && t.events == s.events + [Envelope(t.nextSequence, e)]
  }

  predicate SameTokens(s: Store, t: Store) {
    t.nextToken == s.nextToken
  }

  // The calls.

  lemma CreateDoes(s: Store, request: RunRequest)
    ensures var ((t, answer), id, key) := (CreateRun(s, request), request.runId, request.idempotencyKey);
            if !ValidSteps(request.workflow.steps) || !Backs(request.manifest, request.workflow) then
              t == s && answer == Err(InvalidRequest)
            else if key.Some? && key.value in s.idempotency then
              var known := s.idempotency[key.value];
              && t == s
              && (if known !in s.runs then answer == Err(Conflict(known))
                  else
                    var run := s.runs[known];
                    if run.workflow == request.workflow && run.manifest == request.manifest
                       && run.input == request.input
                    then answer == Ok(run) else answer == Err(IdempotencyConflict(known)))
            else if id in s.runs then t == s && answer == Err(Conflict(id))
            else
              && id in t.runs && t.runs == s.runs[id := t.runs[id]] && answer == Ok(t.runs[id])
              && Started(t.runs[id], request, t.nextSequence)
              && Published(s, t, RunStarted(id, request.workflow.id)) && SameTokens(s, t)
              && t.idempotency == (if key.Some? then s.idempotency[key.value := id] else s.idempotency)
  {
    hide ValidSteps, ManifestCovers, Backs, CreateAndLog;
    CreateStarts(request, s.nextSequence + 1);
    assert ValidRequest(request) <==> ValidSteps(request.workflow.steps)
                                      && Backs(request.manifest, request.workflow);
  }

  /** The first step that is ready is leased under a new token, and only then anything changes. */
  lemma ClaimDoes(s: Store, id: RunId, worker: WorkerProfile, leaseMs: nat, now: nat) returns (i: nat)
    ensures var (t, answer) := ClaimNextStep(s, id, worker, leaseMs, now);
            if id !in s.runs then t == s && answer == Err(RunNotFound(id))
            else if !s.runs[id].status.RunRunning? || NoneReady(s.runs[id], worker, now) then
              t == s && answer == Ok(None)
            else
              && FirstReady(s.runs[id], worker, now, i) && answer.Ok? && answer.value.Some?
              && OnlyRun(s, t, id) && Unpublished(s, t) && t.nextToken == s.nextToken + 1
              && Leased(s.runs[id], t.runs[id], s.runs[id].workflow.steps[i], worker.id, t.nextToken, leaseMs, now,
                        false, answer.value.value)
  {
    hide Claimable, ClaimRun, Ready, Leased;
    i := 0;
    if id in s.runs {
      i := NextIsFirstReady(s.runs[id], worker, now);
      var next := FirstClaimable(s.runs[id], worker, s.runs[id].workflow.steps, now);
      if next.Some? {
        NotNone(s.runs[id], worker, now, i);
        KnownTask(s.runs[id], worker, next.value, now);
        ClaimLeases(s.runs[id], worker, next.value, s.nextToken + 1, leaseMs, now, false);
      }
    }
  }

  lemma NotNone(run: RunRecord, worker: WorkerProfile, now: nat, i: nat)
    requires FirstReady(run, worker, now, i)
    ensures !NoneReady(run, worker, now)
  {
    hide Ready;
  }

  lemma KnownTask(run: RunRecord, worker: WorkerProfile, s: StepSpec, now: nat)
    requires Claimable(run, worker, s, now)
    ensures CurrentTask(Find(run.steps, s.id), s) in run.manifest.tasks
  {
  }

  lemma RenewDoes(s: Store, claim: StepClaim, leaseMs: nat, now: nat)
    ensures var (t, answer) := RenewStep(s, claim, leaseMs, now);
            if claim.runId !in s.runs then t == s && answer == Err(RunNotFound(claim.runId))
            else if !Owns(s.runs[claim.runId], claim, now) then
              t == s && answer == Err(LeaseLost(claim.runId, claim.step.id))
            else
              && answer == Ok(()) && OnlyRun(s, t, claim.runId) && Unpublished(s, t) && SameTokens(s, t)
              && Extended(s.runs[claim.runId], t.runs[claim.runId], claim.step.id, leaseMs, now)
  {
    hide LeaseHeld, Owns, RenewRun, Extended;
    if claim.runId in s.runs {
      HoldsIffOwns(s.runs[claim.runId], claim, now);
      if HoldsLease(s.runs[claim.runId], claim, now) {
        RenewExtends(s.runs[claim.runId], claim, leaseMs, now);
      }
    }
  }

  /** The lease is looked at before the completion. */
  lemma CompleteDoes(s: Store, claim: StepClaim, c: StepCompletion, now: nat)
    ensures var (t, answer) := CompleteStep(s, claim, c, now);
            if claim.runId !in s.runs then t == s && answer == Err(RunNotFound(claim.runId))
            else if !Owns(s.runs[claim.runId], claim, now) then
              t == s && answer == Err(LeaseLost(claim.runId, claim.step.id))
            else if !Presentable(c, claim, s.runs[claim.runId].manifest) then
              t == s && answer == Err(InvalidCompletion(claim.runId, claim.step.id))
            else
              && OnlyRun(s, t, claim.runId) && answer == Ok(t.runs[claim.runId])
              && Published(s, t, c.event) && SameTokens(s, t)
              && Committed(s.runs[claim.runId], t.runs[claim.runId], claim.step.id, c, t.nextSequence, now)
  {
    hide LeaseHeld, Owns, CompletionMatches, Presentable, CompleteRun, Committed;
    if claim.runId in s.runs {
      HoldsIffOwns(s.runs[claim.runId], claim, now);
      MatchesIffPresentable(c, claim, s.runs[claim.runId].manifest);
      if HoldsLease(s.runs[claim.runId], claim, now) {
        CompleteCommits(s.runs[claim.runId], claim, c, s.nextSequence + 1, now);
      }
    }
  }

  lemma RecordDoes(s: Store, id: RunId, e: Event)
    ensures var (t, answer) := RecordEvent(s, id, e);
            if id !in s.runs then t == s && answer == Err(RunNotFound(id))
            else if e.run != id || !Reportable(s.runs[id], e) then t == s && answer == Err(InvalidEvent(id))
            else
              && OnlyRun(s, t, id) && answer == Ok(Envelope(t.nextSequence, e))
              && Published(s, t, e) && SameTokens(s, t)
              && Reported(s.runs[id], t.runs[id], t.nextSequence, e)
  {
    hide EventValid, Reportable;
    if id in s.runs {
      ValidIffReportable(s.runs[id], e);
      AppendReports(s.runs[id], s.nextSequence + 1, e);
    }
  }

  lemma FinishDoes(s: Store, id: RunId, metrics: seq<Metric>)
    ensures var (t, answer) := FinishStoredRun(s, id, metrics);
            if id !in s.runs then t == s && answer == Err(RunNotFound(id))
            else
              && OnlyRun(s, t, id) && answer == Ok(t.runs[id]) && SameTokens(s, t)
              && Judged(s.runs[id], t.runs[id], metrics, s.nextSequence + 1)
              && if t.runs[id].status == s.runs[id].status then Unpublished(s, t)
                 else Published(s, t, RunFinished(s.runs[id].runId, t.runs[id].status))
  {
    hide FinishRun, Verdict, Decided;
    if id in s.runs {
      FinishJudges(s.runs[id], metrics, s.nextSequence + 1);
    }
  }

  lemma CancelDoes(s: Store, id: RunId, now: nat)
    ensures var (t, answer) := CancelStoredRun(s, id, now);
            if id !in s.runs then t == s && answer == Err(RunNotFound(id))
            else if s.runs[id].status != RunRunning then t == s && answer == Ok(s.runs[id])
            else
              && OnlyRun(s, t, id) && answer == Ok(t.runs[id]) && SameTokens(s, t)
              && Published(s, t, RunFinished(s.runs[id].runId, RunCancelled))
              && Stopped(s.runs[id], t.runs[id], t.nextSequence, now)
  {
    hide CancelRun, Stopped;
    if id in s.runs {
      CancelStops(s.runs[id], s.nextSequence + 1, now);
    }
  }

  /** Recovering one step of a stored run. */
  lemma RecoverOneDoes(s: Store, id: RunId, step: StepSpec, now: nat)
    requires id in s.runs && step.id in s.runs[id].steps
    ensures var t := Commit(s, id, RecoverStep(s.runs[id], step, s.nextSequence + 1, now));
            && OnlyRun(s, t, id) && SameTokens(s, t) && OneRecovered(s.runs[id], t.runs[id], step, t.nextSequence, now)
            && exists e :: Published(s, t, e) && Tells(e, s.runs[id].runId, s.runs[id].steps[step.id],
                                                       t.runs[id].steps[step.id])
  {
    hide RecoverRecord, MovedOn, Tells;
    var run := s.runs[id];
    RecoverRecovers(run, step, s.nextSequence + 1, now);
    var t := Commit(s, id, RecoverStep(run, step, s.nextSequence + 1, now));
    var e :| Tells(e, run.runId, run.steps[step.id], t.runs[id].steps[step.id])
             && OneMore(run, t.runs[id], t.nextSequence, e);
    assert Published(s, t, e);
  }

  /** A counter stays, or rises to the highest of the numbers. */
  ghost predicate RaisedTo(before: nat, after: nat, numbers: set<nat>) {
    && before <= after && (forall n :: n in numbers ==> n <= after)
    && (after == before || after in numbers)
  }

  /** The tokens the snapshot mentions, in a history or on a lease. */
  ghost function TokensIn(run: RunRecord): set<nat> {
    (set id, i | id in run.steps && 0 <= i < |run.steps[id].history| :: run.steps[id].history[i].leaseToken)
    + (set id | id in run.steps && run.steps[id].lease.Some? :: run.steps[id].lease.value.token)
  }

  /** A snapshot replaces its run unless its key is another run's; the index follows, the counters only
      rise, the published events stay. */
  lemma SaveDoes(s: Store, run: RunRecord)
    ensures var ((t, answer), id, key) := (Save(s, run), run.runId, run.idempotencyKey);
            if key.Some? && key.value in s.idempotency && s.idempotency[key.value] != id then t == s && answer.Err?
            else
              && answer == Ok(()) && t.runs == s.runs[id := run] && t.events == s.events
              && (forall k :: k in t.idempotency <==>
                    key == Some(k) || (k in s.idempotency && !(id in s.runs && s.runs[id].idempotencyKey == Some(k))))
              && (forall k :: k in t.idempotency ==>
                    t.idempotency[k] == if key == Some(k) then id else s.idempotency[k])
              && RaisedTo(s.nextToken, t.nextToken, TokensIn(run))
              && RaisedTo(s.nextSequence, t.nextSequence, set v | v in run.eventLog :: v.sequence)
  {
    hide MaxOf;
    assert TokensIn(run) == HistoryTokens(run) + LeaseTokens(run);
    hide HistoryTokens, LeaseTokens, TokensIn;
    assert Sequences(run) == set v | v in run.eventLog :: v.sequence;
  }

  // Over histories of clients.

  /** Finishing any stored run gives it its verdict. */
  lemma FinishDecides(ops: seq<Op>, id: RunId, metrics: seq<Metric>)
    requires id in PerformAll(START, ops).store.runs
    ensures var (s, t) := (PerformAll(START, ops).store, FinishStoredRun(PerformAll(START, ops).store, id, metrics).0);
            id in t.runs && FinalVerdict(s.runs[id], metrics, t.runs[id].status)
  {
    hide PerformAll, SystemInv, RunInv, FinalVerdict, FinishAndLog;
    var x := PerformAll(START, ops);
    Reachable(ops);
    RunInOrder(x, id);
    FinishGivesVerdict(x.store.runs[id], x.issued[id], metrics, x.store.nextSequence + 1);
  }

  /** The input of every claim ever handed out for a step is the run's input and, under their ids, the
      final outputs of its dependencies, all of which have succeeded. */
  lemma InputsAreExact(ops: seq<Op>, id: RunId, c: StepClaim)
    requires var x := PerformAll(START, ops); id in x.store.runs && Issued(ClaimsOf(x.issued, id), c)
    ensures var run := PerformAll(START, ops).store.runs[id];
            && CarriesInput(c.input, run.input, c.step.dependsOn, run.steps)
            && forall d :: d in c.step.dependsOn ==> DoneStep(run, d) && run.steps[d].output.Some?
  {
    hide PerformAll, SystemInv, RunInv, CarriesInput;
    var x := PerformAll(START, ops);
    Reachable(ops);
    RunInOrder(x, id);
    var s := IssuedStep(x.store.runs[id], x.issued[id], c);
    StableInputs(x.store.runs[id], x.issued[id], s, c, c);
  }
}
