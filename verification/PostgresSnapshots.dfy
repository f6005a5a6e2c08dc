/** Restored snapshots of the PostgreSQL repository. Tokens are drawn from the history a row retains, so
    a snapshot can bring back a lease, and it can also have a retired token drawn again. */
module PostgresSnapshots {
  import opened Types
  import opened Transitions
  import opened PostgresTheorems
  import Memory = MemoryStore
  import PG = PostgresStore

  /** A claim of a stored run is refused at every time exactly if the row holds no lease of it. */
  lemma TurnedAwayIff(t: PG.Table, claim: StepClaim)
    requires claim.runId in t && t[claim.runId].payload.runId == claim.runId
    requires t[claim.runId].revision == t[claim.runId].payload.revision
    ensures TurnedAway(t, claim) <==> !HoldsLease(t[claim.runId].payload, claim, 0)
  {
    hide CompletionMatches, PG.EarliestExpiry, Deadline;
    var run := t[claim.runId].payload;
    if HoldsLease(run, claim, 0) {
      RenewalFits(run, claim);
      assert PG.Renew(t, claim, 0, 0).1.Ok?;
    }
  }

  lemma RenewalFits(run: RunRecord, claim: StepClaim)
    requires HoldsLease(run, claim, 0)
    ensures PG.ExpiryFits(RenewRun(run, claim, 0, 0))
  {
    hide PG.EarliestExpiry;
    assert RenewRun(run, claim, 0, 0).steps[claim.step.id].lease.value.expiresAt == 1;
  }

  /** An accepted snapshot lets a claim of its run through exactly if it still holds its lease. */
  lemma SaveRevivesIff(t: PG.Table, run: RunRecord, claim: StepClaim)
    requires PG.SaveRow(t, run).1.Ok? && run.runId == claim.runId
    ensures !TurnedAway(PG.SaveRow(t, run).0, claim) <==> HoldsLease(run, claim, 0)
  {
    hide TurnedAway, LeaseHeld, PG.EarliestExpiry;
    TurnedAwayIff(PG.SaveRow(t, run).0, claim);
  }

  /** The token the next claim on the snapshot draws, whatever was drawn for the run before. */
  ghost function RedrawnToken(run: RunRecord): nat {
    Memory.MaxOf(Memory.HistoryTokens(run)) + 1
  }

  /** A refused claim is let through after the next claim on the restored row exactly if that one is
      for the same step and worker and the token it draws is the old one. */
  lemma ClaimRevivesIff(t: PG.Table, run: RunRecord, claim: StepClaim, worker: WorkerProfile, leaseMs: nat, now: nat)
    requires PG.SaveRow(t, run).1.Ok? && run.runId == claim.runId && !HoldsLease(run, claim, 0)
    requires var answer := PG.ClaimNext(PG.SaveRow(t, run).0, run.runId, worker, leaseMs, now).1;
             answer.Ok? && answer.value.Some?
    ensures var (u, answer) := PG.ClaimNext(PG.SaveRow(t, run).0, run.runId, worker, leaseMs, now);
            var next := answer.value.value;
            && next.leaseToken == RedrawnToken(run) && next.worker == worker.id
            && (!TurnedAway(u, claim) <==>
                  claim.step.id == next.step.id && claim.worker == worker.id && claim.leaseToken == RedrawnToken(run))
  {
    hide TurnedAway, PG.EarliestExpiry, Memory.MaxOf, Memory.HistoryTokens, Claimable, StepInput;
    TurnedAwayIff(PG.ClaimNext(PG.SaveRow(t, run).0, run.runId, worker, leaseMs, now).0, claim);
  }

  /** The claim handed out for a step with a given token; deadlines do not enter it. */
  function Handout(run: RunRecord, worker: WorkerId, step: StepSpec, token: nat): StepClaim
    requires CurrentTask(Find(run.steps, step.id), step) in run.manifest.tasks
  {
    ClaimRun(run, step, worker, token, 0, 0, true).1
  }

  lemma GrantedIs(t: PG.Table, id: RunId, worker: WorkerProfile, leaseMs: nat, now: nat, claim: StepClaim)
    requires id in t && PG.ClaimNext(t, id, worker, leaseMs, now).1 == Ok(Some(claim))
    ensures var run := t[id].payload;
            && CurrentTask(Find(run.steps, claim.step.id), claim.step) in run.manifest.tasks
            && claim == Handout(run, worker.id, claim.step, RedrawnToken(run))
            && !HoldsLease(run, claim, 0)
  {
    hide PG.Persist, DependenciesDone, StepInput, Memory.MaxOf, Memory.HistoryTokens;
  }

  lemma SavedRow(t: PG.Table, run: RunRecord)
    requires PG.SaveRow(t, run).1.Ok?
    ensures run.runId in PG.SaveRow(t, run).0 && PG.SaveRow(t, run).0[run.runId].payload == run
  {
    hide PG.EarliestExpiry;
  }

  lemma SameHandout(a: RunRecord, b: RunRecord, worker: WorkerId, step: StepSpec)
    requires b == a.(revision := b.revision) && CurrentTask(Find(a.steps, step.id), step) in a.manifest.tasks
    ensures RedrawnToken(b) == RedrawnToken(a)
    ensures Handout(b, worker, step, RedrawnToken(b)) == Handout(a, worker, step, RedrawnToken(a))
  {
    hide ClaimRecord, DependencyOutputs, Memory.MaxOf;
    assert Memory.HistoryTokens(b) == Memory.HistoryTokens(a);
  }

  /** So the row as it was before a claim, restored with a raised revision, hands the very same claim
      out again to the same worker, and then its old holder is let through too, whatever became of it
      in between. */
  lemma RestoredRowRepeatsClaim(t: PG.Table, u: PG.Table, id: RunId, revision: nat, worker: WorkerProfile,
                                claim: StepClaim, leaseMs: nat, now: nat, next: StepClaim, leaseMs2: nat, now2: nat)
    requires id in t && t[id].payload.runId == id
    requires PG.ClaimNext(t, id, worker, leaseMs, now).1 == Ok(Some(claim))
    requires PG.SaveRow(u, t[id].payload.(revision := revision)).1.Ok?
    requires var restored := PG.SaveRow(u, t[id].payload.(revision := revision)).0;
             PG.ClaimNext(restored, id, worker, leaseMs2, now2).1 == Ok(Some(next)) && next.step == claim.step
    ensures next == claim
    ensures var restored := PG.SaveRow(u, t[id].payload.(revision := revision)).0;
            !TurnedAway(PG.ClaimNext(restored, id, worker, leaseMs2, now2).0, claim)
  {
    hide TurnedAway, PG.SaveRow, PG.ClaimNext, RedrawnToken, HoldsLease;
    var run := t[id].payload;
    var snapshot := run.(revision := revision);
    GrantedIs(t, id, worker, leaseMs, now, claim);
    SavedRow(u, snapshot);
    GrantedIs(PG.SaveRow(u, snapshot).0, id, worker, leaseMs2, now2, next);
    SameHandout(run, snapshot, worker.id, claim.step);
    ClaimRevivesIff(u, snapshot, claim, worker, leaseMs2, now2);
  }
}
