/** The two repositories under the same operations: exactly when they stay in step. */
module LockstepSystem {
  import opened Types
  import opened Workflows
  import opened Evaluation
  import opened Policy
  import opened Transitions
  import opened StepInvariant
  import opened RunInvariant
  import opened RunTheorems
  import opened RunMachine
  import opened Operations
  import opened Lockstep
  import Memory = MemoryStore
  import Traces = MemoryTraces
  import MS = MemorySystem
  import PG = PostgresStore
  import PS = PostgresSystem
  import PA = PostgresAnswers

  ghost predicate SimRow(x: MS.System, y: PS.Server, id: RunId) {
    id in x.store.runs && id in y.table && Sim(MS.TrackedRun(x, id), PS.TrackedRow(y, id))
  }

  ghost predicate SimSystems(x: MS.System, y: PS.Server) {
    x.store.runs.Keys == y.table.Keys && forall id :: id in x.store.runs ==> SimRow(x, y, id)
  }

  /** Both sides in order and in step: the same statuses, records, histories, outputs, errors, events
      and issued claims, whatever tokens, sequences and revisions they drew. */
  ghost predicate InStep(x: MS.System, y: PS.Server) {
    MS.SystemInv(x) && PS.ServerInv(y) && SimSystems(x, y)
  }

  lemma Sides(x: MS.System, y: PS.Server)
    requires InStep(x, y)
    ensures MS.SystemInv(x) && PS.ServerInv(y) && SimSystems(x, y)
  {
    hide MS.SystemInv, PS.ServerInv, SimSystems;
  }

  /** What both sides offer for one run. */
  lemma BothAt(x: MS.System, y: PS.Server, id: RunId)
    requires InStep(x, y) && id in x.store.runs
    ensures SimRow(x, y, id)
    ensures Inv(MS.TrackedRun(x, id)) && Inv(PS.TrackedRow(y, id))
    ensures x.store.runs[id].runId == id && y.table[id].payload.runId == id
    ensures PS.TableInv(y.table)
  {
    hide RunInv, Sim, TokensUpTo, LogUpTo, Fresh, Memory.MaxOf, Memory.HistoryTokens, PG.LastSequence;
    assert Traces.IndexInv(x.store) by {
      hide Traces.IndexInv, PS.ServerInv, SimSystems;
    }
    hide Traces.IndexInv;
    MS.Counters(x, id);
    PS.RowFacts(y, id);
  }

  /** The two claims of one name correspond. */
  lemma SameName(x: MS.System, y: PS.Server, run: RunId, step: StepId, attempt: nat)
    requires InStep(x, y)
    ensures ClaimNamed(x.issued, run, step, attempt).Some? == ClaimNamed(y.issued, run, step, attempt).Some?
    ensures ClaimNamed(x.issued, run, step, attempt).Some? ==>
              var c := ClaimNamed(x.issued, run, step, attempt).value;
              var d := ClaimNamed(y.issued, run, step, attempt).value;
              && SimClaim(c, d) && run in x.store.runs && c.runId == run && d.runId == run && c.step.id == step
              && Issued(ClaimsOf(x.issued, run), c) && Issued(ClaimsOf(y.issued, run), d)
  {
    hide RunInv, Traces.IndexInv, PS.TableInv, SimRun;
    if run in x.store.runs {
      assert SimRow(x, y, run);
      assert SimClaimList(ClaimsFor(ClaimsOf(x.issued, run), step), ClaimsFor(ClaimsOf(y.issued, run), step));
      if ClaimNamed(x.issued, run, step, attempt).Some? {
        MS.NamedClaimFits(x, run, step, attempt);
        PS.NamedClaimFits(y, run, step, attempt);
      }
    }
  }

  lemma SameWorkflow(a: RunRecord, b: RunRecord)
    requires SimRun(a, b)
    ensures a.workflow == b.workflow && a.manifest == b.manifest && a.status == b.status && a.runId == b.runId
    ensures a.idempotencyKey == b.idempotencyKey && a.input == b.input && a.events == b.events
    ensures a.metrics == b.metrics && a.gateDecisions == b.gateDecisions
  {
    hide SimSteps, SimLog;
  }

  /** Runs in step with one run have the same leases, so one can be written exactly if the other can. */
  lemma SameWritable(a: RunRecord, b: RunRecord, c: RunRecord)
    requires SimRun(a, b) && SimRun(a, c)
    ensures PA.Unwritable(b) == PA.Unwritable(c)
  {
    hide SimLog, SimHistory;
    forall id ensures id in b.steps <==> id in c.steps {
      SimAt(a, b, id);
      SimAt(a, c, id);
    }
    forall id | id in b.steps
      ensures PA.LeaseOut(b.steps[id]) == PA.LeaseOut(c.steps[id])
      ensures PA.BeyondColumn(b.steps[id]) == PA.BeyondColumn(c.steps[id])
    {
      SimAt(a, b, id);
      SimAt(a, c, id);
    }
  }

  // What one operation makes of its run in memory.

  ghost predicate StoredAs(x: MS.System, op: Op, id: RunId, after: Tracked) {
    id in MS.Perform(x, op).store.runs && MS.TrackedRun(MS.Perform(x, op), id) == after
  }

  lemma StoredElsewhere(x: MS.System, op: Op, id: RunId)
    requires MS.SystemInv(x) && id in x.store.runs && OneRun(op) && op.run != id
    ensures StoredAs(x, op, id, MS.TrackedRun(x, id))
  {
    hide MS.SystemInv, Claimable, CompletionMatches, EventValid, HoldsLease, EvaluateGates, HasFailed, AllSucceeded;
    if (op.OpRenew? || op.OpComplete?) && ClaimNamed(x.issued, op.run, op.step, op.attempt).Some? {
      MS.NamedClaimFits(x, op.run, op.step, op.attempt);
    }
  }

  ghost function ClaimedNext(a: Tracked, worker: WorkerProfile, token: nat, leaseMs: nat, now: nat, clear: bool)
    : Tracked
  {
    var next := FirstClaimable(a.run, worker, a.run.workflow.steps, now);
    if a.run.status.RunRunning? && next.Some? then
      var (run, claim) := ClaimRun(a.run, next.value, worker.id, token, leaseMs, now, clear);
      Tracked(run, AddClaim(a.claims, claim))
    else a
  }

  lemma StoredClaim(x: MS.System, op: Op, id: RunId)
    requires id in x.store.runs && op.OpClaim? && op.run == id
    ensures var a := MS.TrackedRun(x, id);
            StoredAs(x, op, id, ClaimedNext(a, op.worker, x.store.nextToken + 1, op.leaseMs, op.now, false))
  {
    hide Claimable, ClaimRecord, StepInput;
  }

  lemma TaskKnown(run: RunRecord, worker: WorkerProfile, s: StepSpec, now: nat)
    requires Claimable(run, worker, s, now)
    ensures CurrentTask(Find(run.steps, s.id), s) in run.manifest.tasks
  {
  }

  ghost function Renewed(a: Tracked, c: Option<StepClaim>, leaseMs: nat, now: nat): Tracked {
    if c.Some? && HoldsLease(a.run, c.value, now) then a.(run := RenewRun(a.run, c.value, leaseMs, now)) else a
  }

  lemma StoredRenew(x: MS.System, op: Op, id: RunId)
    requires MS.SystemInv(x) && id in x.store.runs && op.OpRenew? && op.run == id
    ensures var named := ClaimNamed(x.issued, id, op.step, op.attempt);
            StoredAs(x, op, id, Renewed(MS.TrackedRun(x, id), named, op.leaseMs, op.now))
  {
    hide MS.SystemInv, HoldsLease, ClaimNamed;
    if ClaimNamed(x.issued, id, op.step, op.attempt).Some? {
      MS.NamedClaimFits(x, id, op.step, op.attempt);
    }
  }

  predicate Commits(run: RunRecord, named: Option<StepClaim>, c: StepCompletion, now: nat) {
    named.Some? && HoldsLease(run, named.value, now) && CompletionMatches(c, named.value, run.manifest)
  }

  ghost function Completed(a: Tracked, named: Option<StepClaim>, c: StepCompletion, sequence: nat, now: nat): Tracked {
    if Commits(a.run, named, c, now) then a.(run := CompleteAndLog(a.run, named.value, c, sequence, now)) else a
  }

  lemma StoredComplete(x: MS.System, op: Op, id: RunId)
    requires MS.SystemInv(x) && id in x.store.runs && op.OpComplete? && op.run == id
    ensures var a, named := MS.TrackedRun(x, id), ClaimNamed(x.issued, id, op.step, op.attempt);
            StoredAs(x, op, id, Completed(a, named, op.completion, x.store.nextSequence + 1, op.now))
  {
    hide MS.SystemInv, LeaseHeld, ClaimNamed, CompletionMatches, CompleteRecord;
    if ClaimNamed(x.issued, id, op.step, op.attempt).Some? {
      MS.NamedClaimFits(x, id, op.step, op.attempt);
    }
  }

  lemma HoldsMeansStored(run: RunRecord, c: StepClaim, now: nat)
    requires HoldsLease(run, c, now)
    ensures c.step.id in run.steps
  {
  }

  ghost function Recorded(a: Tracked, e: Event, sequence: nat): Tracked {
    if EventBelongs(e, a.run.runId) && EventValid(a.run, e) then a.(run := AppendEvent(a.run, sequence, e)) else a
  }

  lemma StoredRecord(x: MS.System, op: Op, id: RunId)
    requires id in x.store.runs && x.store.runs[id].runId == id && op.OpRecord? && op.run == id
    ensures StoredAs(x, op, id, Recorded(MS.TrackedRun(x, id), op.event, x.store.nextSequence + 1))
  {
    hide EventValid;
  }

  lemma StoredFinish(x: MS.System, op: Op, id: RunId)
    requires id in x.store.runs && op.OpFinish? && op.run == id
    ensures var run := FinishAndLog(x.store.runs[id], op.metrics, x.store.nextSequence + 1);
            StoredAs(x, op, id, Tracked(run, ClaimsOf(x.issued, id)))
  {
    hide EvaluateGates, HasFailed, AllSucceeded, AllPassed;
  }

  lemma StoredCancel(x: MS.System, op: Op, id: RunId)
    requires id in x.store.runs && op.OpCancel? && op.run == id
    ensures var a := MS.TrackedRun(x, id);
            var b := a.(run := CancelAndLog(a.run, x.store.nextSequence + 1, op.now));
            StoredAs(x, op, id, if Terminal(a.run.status) then a else b)
  {
    hide CancelRecord;
  }

  ghost function StoredAfter(x: MS.System, op: Op): Tracked
    requires OneRun(op) && op.run in x.store.runs
  {
    var a, sequence := MS.TrackedRun(x, op.run), x.store.nextSequence + 1;
    match op
    case OpClaim(_, worker, leaseMs, now) => ClaimedNext(a, worker, x.store.nextToken + 1, leaseMs, now, false)
    case OpRenew(id, step, attempt, leaseMs, now) =>
      Renewed(a, ClaimNamed(x.issued, id, step, attempt), leaseMs, now)
    case OpComplete(id, step, attempt, c, now) =>
      Completed(a, ClaimNamed(x.issued, id, step, attempt), c, sequence, now)
    case OpRecord(_, e) => Recorded(a, e, sequence)
    case OpFinish(_, metrics) => a.(run := FinishAndLog(a.run, metrics, sequence))
    case OpCancel(_, now) => if Terminal(a.run.status) then a else a.(run := CancelAndLog(a.run, sequence, now))
  }

  lemma StoredBecomes(x: MS.System, op: Op)
    requires OneRun(op) && op.run in x.store.runs
    requires MS.SystemInv(x) && x.store.runs[op.run].runId == op.run
    ensures StoredAs(x, op, op.run, StoredAfter(x, op))
  {
    hide MS.SystemInv, StoredAs, ClaimedNext, Renewed, Completed, Recorded, FinishAndLog, CancelAndLog;
    match op {
      case OpClaim(_, _, _, _) => StoredClaim(x, op, op.run);
      case OpRenew(_, _, _, _, _) => StoredRenew(x, op, op.run);
      case OpComplete(_, _, _, _, _) => StoredComplete(x, op, op.run);
      case OpRecord(_, _) => StoredRecord(x, op, op.run);
      case OpFinish(_, _) => StoredFinish(x, op, op.run);
      case OpCancel(_, _) => StoredCancel(x, op, op.run);
    }
  }

  // Both sides mean the same.

  ghost predicate SimMeant(x: MS.System, y: PS.Server, op: Op) {
    && OneRun(op) && op.run in x.store.runs && op.run in y.table
    && Sim(StoredAfter(x, op), PA.RowAfter(y, op))
  }

  /** What PostgreSQL means to write corresponds to what memory stores, whether it can be written or
      not. */
  lemma SimAfter(x: MS.System, y: PS.Server, op: Op)
    requires OneRun(op)
    requires InStep(x, y) && op.run in x.store.runs
    ensures SimMeant(x, y, op)
  {
    hide InStep, SimMeant;
    match op {
      case OpClaim(_, _, _, _) => SimClaimed(x, y, op);
      case OpRenew(_, _, _, _, _) => SimRenewed(x, y, op);
      case OpComplete(_, _, _, _, _) => SimCompleted(x, y, op);
      case OpRecord(_, _) => SimRecorded(x, y, op);
      case OpFinish(_, _) => SimFinished(x, y, op);
      case OpCancel(_, _) => SimCancelled(x, y, op);
    }
  }

  lemma SimClaimed(x: MS.System, y: PS.Server, op: Op)
    requires op.OpClaim?
    requires InStep(x, y) && op.run in x.store.runs
    ensures SimMeant(x, y, op)
  {
    hide InStep, RunInv, SimRun, SimClaims, PS.TableInv, Claimable, ClaimRun, PA.NextToken;
    BothAt(x, y, op.run);
    var a, b := MS.TrackedRun(x, op.run), PS.TrackedRow(y, op.run);
    SameWorkflow(a.run, b.run);
    SimFirst(a.run, b.run, op.worker, a.run.workflow.steps, op.now);
    var next := FirstClaimable(a.run, op.worker, a.run.workflow.steps, op.now);
    if a.run.status.RunRunning? && next.Some? {
      TaskKnown(a.run, op.worker, next.value, op.now);
      SimClaimRun(a, b, next.value, op.worker.id, x.store.nextToken + 1, PA.NextToken(b.run), op.leaseMs, op.now,
                  false, true);
    }
  }

  lemma SimRenewed(x: MS.System, y: PS.Server, op: Op)
    requires op.OpRenew?
    requires InStep(x, y) && op.run in x.store.runs
    ensures SimMeant(x, y, op)
  {
    hide InStep, RunInv, SimRun, SimClaims, PS.TableInv, HoldsLease, Issued, RenewRun, ClaimNamed;
    BothAt(x, y, op.run);
    SameName(x, y, op.run, op.step, op.attempt);
    var a, b := MS.TrackedRun(x, op.run), PS.TrackedRow(y, op.run);
    var c, d := ClaimNamed(x.issued, op.run, op.step, op.attempt), ClaimNamed(y.issued, op.run, op.step, op.attempt);
    if c.Some? {
      SimHolds(a, b, c.value, d.value, op.now);
      if HoldsLease(a.run, c.value, op.now) {
        SimRenewRun(a.run, b.run, c.value, d.value, op.leaseMs, op.now);
      }
    }
  }

  lemma SimCompleted(x: MS.System, y: PS.Server, op: Op)
    requires op.OpComplete?
    requires InStep(x, y) && op.run in x.store.runs
    ensures SimMeant(x, y, op)
  {
    hide InStep, RunInv, SimRun, SimClaims, PS.TableInv, HoldsLease, Issued, CompleteAndLog, CompletionMatches,
      ClaimNamed, SimClaim;
    BothAt(x, y, op.run);
    SameName(x, y, op.run, op.step, op.attempt);
    var a, b := MS.TrackedRun(x, op.run), PS.TrackedRow(y, op.run);
    var c, d := ClaimNamed(x.issued, op.run, op.step, op.attempt), ClaimNamed(y.issued, op.run, op.step, op.attempt);
    SameWorkflow(a.run, b.run);
    if c.Some? {
      SimHolds(a, b, c.value, d.value, op.now);
      SimMatches(op.completion, c.value, d.value, a.run.manifest);
      if Commits(a.run, c, op.completion, op.now) {
        HoldsMeansStored(a.run, c.value, op.now);
        HoldsMeansStored(b.run, d.value, op.now);
        SimCompleteRun(a.run, b.run, c.value, d.value, op.completion, x.store.nextSequence + 1,
                       PA.NextSequence(b.run), op.now);
      }
    }
  }

  lemma SimRecorded(x: MS.System, y: PS.Server, op: Op)
    requires op.OpRecord?
    requires InStep(x, y) && op.run in x.store.runs
    ensures SimMeant(x, y, op)
  {
    hide InStep, RunInv, SimRun, SimClaims, PS.TableInv, EventValid, AppendEvent;
    BothAt(x, y, op.run);
    var a, b := MS.TrackedRun(x, op.run), PS.TrackedRow(y, op.run);
    SimValid(a.run, b.run, op.event);
    SimAppend(a.run, b.run, x.store.nextSequence + 1, PA.NextSequence(b.run), op.event);
  }

  lemma SimFinished(x: MS.System, y: PS.Server, op: Op)
    requires op.OpFinish?
    requires InStep(x, y) && op.run in x.store.runs
    ensures SimMeant(x, y, op)
  {
    hide InStep, RunInv, SimRun, SimClaims, PS.TableInv, EvaluateGates, HasFailed, AllSucceeded, AllPassed,
      AppendEvent;
    BothAt(x, y, op.run);
    var a, b := MS.TrackedRun(x, op.run), PS.TrackedRow(y, op.run);
    var q1, q2 := x.store.nextSequence + 1, PA.NextSequence(b.run);
    SimFinish(a.run, b.run, op.metrics, q1, q2);
    PS.UnchangedVerdict(b.run, b.claims, op.metrics);
    var judged := FinishAndLog(b.run, op.metrics, q2);
    SimTouch(FinishAndLog(a.run, op.metrics, q1), judged, PG.Touch(judged));
  }

  lemma SimCancelled(x: MS.System, y: PS.Server, op: Op)
    requires op.OpCancel?
    requires InStep(x, y) && op.run in x.store.runs
    ensures SimMeant(x, y, op)
  {
    hide InStep, RunInv, SimRun, SimClaims, PS.TableInv, CancelAndLog;
    BothAt(x, y, op.run);
    var a, b := MS.TrackedRun(x, op.run), PS.TrackedRow(y, op.run);
    var q1, q2 := x.store.nextSequence + 1, PA.NextSequence(b.run);
    SameWorkflow(a.run, b.run);
    if !Terminal(a.run.status) {
      var cancelled := CancelAndLog(b.run, q2, op.now);
      SimCancelRun(a.run, b.run, q1, q2, op.now);
      SimTouch(CancelAndLog(a.run, q1, op.now), cancelled, PG.Touch(cancelled));
    }
  }

  // Operations on one run.

  ghost predicate Locked(x: MS.System, y: PS.Server, op: Op, id: RunId) {
    SimRow(MS.Perform(x, op), PS.Perform(y, op), id)
  }

  lemma LockOneRun(x: MS.System, y: PS.Server, op: Op, id: RunId)
    requires OneRun(op)
    requires InStep(x, y) && id in x.store.runs && !PA.Refused(y, op)
    ensures Locked(x, y, op, id)
  {
    hide InStep, MS.SystemInv, PS.ServerInv, MS.Perform, PS.Perform, RunInv, Sim, PS.TableInv, StoredAfter,
      PA.RowAfter, PA.Intended, PA.Unwritable;
    Sides(x, y);
    BothAt(x, y, id);
    if op.run == id {
      StoredBecomes(x, op);
      SimAfter(x, y, op);
      PA.RowWritten(y, op);
    } else {
      StoredElsewhere(x, op, id);
      PA.OtherRowKept(y, op, id);
    }
  }

  lemma RefusedOneRunParts(x: MS.System, y: PS.Server, op: Op)
    requires OneRun(op)
    requires InStep(x, y) && PA.Refused(y, op)
    ensures !InStep(MS.Perform(x, op), y)
  {
    hide InStep, MS.SystemInv, PS.ServerInv, MS.Perform, RunInv, SimRun, SimClaims, PS.TableInv, StoredAfter,
      PA.ClaimMeant, PA.VerdictMeant, PA.Unwritable, CompletionMatches, EventValid, HoldsLease;
    if InStep(MS.Perform(x, op), y) {
      var id := op.run;
      Sides(x, y);
      BothAt(x, y, id);
      Sides(MS.Perform(x, op), y);
      BothAt(MS.Perform(x, op), y, id);
      StoredBecomes(x, op);
      SimAfter(x, y, op);
      var a := StoredAfter(x, op).run;
      SameWritable(a, PA.RowAfter(y, op).run, y.table[id].payload);
      PA.StoredIsWritable(y.table, id);
      assert false;
    }
  }

  // Recovery.

  ghost function Recovered(a: Tracked, last: nat, now: nat): Tracked {
    a.(run := RecoverSteps(a.run, a.run.workflow.steps, last, now).0)
  }

  lemma StoredRecover(x: MS.System, op: Op, id: RunId) returns (last: nat)
    requires MS.SystemInv(x) && id in x.store.runs && op.OpRecover?
    ensures StoredAs(x, op, id, Recovered(MS.TrackedRun(x, id), last, op.now)) && LogUpTo(x.store.runs[id], last)
  {
    hide Inv, Memory.RecoverRuns, RecoverSteps, LogUpTo, MS.IssuedOwn, Traces.IndexInv, NoDuplicates;
    last := MS.RecoverVisits(x.store, MS.VisitOrder(x.store.runs.Keys), id, op.now);
  }

  /** A row the query does not select has no expired lease, so recovering it changes nothing. */
  lemma {:induction false} QuietRow(run: RunRecord, steps: seq<StepSpec>, last: nat, now: nat)
    requires forall step :: step in run.steps ==> !Expired(run.steps[step], now)
    ensures RecoverSteps(run, steps, last, now).0 == run
  {
    hide Expired, RecoverRecord;
    if steps != [] {
      QuietRow(run, steps[..|steps| - 1], last, now);
    }
  }

  lemma RecoveredRow(t: PG.Table, u: PG.Table, order: seq<RunId>, now: nat, id: RunId)
    requires PS.RowsRecovered(t, u, order, now) && id in t && PS.TableInv(t)
    requires PG.Due(t, id, now) ==> id in order
    ensures id in u
    ensures PS.SameButRevision(u[id].payload,
                               RecoverSteps(t[id].payload, t[id].payload.workflow.steps,
                                   PG.LastSequence(t[id].payload), now).0)
  {
    hide RecoverSteps, PG.Due, PS.TableInv;
    if id !in order {
      PS.RecoveryQueryIsExact(t, id, now);
      QuietRow(t[id].payload, t[id].payload.workflow.steps, PG.LastSequence(t[id].payload), now);
    }
  }

  lemma RowRecover(y: PS.Server, op: Op, id: RunId) returns (after: RunRecord)
    requires op.OpRecover?
    requires PS.ServerInv(y) && id in y.table && !PA.AnyBlocked(y.table, op.now)
    ensures var b := PS.TrackedRow(y, id);
            && id in PS.Perform(y, op).table && PS.TrackedRow(PS.Perform(y, op), id) == Tracked(after, b.claims)
            && PS.SameButRevision(after, Recovered(b, PG.LastSequence(b.run), op.now).run)
  {
    hide PS.ServerInv, PS.TableInv, PG.RecoverRows, RecoverSteps, PG.Due, NoDuplicates, PS.RowsRecovered,
      PG.LastSequence, PA.AnyBlocked;
    var order := MS.VisitOrder(PS.Selected(y.table, op.now));
    PS.RowsKnown(y, op.now);
    PA.RecoverAnswer(y, op);
    PS.RecoverRowsRefine(y.table, order, op.now);
    var (u, pairs) := PG.RecoverRows(y.table, order, op.now).value;
    RecoveredRow(y.table, u, order, op.now, id);
    after := u[id].payload;
  }

  lemma LockRecover(x: MS.System, y: PS.Server, op: Op, id: RunId)
    requires op.OpRecover?
    requires InStep(x, y) && id in x.store.runs && !PA.Refused(y, op)
    ensures Locked(x, y, op, id)
  {
    hide InStep, MS.SystemInv, PS.ServerInv, MS.Perform, PS.Perform, RunInv, SimRun, SimClaims, PS.TableInv,
      RecoverSteps, PS.SameButRevision, PG.LastSequence, PA.AnyBlocked;
    Sides(x, y);
    BothAt(x, y, id);
    var a, b := MS.TrackedRun(x, id), PS.TrackedRow(y, id);
    SameWorkflow(a.run, b.run);
    var last := StoredRecover(x, op, id);
    var after := RowRecover(y, op, id);
    SimRecoverSteps(a.run, b.run, a.run.workflow.steps, last, PG.LastSequence(b.run), op.now);
    SimTouch(Recovered(a, last, op.now).run, Recovered(b, PG.LastSequence(b.run), op.now).run, after);
  }

  lemma RefusedRecoveryParts(x: MS.System, y: PS.Server, op: Op)
    requires op.OpRecover?
    requires InStep(x, y) && PA.Refused(y, op)
    ensures !InStep(MS.Perform(x, op), y)
  {
    hide InStep, MS.SystemInv, PS.ServerInv, MS.Perform, RunInv, SimRun, SimClaims, PS.TableInv, RecoverSteps,
      PA.Blocked, PA.Unwritable, Expired, Fresh, LogUpTo, TokensUpTo;
    if InStep(MS.Perform(x, op), y) {
      var id :| id in y.table && PA.Blocked(y.table[id].payload, op.now);
      Sides(x, y);
      BothAt(x, y, id);
      Sides(MS.Perform(x, op), y);
      BothAt(MS.Perform(x, op), y, id);
      PS.RowFacts(y, id);
      var a, b := MS.TrackedRun(x, id), PS.TrackedRow(y, id);
      SameWorkflow(a.run, b.run);
      var last := StoredRecover(x, op, id);
      SimRecoverSteps(a.run, b.run, a.run.workflow.steps, last, PG.LastSequence(b.run), op.now);
      BlockedLeavesUnwritable(b, PG.LastSequence(b.run), op.now);
      SameWritable(Recovered(a, last, op.now).run, Recovered(b, PG.LastSequence(b.run), op.now).run, b.run);
      PA.StoredIsWritable(y.table, id);
      assert false;
    }
  }

  lemma BlockedLeavesUnwritable(b: Tracked, last: nat, now: nat)
    requires Inv(b) && LogUpTo(b.run, last) && PA.Blocked(b.run, now)
    ensures PA.Unwritable(Recovered(b, last, now).run)
  {
    hide RunInv, RecoverSteps, LogUpTo, PA.Unwritable;
    PA.BlockedIff(b.run, b.claims, last, now);
  }

  // Creation.

  lemma SameCreation(x: MS.System, y: PS.Server, request: RunRequest)
    requires InStep(x, y)
    ensures Traces.Creates(x.store, request) == PS.Creates(y.table, request)
  {
    hide RunInv, ValidRequest, Sim, Traces.Within, MS.IssuedOwn, PG.EarliestExpiry;
    assert Traces.KeysInverted(x.store.runs, x.store.idempotency);
    if request.idempotencyKey.Some? {
      var key := request.idempotencyKey.value;
      if key in x.store.idempotency {
        SameKey(x, y, x.store.idempotency[key]);
        assert PG.KeyTaken(y.table, key, x.store.idempotency[key]);
      }
      if id :| PG.KeyTaken(y.table, key, id) {
        assert id in x.store.runs;
        SameKey(x, y, id);
      }
    }
  }

  lemma SameKey(x: MS.System, y: PS.Server, id: RunId)
    requires InStep(x, y) && id in x.store.runs
    ensures id in y.table && y.table[id].key == x.store.runs[id].idempotencyKey
  {
    hide RunInv, Traces.IndexInv, SimSteps, SimLog, SimClaims, PG.EarliestExpiry, MS.IssuedOwn;
    assert SimRow(x, y, id);
  }

  lemma SimCreated(request: RunRequest, q1: nat, q2: nat)
    ensures Sim(Tracked(CreateAndLog(request, q1), map[]), Tracked(CreateAndLog(request, q2), map[]))
  {
  }

  lemma StoredCreate(x: MS.System, op: Op, id: RunId)
    requires MS.SystemInv(x) && op.OpCreate? && id in MS.Perform(x, op).store.runs
    ensures id in x.store.runs ==> StoredAs(x, op, id, MS.TrackedRun(x, id))
    ensures id !in x.store.runs ==>
              && Traces.Creates(x.store, op.request) && id == op.request.runId
              && StoredAs(x, op, id, Tracked(CreateAndLog(op.request, x.store.nextSequence + 1), map[]))
  {
    hide MS.SystemInv, Inv, Memory.CreateRun, CreateAndLog, Traces.Creates;
    if Traces.Creates(x.store, op.request) {
      MS.NewRunInOrder(x, op.request);
    } else {
      Traces.CreateOtherwise(x.store, op.request);
    }
    if id in x.store.runs {
      MS.CreateOtherRuns(x.store, op.request, id);
    }
  }

  lemma RowKept(y: PS.Server, op: Op, id: RunId)
    requires PS.ServerInv(y) && op.OpCreate? && id in y.table
    ensures id in PS.Perform(y, op).table && PS.TrackedRow(PS.Perform(y, op), id) == PS.TrackedRow(y, id)
  {
    hide Inv, PG.Create, PS.TableInv, PG.KeyTaken, ValidRequest, MS.IssuedOwn;
    PS.CreateElsewhere(y.table, op.request, id);
  }

  lemma RowCreated(y: PS.Server, op: Op)
    requires PS.ServerInv(y) && op.OpCreate? && PS.Creates(y.table, op.request)
    ensures var id := op.request.runId;
            && id in PS.Perform(y, op).table
            && PS.TrackedRow(PS.Perform(y, op), id) == Tracked(CreateAndLog(op.request, 1), map[])
  {
    hide Inv, PG.Create, PS.TableInv, PS.Creates, CreateAndLog, MS.IssuedOwn;
    PS.CreateTable(y.table, op.request);
  }

  lemma LockCreate(x: MS.System, y: PS.Server, op: Op, id: RunId)
    requires op.OpCreate?
    requires InStep(x, y) && id in MS.Perform(x, op).store.runs
    ensures Locked(x, y, op, id)
  {
    hide InStep, MS.SystemInv, PS.ServerInv, Sim, Traces.Creates, PS.Creates, MS.Perform, PS.Perform, CreateAndLog;
    Sides(x, y);
    assert id in x.store.runs ==> SimRow(x, y, id);
    StoredCreate(x, op, id);
    if id in x.store.runs {
      RowKept(y, op, id);
    } else {
      SameCreation(x, y, op.request);
      RowCreated(y, op);
      SimCreated(op.request, x.store.nextSequence + 1, 1);
    }
  }

  lemma OnlyKnownRuns(x: MS.System, y: PS.Server, op: Op, id: RunId)
    requires InStep(x, y) && !op.OpCreate? && id in MS.Perform(x, op).store.runs
    ensures id in x.store.runs
  {
    hide MS.SystemInv, PS.ServerInv, SimSystems, MS.Perform;
    if id !in x.store.runs {
      MS.RunsAfter(x, op, id);
    }
  }

  lemma SameRuns(x: MS.System, y: PS.Server, op: Op)
    requires InStep(x, y)
    ensures MS.Perform(x, op).store.runs.Keys == PS.Perform(y, op).table.Keys
  {
    hide InStep, MS.SystemInv, PS.ServerInv, SimRow, MS.Perform, PS.TableAfter, PS.IssuedAfter, PS.TableInv;
    Sides(x, y);
    if op.OpCreate? {
      SameCreated(x, y, op);
    } else {
      PS.OtherRows(y, op);
      MS.SameRunsStored(x, op);
    }
  }

  lemma SameCreated(x: MS.System, y: PS.Server, op: Op)
    requires InStep(x, y) && op.OpCreate?
    ensures MS.Perform(x, op).store.runs.Keys == PS.Perform(y, op).table.Keys
  {
    hide RunInv, Sim, Traces.Creates, PS.Creates, Memory.CreateRun, PG.Create, Traces.IndexInv, PS.TableInv,
      MS.IssuedOwn;
    SameCreation(x, y, op.request);
    PS.CreateTable(y.table, op.request);
    if Traces.Creates(x.store, op.request) {
      MS.NewRunInOrder(x, op.request);
    } else {
      Traces.CreateOtherwise(x.store, op.request);
    }
  }

  // Exactly when they stay in step.

  lemma LockRuns(x: MS.System, y: PS.Server, op: Op, id: RunId)
    requires InStep(x, y) && !PA.Refused(y, op) && id in MS.Perform(x, op).store.runs
    ensures Locked(x, y, op, id)
  {
    hide InStep, Locked, MS.Perform, PS.Perform, PA.Refused;
    if op.OpCreate? {
      LockCreate(x, y, op, id);
    } else {
      OnlyKnownRuns(x, y, op, id);
      if op.OpRecover? {
        LockRecover(x, y, op, id);
      } else {
        LockOneRun(x, y, op, id);
      }
    }
  }

  lemma LockedTogether(x: MS.System, y: PS.Server, op: Op)
    requires InStep(x, y) && !PA.Refused(y, op)
    ensures InStep(MS.Perform(x, op), PS.Perform(y, op))
  {
    hide MS.SystemInv, PS.ServerInv, MS.Perform, PS.Perform, SimRow, PA.Refused;
    assert MS.SystemInv(x) && PS.ServerInv(y);
    MS.PerformKeeps(x, op);
    PS.PerformKeeps(y, op);
    SameRuns(x, y, op);
    forall id | id in MS.Perform(x, op).store.runs ensures SimRow(MS.Perform(x, op), PS.Perform(y, op), id) {
      LockRuns(x, y, op, id);
    }
  }

  /** One operation keeps the repositories in step exactly if PostgreSQL does not refuse the write. */
  lemma InStepIff(x: MS.System, y: PS.Server, op: Op)
    requires InStep(x, y)
    ensures InStep(MS.Perform(x, op), PS.Perform(y, op)) <==> !PA.Refused(y, op)
  {
    hide MS.SystemInv, PS.ServerInv, SimSystems, MS.Perform, PS.Perform, PA.AnyBlocked, PA.Intended, PA.Unwritable;
    if PA.Refused(y, op) {
      PA.RefusedIff(y, op);
      if op.OpRecover? {
        RefusedRecoveryParts(x, y, op);
      } else {
        RefusedOneRunParts(x, y, op);
      }
    } else {
      LockedTogether(x, y, op);
    }
  }

  ghost predicate InStepAfter(ops: seq<Op>) {
    InStep(MS.PerformAll(MS.START, ops), PS.PerformAll(PS.START, ops))
  }

  ghost predicate InStepThroughout(ops: seq<Op>) {
    forall n: nat :: n <= |ops| ==> InStepAfter(ops[..n])
  }

  /** PostgreSQL refuses this operation of the history. */
  ghost predicate RefusedAt(ops: seq<Op>, n: nat)
    requires n < |ops|
  {
    PA.Refused(PS.PerformAll(PS.START, ops[..n]), ops[n])
  }

  lemma ThroughoutSnoc(init: seq<Op>, op: Op)
    ensures InStepThroughout(init + [op]) <==> InStepThroughout(init) && InStepAfter(init + [op])
  {
    hide InStepAfter;
    var ops := init + [op];
    assert ops[..|ops|] == ops;
    forall n: nat | n <= |init| ensures ops[..n] == init[..n] {}
  }

  lemma RefusedSnoc(init: seq<Op>, op: Op)
    ensures (forall n: nat :: n < |init + [op]| ==> !RefusedAt(init + [op], n)) <==>
            (forall n: nat :: n < |init| ==> !RefusedAt(init, n)) && !PA.Refused(PS.PerformAll(PS.START, init), op)
  {
    hide PA.Refused, PS.PerformAll;
    var ops := init + [op];
    assert ops[..|init|] == init && ops[|init|] == op;
    forall n: nat | n < |init| ensures RefusedAt(ops, n) == RefusedAt(init, n) {
      assert ops[..n] == init[..n];
    }
    assert RefusedAt(ops, |init|) == PA.Refused(PS.PerformAll(PS.START, init), op);
  }

  /** Through any operations whatsoever both repositories are in step exactly if PostgreSQL answers none
      of them with a storage error. */
  lemma {:induction false} AlwaysInStepIff(ops: seq<Op>)
    ensures InStepThroughout(ops) <==> forall n: nat :: n < |ops| ==> !RefusedAt(ops, n)
  {
    hide InStepThroughout, RefusedAt, InStepAfter, MS.PerformAll, PS.PerformAll, MS.Perform, PS.Perform, InStep,
      PA.Refused;
    if ops == [] {
      NothingHappened();
    } else {
      var init, op := ops[..|ops| - 1], ops[|ops| - 1];
      assert ops == init + [op];
      AlwaysInStepIff(init);
      ThroughoutSnoc(init, op);
      RefusedSnoc(init, op);
      if InStepThroughout(init) {
        LastInStep(init);
        NextInStep(init, op);
      }
    }
  }

  lemma NothingHappened()
    ensures InStepThroughout([])
  {
    hide InStep;
    StartInStep();
  }

  lemma LastInStep(ops: seq<Op>)
    requires InStepThroughout(ops)
    ensures InStepAfter(ops)
  {
    hide InStepAfter;
    assert ops[..|ops|] == ops;
  }

  lemma NextInStep(ops: seq<Op>, op: Op)
    requires InStepAfter(ops)
    ensures InStepAfter(ops + [op]) <==> !PA.Refused(PS.PerformAll(PS.START, ops), op)
  {
    hide MS.Perform, PS.Perform, InStep, PA.Refused;
    assert (ops + [op])[..|ops|] == ops;
    InStepIff(MS.PerformAll(MS.START, ops), PS.PerformAll(PS.START, ops), op);
  }

  lemma StartInStep()
    ensures InStep(MS.START, PS.START)
  {
  }

  // The same fencing decisions.

  /** A worker presenting its claim is accepted by both repositories or refused by both, although the
      tokens it was given differ; only a storage error makes a difference. */
  lemma SameFencing(x: MS.System, y: PS.Server, op: Op)
    requires op.OpRenew? || op.OpComplete?
    requires InStep(x, y)
    ensures var a := ClaimNamed(x.issued, op.run, op.step, op.attempt);
            var b := ClaimNamed(y.issued, op.run, op.step, op.attempt);
            a.Some? == b.Some? && (a.Some? ==> (Accepted(x, op) <==> PA.ErrorOf(y, op).None? || PA.Refused(y, op)))
  {
    hide InStep, RunInv, SimRun, SimClaims, PS.TableInv, HoldsLease, CompletionMatches, ClaimNamed, Issued,
      SimClaim, CompleteAndLog, RenewRun, PA.Unwritable, PS.ServerInv, MS.SystemInv, PA.NextSequence, PS.TableAfter,
      PS.IssuedAfter;
    SameName(x, y, op.run, op.step, op.attempt);
    Sides(x, y);
    var a, b := ClaimNamed(x.issued, op.run, op.step, op.attempt), ClaimNamed(y.issued, op.run, op.step, op.attempt);
    if a.Some? {
      BothAt(x, y, op.run);
      SameWorkflow(x.store.runs[op.run], y.table[op.run].payload);
      SimHolds(MS.TrackedRun(x, op.run), PS.TrackedRow(y, op.run), a.value, b.value, op.now);
      if op.OpComplete? {
        SimMatches(op.completion, a.value, b.value, x.store.runs[op.run].manifest);
      }
      PA.Answers(y, op);
      if PA.Intended(y, op).None? {
        NoIntentIsError(y, op);
      }
    }
  }

  /** The in-memory repository accepts the claim. */
  ghost predicate Accepted(x: MS.System, op: Op)
    requires op.OpRenew? || op.OpComplete?
  {
    var a := ClaimNamed(x.issued, op.run, op.step, op.attempt);
    a.Some? && (if op.OpRenew? then Memory.RenewStep(x.store, a.value, op.leaseMs, op.now).1.Ok?
                else Memory.CompleteStep(x.store, a.value, op.completion, op.now).1.Ok?)
  }

  lemma NoIntentIsError(y: PS.Server, op: Op)
    requires op.OpRenew? || op.OpComplete?
    requires PS.ServerInv(y) && ClaimNamed(y.issued, op.run, op.step, op.attempt).Some? && PA.Intended(y, op).None?
    ensures PA.ErrorOf(y, op).Some?
  {
    hide PS.ServerInv, ClaimNamed, HoldsLease, CompletionMatches;
    PS.NamedClaimFits(y, op.run, op.step, op.attempt);
  }

  // A condition on the operations alone.

  /** Deadlines of new and renewed leases fit the signed expiry column. */
  predicate Fits(op: Op) {
    op.OpClaim? || op.OpRenew? ==> Deadline(op.now, op.leaseMs) <= I64_MAX
  }

  predicate LeasesFit(run: RunRecord) {
    forall id <- run.steps :: !PA.BeyondColumn(run.steps[id])
  }

  ghost predicate AllFit(t: PG.Table) {
    forall id :: id in t ==> LeasesFit(t[id].payload)
  }

  lemma FitIsWritable(run: RunRecord)
    requires LeasesFit(run)
    ensures !PA.Unwritable(run)
  {
  }

  lemma ClaimFits(run: RunRecord, s: StepSpec, worker: WorkerId, token: nat, leaseMs: nat, now: nat, clear: bool)
    requires LeasesFit(run) && Deadline(now, leaseMs) <= I64_MAX
    requires CurrentTask(Find(run.steps, s.id), s) in run.manifest.tasks
    ensures LeasesFit(ClaimRun(run, s, worker, token, leaseMs, now, clear).0)
  {
    hide StepInput, Deadline;
  }

  lemma RenewFits(run: RunRecord, c: StepClaim, leaseMs: nat, now: nat)
    requires HoldsLease(run, c, now) && LeasesFit(run) && Deadline(now, leaseMs) <= I64_MAX
    ensures LeasesFit(RenewRun(run, c, leaseMs, now))
  {
  }

  lemma CompletionFits(run: RunRecord, claim: StepClaim, c: StepCompletion, sequence: nat, now: nat)
    requires claim.step.id in run.steps && LeasesFit(run)
    ensures LeasesFit(CompleteAndLog(run, claim, c, sequence, now))
  {
    hide CloseAttempt;
  }

  lemma FinishFits(run: RunRecord, metrics: seq<Metric>, sequence: nat)
    requires LeasesFit(run)
    ensures LeasesFit(FinishAndLog(run, metrics, sequence)) && LeasesFit(PG.Touch(FinishAndLog(run, metrics, sequence)))
  {
    hide EvaluateGates, HasFailed, AllSucceeded, AllPassed;
  }

  lemma {:induction false} RecoverFits(run: RunRecord, steps: seq<StepSpec>, last: nat, now: nat)
    requires LeasesFit(run)
    ensures LeasesFit(RecoverSteps(run, steps, last, now).0)
  {
    hide CloseAttempt;
    if steps != [] {
      RecoverFits(run, steps[..|steps| - 1], last, now);
    }
  }

  lemma RevisedFits(a: RunRecord, b: RunRecord)
    requires LeasesFit(a) && PS.SameButRevision(b, a)
    ensures LeasesFit(b)
  {
  }

  lemma CancelFits(run: RunRecord, sequence: nat, now: nat)
    requires LeasesFit(run)
    ensures LeasesFit(PG.Touch(CancelAndLog(run, sequence, now)))
  {
  }

  lemma IntendedFits(y: PS.Server, op: Op)
    requires OneRun(op)
    requires Fits(op) && AllFit(y.table) && PA.Intended(y, op).Some?
    ensures LeasesFit(PA.Intended(y, op).value)
  {
    hide LeasesFit, Claimable, ClaimRun, RenewRun, CompleteAndLog, HoldsLease, CompletionMatches, EventValid,
      FinishAndLog, CancelAndLog, FinishRun, PA.NextToken, PA.NextSequence, AppendEvent, Deadline;
    var run := y.table[op.run].payload;
    match op {
      case OpClaim(_, worker, leaseMs, now) =>
        var next := FirstClaimable(run, worker, run.workflow.steps, now).value;
        TaskKnown(run, worker, next, now);
        ClaimFits(run, next, worker.id, PA.NextToken(run), leaseMs, now, true);
      case OpRenew(_, step, attempt, leaseMs, now) =>
        RenewFits(run, ClaimNamed(y.issued, op.run, step, attempt).value, leaseMs, now);
      case OpComplete(_, step, attempt, c, now) =>
        var claim := ClaimNamed(y.issued, op.run, step, attempt).value;
        HoldsMeansStored(run, claim, now);
        CompletionFits(run, claim, c, PA.NextSequence(run), now);
      case OpRecord(_, e) => AppendFits(run, PA.NextSequence(run), e);
      case OpFinish(_, metrics) => FinishFits(run, metrics, PA.NextSequence(run));
      case OpCancel(_, now) => CancelFits(run, PA.NextSequence(run), now);
    }
  }

  lemma AppendFits(run: RunRecord, sequence: nat, e: Event)
    requires LeasesFit(run)
    ensures LeasesFit(AppendEvent(run, sequence, e))
  {
  }

  lemma FitsAreNotRefused(y: PS.Server, op: Op)
    requires Fits(op) && AllFit(y.table)
    ensures !PA.Refused(y, op)
  {
    hide PA.Intended, PA.Unwritable, LeasesFit, Fits;
    match op {
      case OpCreate(_) =>
      case OpRecover(now) =>
        forall id | id in y.table ensures !PA.Blocked(y.table[id].payload, now) {
          FitIsNotBlocked(y.table[id].payload, now);
        }
      case _ =>
        if PA.Intended(y, op).Some? {
          IntendedFits(y, op);
          FitIsWritable(PA.Intended(y, op).value);
        }
    }
  }

  lemma FitIsNotBlocked(run: RunRecord, now: nat)
    requires LeasesFit(run)
    ensures !PA.Blocked(run, now)
  {
  }

  lemma FitStays(y: PS.Server, op: Op)
    requires PS.ServerInv(y) && Fits(op) && AllFit(y.table)
    ensures AllFit(PS.Perform(y, op).table)
  {
    hide PS.ServerInv, PS.Perform, LeasesFit, Fits, RecoverSteps, PG.LastSequence;
    forall id | id in PS.Perform(y, op).table ensures LeasesFit(PS.Perform(y, op).table[id].payload) {
      RowFits(y, op, id);
    }
  }

  lemma RowFits(y: PS.Server, op: Op, id: RunId)
    requires PS.ServerInv(y) && Fits(op) && AllFit(y.table) && id in PS.Perform(y, op).table
    ensures LeasesFit(PS.Perform(y, op).table[id].payload)
  {
    hide PS.ServerInv, PS.Perform, LeasesFit, Fits, RecoverSteps, PG.LastSequence, PA.Refused, PA.Intended,
      PS.TableInv, PA.Unwritable;
    FitsAreNotRefused(y, op);
    if op.OpCreate? {
      CreatedFits(y, op, id);
    } else {
      PS.OtherRows(y, op);
      SameTable(y, op);
      if op.OpRecover? {
        NotBlockedHere(y, op);
        var after := RowRecover(y, op, id);
        var run := y.table[id].payload;
        RecoverFits(run, run.workflow.steps, PG.LastSequence(run), op.now);
        RevisedFits(RecoverSteps(run, run.workflow.steps, PG.LastSequence(run), op.now).0, after);
      } else if op.run != id {
        PA.OtherRowKept(y, op, id);
      } else {
        WrittenFits(y, op);
      }
    }
  }

  lemma SameTable(y: PS.Server, op: Op)
    ensures PS.Perform(y, op).table == PS.TableAfter(y, op)
  {
  }

  lemma NotBlockedHere(y: PS.Server, op: Op)
    requires op.OpRecover?
    requires !PA.Refused(y, op)
    ensures !PA.AnyBlocked(y.table, op.now)
  {
  }

  lemma WrittenFits(y: PS.Server, op: Op)
    requires OneRun(op)
    requires PS.ServerInv(y) && Fits(op) && AllFit(y.table) && op.run in y.table && !PA.Refused(y, op)
    ensures op.run in PS.Perform(y, op).table && LeasesFit(PS.Perform(y, op).table[op.run].payload)
  {
    hide PS.ServerInv, PS.Perform, LeasesFit, Fits, PA.Unwritable, PA.ClaimMeant, PA.VerdictMeant, CompletionMatches,
      EventValid, HoldsLease;
    PA.RowWritten(y, op);
    if PA.Intended(y, op).Some? {
      IntendedFits(y, op);
    }
  }

  lemma CreatedFits(y: PS.Server, op: Op, id: RunId)
    requires op.OpCreate?
    requires PS.ServerInv(y) && AllFit(y.table) && id in PS.Perform(y, op).table
    ensures LeasesFit(PS.Perform(y, op).table[id].payload)
  {
    hide PS.ServerInv, PG.Create, PS.TableInv, PS.Creates, Inv;
    assert PS.TableInv(y.table) by { TableOf(y); }
    PS.CreateTable(y.table, op.request);
  }

  lemma TableOf(y: PS.Server)
    requires PS.ServerInv(y)
    ensures PS.TableInv(y.table)
  {
    hide PS.TableInv, Inv;
  }

  /** With such deadlines nothing is ever refused, and the repositories are always in step. */
  lemma {:induction false} AlwaysInStep(ops: seq<Op>)
    requires forall op :: op in ops ==> Fits(op)
    ensures InStepAfter(ops) && AllFit(PS.PerformAll(PS.START, ops).table)
  {
    hide MS.Perform, PS.Perform, InStep, Fits, PA.Refused, LeasesFit;
    if ops == [] {
      StartInStep();
    } else {
      var n := |ops| - 1;
      AlwaysInStep(ops[..n]);
      assert ops[n] in ops;
      var x, y := MS.PerformAll(MS.START, ops[..n]), PS.PerformAll(PS.START, ops[..n]);
      FitsAreNotRefused(y, ops[n]);
      InStepIff(x, y, ops[n]);
      assert PS.ServerInv(y) by { hide MS.SystemInv, PS.ServerInv, SimSystems; Sides(x, y); }
      FitStays(y, ops[n]);
    }
  }
}
