/** The PostgreSQL repository driven by its clients: it refines the same run machine, its indexed
    columns are exact, and no transition is ever refused as conflicting under the row lock. */
module PostgresSystem {
  import opened Types
  import opened Workflows
  import opened Evaluation
  import opened Policy
  import opened Transitions
  import opened StepLog
  import opened StepInvariant
  import opened RunInvariant
  import opened RunTheorems
  import opened RunMachine
  import opened Operations
  import Memory = MemoryStore
  import System = MemorySystem
  import PG = PostgresStore

  datatype Server = Server(table: PG.Table, issued: IssuedClaims)

  const START: Server := Server(map[], map[])

  ghost function Selected(t: PG.Table, now: nat): set<RunId> {
    set id | id in t && PG.Due(t, id, now)
  }

  ghost predicate Creates(t: PG.Table, request: RunRequest) {
    && ValidRequest(request)
    && !(request.idempotencyKey.Some? && exists id :: PG.KeyTaken(t, request.idempotencyKey.value, id))
    && request.runId !in t
  }

  /** The row after an operation on one run, or the table after recovery. */
  ghost function TableAfter(x: Server, op: Op): PG.Table {
    match op
    case OpCreate(request) => PG.Create(x.table, request).0
    case OpClaim(run, worker, leaseMs, now) => PG.ClaimNext(x.table, run, worker, leaseMs, now).0
    case OpRenew(run, step, attempt, leaseMs, now) =>
      var claim := ClaimNamed(x.issued, run, step, attempt);
      if claim.Some? then PG.Renew(x.table, claim.value, leaseMs, now).0 else x.table
    case OpComplete(run, step, attempt, c, now) =>
      var claim := ClaimNamed(x.issued, run, step, attempt);
      if claim.Some? then PG.Complete(x.table, claim.value, c, now).0 else x.table
    case OpRecord(run, e) => PG.Record(x.table, run, e).0
    case OpFinish(run, metrics) => PG.Finish(x.table, run, metrics).0
    case OpCancel(run, now) => PG.Cancel(x.table, run, now).0
    case OpRecover(now) => PG.Recover(x.table, System.VisitOrder(Selected(x.table, now)), now).0
  }

  ghost function IssuedAfter(x: Server, op: Op): IssuedClaims {
    match op
    case OpCreate(request) => if Creates(x.table, request) then x.issued[request.runId := map[]] else x.issued
    case OpClaim(run, worker, leaseMs, now) =>
      var answer := PG.ClaimNext(x.table, run, worker, leaseMs, now).1;
      if answer.Ok? && answer.value.Some? then AddIssued(x.issued, run, answer.value.value) else x.issued
    case _ => x.issued
  }

  ghost function Perform(x: Server, op: Op): Server {
    Server(TableAfter(x, op), IssuedAfter(x, op))
  }

  ghost function PerformAll(x: Server, ops: seq<Op>): Server {
    if ops == [] then x
    else Perform(PerformAll(x, ops[..|ops| - 1]), ops[|ops| - 1])
  }

  ghost function TrackedRow(x: Server, id: RunId): Tracked
    requires id in x.table
  {
    Tracked(x.table[id].payload, ClaimsOf(x.issued, id))
  }

  /** Columns agree with payloads, and keys are unique. */
  ghost predicate TableInv(t: PG.Table) {
    && (forall id :: id in t ==>
          t[id].payload.runId == id && t[id] == PG.RowOf(t[id].payload) && PG.ExpiryFits(t[id].payload))
    && PG.KeysUnique(t)
  }

  ghost predicate ServerInv(x: Server) {
    && TableInv(x.table)
    && x.issued.Keys == x.table.Keys
    && (forall id :: id in x.table ==> Inv(TrackedRow(x, id)))
    && System.IssuedOwn(x.issued)
  }

  // Drawing tokens and sequences from the run itself.

  lemma OwnTokens(run: RunRecord)
    ensures TokensUpTo(run, Memory.MaxOf(Memory.HistoryTokens(run)))
  {
    forall id, i | id in run.steps && 0 <= i < |run.steps[id].history|
      ensures run.steps[id].history[i].leaseToken <= Memory.MaxOf(Memory.HistoryTokens(run))
    {
      assert run.steps[id].history[i].leaseToken in Memory.HistoryTokens(run);
    }
  }

  lemma OwnSequences(run: RunRecord)
    requires LogOk(run)
    ensures Fresh(run, PG.LastSequence(run) + 1) && LogUpTo(run, PG.LastSequence(run))
  {
    forall v | v in run.eventLog ensures v.sequence <= PG.LastSequence(run) {
      var i :| 0 <= i < |run.eventLog| && run.eventLog[i] == v;
    }
  }

  // Revisions.

  predicate SameButRevision(a: RunRecord, b: RunRecord) {
    a == b.(revision := a.revision)
  }

  lemma RevisionFree(a: RunRecord, b: RunRecord, claims: Claims)
    requires SameButRevision(a, b) && RunInv(a, claims)
    ensures RunInv(b, claims)
  {
    hide StepInv, Replay, ValidSteps, ManifestCovers, LastFinish, EvaluateGates;
    SameStepsKept(a, claims, b);
    FinishFrame(a, b);
  }

  /** A loaded run written back with a higher revision replaces its row, unless a lease expires
      beyond the range of the column: never a conflict. */
  lemma PersistNeverConflicts(t: PG.Table, id: RunId, run: RunRecord)
    requires TableInv(t) && id in t && run.runId == id && run.revision > t[id].payload.revision
    requires run.idempotencyKey == t[id].payload.idempotencyKey
    ensures PG.Persist(t, run) == if PG.ExpiryFits(run) then Ok(t[id := PG.RowOf(run)]) else Err(Storage)
    ensures PG.ExpiryFits(run) ==> TableInv(t[id := PG.RowOf(run)])
  {
    hide PG.EarliestExpiry;
  }

  /** The column holds the earliest lease expiry, so the recovery query selects exactly the rows with
      an expired lease. */
  lemma RecoveryQueryIsExact(t: PG.Table, id: RunId, now: nat)
    requires TableInv(t) && id in t
    ensures PG.Due(t, id, now)
            <==> exists step :: step in t[id].payload.steps && Expired(t[id].payload.steps[step], now)
  {
    var run := t[id].payload;
    var m := PG.EarliestExpiry(run);
    if m.Some? {
      var step :| step in run.steps && run.steps[step].lease.Some? && run.steps[step].lease.value.expiresAt == m.value;
    }
  }

  // Refinement.

  /** One operation is one legal move of every stored run, up to the revision, which never falls. */
  ghost predicate RefinedBy(x: Server, op: Op, id: RunId, m: Move)
    requires id in x.table
  {
    && id in Perform(x, op).table
    && Legal(TrackedRow(x, id), m)
    && SameButRevision(Perform(x, op).table[id].payload, Next(TrackedRow(x, id), m).run)
    && ClaimsOf(Perform(x, op).issued, id) == Next(TrackedRow(x, id), m).claims
    && CarriedBy(op, id, x.issued, m)
  }

  lemma RowFacts(x: Server, id: RunId)
    requires ServerInv(x) && id in x.table
    ensures var run := x.table[id].payload;
            && run.runId == id && x.table[id].revision == run.revision
            && Fresh(run, PG.LastSequence(run) + 1) && LogUpTo(run, PG.LastSequence(run))
            && TokensUpTo(run, Memory.MaxOf(Memory.HistoryTokens(run)))
            && Inv(TrackedRow(x, id)) && TableInv(x.table)
  {
    hide StepsOk, StatusOk, ValidSteps, ManifestCovers, Memory.HistoryTokens, Memory.MaxOf;
    assert Inv(TrackedRow(x, id));
    OwnSequences(x.table[id].payload);
    OwnTokens(x.table[id].payload);
  }

  lemma NamedClaimFits(x: Server, run: RunId, step: StepId, attempt: nat)
    requires ServerInv(x) && ClaimNamed(x.issued, run, step, attempt).Some?
    ensures var claim := ClaimNamed(x.issued, run, step, attempt).value;
            claim.runId == run && claim.step.id == step && run in x.table && Issued(ClaimsOf(x.issued, run), claim)
  {
    hide Inv, TableInv;
  }

  lemma Refines(x: Server, op: Op, id: RunId) returns (m: Move)
    requires ServerInv(x) && id in x.table
    ensures RefinedBy(x, op, id, m) && TableInv(Perform(x, op).table)
    ensures !op.OpCreate? ==> Perform(x, op).table.Keys == x.table.Keys
  {
    hide ServerInv, RefinedBy, TableInv, Perform;
    match op {
      case OpCreate(_) => m := CreateRefines(x, op, id);
      case OpClaim(_, _, _, _) => m := ClaimRefines(x, op, id);
      case OpRenew(_, _, _, _, _) => m := RenewRefines(x, op, id);
      case OpComplete(_, _, _, _, _) => m := CompleteRefines(x, op, id);
      case OpRecover(_) => m := RecoverRefines(x, op, id);
      case OpRecord(_, _) => m := RecordRefines(x, op, id);
      case OpFinish(_, _) => m := FinishRefines(x, op, id);
      case OpCancel(_, _) => m := CancelRefines(x, op, id);
    }
  }

  lemma CreateRefused(t: PG.Table, request: RunRequest)
    requires !Creates(t, request)
    ensures PG.Create(t, request).0 == t
  {
    hide ValidRequest;
  }

  lemma CreateRow(t: PG.Table, request: RunRequest)
    requires TableInv(t) && Creates(t, request)
    ensures TableInv(t[request.runId := PG.RowOf(CreateAndLog(request, 1))])
  {
    hide ValidRequest, PG.EarliestExpiry;
    assert PG.EarliestExpiry(CreateAndLog(request, 1)).None? by { NoLeases(request); }
    assert forall id :: id in t && t[id].key.Some? && t[id].key == request.idempotencyKey ==>
        PG.KeyTaken(t, request.idempotencyKey.value, id);
  }

  lemma CreateTable(t: PG.Table, request: RunRequest)
    requires TableInv(t)
    ensures TableInv(PG.Create(t, request).0)
    ensures !Creates(t, request) ==> PG.Create(t, request).0 == t
    ensures Creates(t, request) ==>
              var run := CreateAndLog(request, 1);
              PG.Create(t, request) == (t[request.runId := PG.RowOf(run)], Ok(run))
  {
    hide ValidRequest, TableInv, PG.RowOf, CreateAndLog;
    if Creates(t, request) {
      CreateRow(t, request);
    } else {
      CreateRefused(t, request);
    }
  }

  lemma NoLeases(request: RunRequest)
    ensures PG.EarliestExpiry(CreateAndLog(request, 1)).None?
  {
  }

  lemma CreateRefines(x: Server, op: Op, id: RunId) returns (m: Move)
    requires ServerInv(x) && id in x.table && op.OpCreate?
    ensures RefinedBy(x, op, id, m) && TableInv(Perform(x, op).table)
  {
    hide Inv, TableInv, PG.Create;
    CreateTable(x.table, op.request);
    CreateElsewhere(x.table, op.request, id);
    m := Stay;
  }

  lemma CreateElsewhere(t: PG.Table, request: RunRequest, id: RunId)
    requires TableInv(t) && id in t
    ensures id in PG.Create(t, request).0 && PG.Create(t, request).0[id] == t[id]
    ensures Creates(t, request) ==> request.runId != id
  {
    hide ValidRequest, PG.RowOf;
  }

  /** The operation writes back the row of one run and hands out no claim. */
  ghost predicate Writes(x: Server, op: Op, run: RunId, after: RunRecord) {
    run in x.table && TableAfter(x, op) == x.table[run := PG.RowOf(after)] && IssuedAfter(x, op) == x.issued
  }

  ghost predicate LeavesAlone(x: Server, op: Op) {
    TableAfter(x, op) == x.table && IssuedAfter(x, op) == x.issued
  }

  /** No row is added or removed, columns stay right, and each run makes the given move. */
  ghost predicate Stored(x: Server, op: Op, id: RunId, m: Move)
    requires id in x.table
  {
    RefinedBy(x, op, id, m) && TableInv(Perform(x, op).table) && Perform(x, op).table.Keys == x.table.Keys
  }

  lemma WriteIsMove(x: Server, op: Op, id: RunId, run: RunId, after: RunRecord, m: Move)
    requires id in x.table && Writes(x, op, run, after) && TableInv(TableAfter(x, op))
    requires run != id ==> m.Stay?
    requires CarriedBy(op, id, x.issued, m)
    requires run == id ==>
               && Legal(TrackedRow(x, id), m) && !m.Claim?
               && SameButRevision(after, Next(TrackedRow(x, id), m).run)
    ensures Stored(x, op, id, m)
  {
    hide TableAfter, IssuedAfter, TableInv, PG.EarliestExpiry, CompletionMatches, EventValid, HoldsLease, Fresh,
      LogUpTo;
  }

  lemma NoWriteIsStay(x: Server, op: Op, id: RunId)
    requires id in x.table && LeavesAlone(x, op) && TableInv(x.table)
    ensures Stored(x, op, id, Stay)
  {
    hide TableAfter, IssuedAfter, TableInv;
  }

  /** What claiming does to the table and to the claims handed out. */
  ghost predicate ClaimEffect(x: Server, op: Op, after: RunRecord, claim: StepClaim)
    requires op.OpClaim?
  {
    && op.run in x.table && TableAfter(x, op) == x.table[op.run := PG.RowOf(after)]
    && IssuedAfter(x, op) == AddIssued(x.issued, op.run, claim) && claim.runId == op.run
  }

  lemma StayIsLegal(a: Tracked)
    ensures Legal(a, Stay) && Next(a, Stay) == a
  {
  }

  lemma ClaimIsMove(x: Server, op: Op, id: RunId, after: RunRecord, claim: StepClaim, m: Move)
    requires op.OpClaim? && id in x.table && ClaimEffect(x, op, after, claim) && TableInv(TableAfter(x, op))
    requires op.run != id ==> m.Stay?
    requires op.run == id ==> Legal(TrackedRow(x, id), m)
                              && Next(TrackedRow(x, id), m) == Tracked(after, AddClaim(ClaimsOf(x.issued, id), claim))
                              && m.Claim?
    ensures Stored(x, op, id, m)
  {
    hide TableAfter, IssuedAfter, TableInv, PG.EarliestExpiry, Legal, Next, AddClaim;
    StayIsLegal(TrackedRow(x, id));
  }

  /** A claim either leaves everything alone or leases the first claimable step. */
  lemma ClaimOutcome(x: Server, op: Op) returns (step: Option<StepSpec>)
    requires op.OpClaim? && TableInv(x.table)
    ensures step.None? ==> LeavesAlone(x, op)
    ensures step.None? && op.run in x.table ==>
              var run := x.table[op.run].payload;
              var next := FirstClaimable(run, op.worker, run.workflow.steps, op.now);
              var token := Memory.MaxOf(Memory.HistoryTokens(run)) + 1;
              run.status.RunRunning? && next.Some? ==>
                !PG.ExpiryFits(ClaimRun(run, next.value, op.worker.id, token, op.leaseMs, op.now, true).0)
    ensures step.Some? ==>
              && op.run in x.table && TableInv(TableAfter(x, op))
              && var run := x.table[op.run].payload;
              && run.runId == op.run && run.status.RunRunning?
              && step == FirstClaimable(run, op.worker, run.workflow.steps, op.now)
              && var token := Memory.MaxOf(Memory.HistoryTokens(run)) + 1;
                 var (after, claim) := ClaimRun(run, step.value, op.worker.id, token, op.leaseMs, op.now, true);
                 ClaimEffect(x, op, after, claim)
  {
    hide TableInv, PG.Persist, Available, SupportsTask, DependenciesDone, StepInput, Memory.MaxOf,
      Memory.HistoryTokens, PG.EarliestExpiry, PG.ExpiryFits, ClaimRecord;
    step := None;
    if op.run in x.table {
      RowAt(x.table, op.run);
      var run := x.table[op.run].payload;
      var next := FirstClaimable(run, op.worker, run.workflow.steps, op.now);
      if run.status.RunRunning? && next.Some? {
        var token := Memory.MaxOf(Memory.HistoryTokens(run)) + 1;
        var (after, claim) := ClaimRun(run, next.value, op.worker.id, token, op.leaseMs, op.now, true);
        PersistNeverConflicts(x.table, op.run, after);
        if PG.ExpiryFits(after) {
          step := next;
        }
      }
    }
  }

  lemma RowAt(t: PG.Table, id: RunId)
    requires TableInv(t) && id in t
    ensures t[id].payload.runId == id && t[id].revision == t[id].payload.revision
  {
    hide PG.EarliestExpiry, PG.KeysUnique;
  }

  lemma ClaimRefines(x: Server, op: Op, id: RunId) returns (m: Move)
    requires ServerInv(x) && id in x.table && op.OpClaim?
    ensures Stored(x, op, id, m)
  {
    hide ServerInv, Inv, TableInv, TableAfter, IssuedAfter, Stored, LeavesAlone, ClaimEffect, Available,
      SupportsTask, DependenciesDone, TokensUpTo, Memory.MaxOf, Memory.HistoryTokens, Fresh, LogUpTo,
      PG.LastSequence, ClaimRun;
    RowFacts(x, id);
    var step := ClaimOutcome(x, op);
    m := Stay;
    if step.None? {
      NoWriteIsStay(x, op, id);
    } else {
      var run := x.table[op.run].payload;
      var token := Memory.MaxOf(Memory.HistoryTokens(run)) + 1;
      var (after, claim) := ClaimRun(run, step.value, op.worker.id, token, op.leaseMs, op.now, true);
      if op.run == id {
        m := Claim(op.worker, step.value, token, op.leaseMs, op.now, true);
      }
      ClaimIsMove(x, op, id, after, claim, m);
    }
  }

  lemma RenewRefines(x: Server, op: Op, id: RunId) returns (m: Move)
    requires ServerInv(x) && id in x.table && op.OpRenew?
    ensures Stored(x, op, id, m)
  {
    hide ServerInv, Inv, TableInv, Stored, PG.Persist, TokensUpTo, Memory.MaxOf, Memory.HistoryTokens,
      PG.ExpiryFits, PG.RowOf, Fresh, LogUpTo, LeaseHeld, ClaimNamed, Issued;
    RowFacts(x, id);
    m := Stay;
    var named := ClaimNamed(x.issued, op.run, op.step, op.attempt);
    if named.Some? {
      NamedClaimFits(x, op.run, op.step, op.attempt);
      RowFacts(x, op.run);
      var run := x.table[op.run].payload;
      if HoldsLease(run, named.value, op.now) {
        var run2 := RenewRun(run, named.value, op.leaseMs, op.now);
        PersistNeverConflicts(x.table, op.run, run2);
        if PG.ExpiryFits(run2) {
          m := if op.run == id then Renew(named.value, op.leaseMs, op.now) else Stay;
          WriteIsMove(x, op, id, op.run, run2, m);
          return;
        }
      }
    }
    NoWriteIsStay(x, op, id);
  }

  lemma CompleteRefines(x: Server, op: Op, id: RunId) returns (m: Move)
    requires ServerInv(x) && id in x.table && op.OpComplete?
    ensures Stored(x, op, id, m)
  {
    hide ServerInv, Inv, TableInv, Stored, PG.Persist, TokensUpTo, Memory.MaxOf, Memory.HistoryTokens,
      PG.ExpiryFits, PG.RowOf, Fresh, LogUpTo, LeaseHeld, ClaimNamed, Issued, CompletionMatches, CompleteRecord;
    RowFacts(x, id);
    m := Stay;
    var named := ClaimNamed(x.issued, op.run, op.step, op.attempt);
    if named.Some? {
      NamedClaimFits(x, op.run, op.step, op.attempt);
      RowFacts(x, op.run);
      var run := x.table[op.run].payload;
      if HoldsLease(run, named.value, op.now) && CompletionMatches(op.completion, named.value, run.manifest) {
        var run2 := CompleteAndLog(run, named.value, op.completion, PG.LastSequence(run) + 1, op.now);
        PersistNeverConflicts(x.table, op.run, run2);
        if PG.ExpiryFits(run2) {
          m := if op.run == id then Complete(named.value, op.completion, PG.LastSequence(run) + 1, op.now) else Stay;
          WriteIsMove(x, op, id, op.run, run2, m);
          return;
        }
      }
    }
    NoWriteIsStay(x, op, id);
  }

  lemma RecordRefines(x: Server, op: Op, id: RunId) returns (m: Move)
    requires ServerInv(x) && id in x.table && op.OpRecord?
    ensures Stored(x, op, id, m)
  {
    hide ServerInv, Inv, TableInv, Stored, PG.Persist, TokensUpTo, Memory.MaxOf, Memory.HistoryTokens,
      PG.ExpiryFits, PG.RowOf, Fresh, LogUpTo, EventValid;
    RowFacts(x, id);
    m := Stay;
    if op.run in x.table {
      RowFacts(x, op.run);
      var run := x.table[op.run].payload;
      if EventBelongs(op.event, op.run) && EventValid(run, op.event) {
        var run2 := AppendEvent(run, PG.LastSequence(run) + 1, op.event);
        PersistNeverConflicts(x.table, op.run, run2);
        if PG.ExpiryFits(run2) {
          m := if op.run == id then Record(op.event, PG.LastSequence(run) + 1) else Stay;
          WriteIsMove(x, op, id, op.run, run2, m);
          return;
        }
      }
    }
    NoWriteIsStay(x, op, id);
  }

  /** Skipping the write when nothing changes loses nothing: the judged run is the stored one. */
  lemma UnchangedVerdict(run: RunRecord, claims: Claims, metrics: seq<Metric>)
    requires RunInv(run, claims)
    ensures var judged := FinishRun(run, metrics);
            judged.status == run.status && judged.metrics == run.metrics && judged.gateDecisions == run.gateDecisions
            ==> judged == run
  {
    hide StepsOk, LogOk, ValidSteps, ManifestCovers, LastFinish, EvaluateGates, AllSucceeded, AllPassed;
  }

  lemma UnknownRun(x: Server, op: Op)
    requires op.OpFinish? && op.run !in x.table
    ensures LeavesAlone(x, op)
  {
  }

  lemma FinishOutcome(x: Server, op: Op)
    requires op.OpFinish? && TableInv(x.table) && op.run in x.table
    ensures var run := x.table[op.run].payload;
            var after := PG.Touch(FinishAndLog(run, op.metrics, PG.LastSequence(run) + 1));
            LeavesAlone(x, op) || (Writes(x, op, op.run, after) && TableInv(TableAfter(x, op)))
  {
    hide TableInv, PG.Persist, PG.ExpiryFits, PG.RowOf, EvaluateGates, HasFailed, AllSucceeded, AllPassed;
    RowAt(x.table, op.run);
    var run := x.table[op.run].payload;
    PersistNeverConflicts(x.table, op.run, PG.Touch(FinishAndLog(run, op.metrics, PG.LastSequence(run) + 1)));
  }

  lemma FinishRefines(x: Server, op: Op, id: RunId) returns (m: Move)
    requires ServerInv(x) && id in x.table && op.OpFinish?
    ensures Stored(x, op, id, m)
  {
    hide ServerInv, RunInv, TableInv, Stored, TableAfter, TokensUpTo, Memory.MaxOf, Memory.HistoryTokens, Fresh,
      LogUpTo, FinishAndLog, PG.LastSequence, Writes, LeavesAlone;
    RowFacts(x, id);
    m := Stay;
    if op.run !in x.table {
      UnknownRun(x, op);
      NoWriteIsStay(x, op, id);
    } else {
      FinishOutcome(x, op);
      var run := x.table[op.run].payload;
      if LeavesAlone(x, op) {
        NoWriteIsStay(x, op, id);
      } else {
        m := if op.run == id then Finish(op.metrics, PG.LastSequence(run) + 1) else Stay;
        WriteIsMove(x, op, id, op.run, PG.Touch(FinishAndLog(run, op.metrics, PG.LastSequence(run) + 1)), m);
      }
    }
  }

  lemma CancelRefines(x: Server, op: Op, id: RunId) returns (m: Move)
    requires ServerInv(x) && id in x.table && op.OpCancel?
    ensures Stored(x, op, id, m)
  {
    hide ServerInv, Inv, TableInv, Stored, PG.Persist, TokensUpTo, Memory.MaxOf, Memory.HistoryTokens,
      PG.ExpiryFits, PG.RowOf, Fresh, LogUpTo, CancelRecord;
    RowFacts(x, id);
    m := Stay;
    if op.run in x.table {
      RowFacts(x, op.run);
      var run := x.table[op.run].payload;
      if !Terminal(run.status) {
        var run2 := PG.Touch(CancelAndLog(run, PG.LastSequence(run) + 1, op.now));
        PersistNeverConflicts(x.table, op.run, run2);
        if PG.ExpiryFits(run2) {
          m := if op.run == id then Cancel(PG.LastSequence(run) + 1, op.now) else Stay;
          WriteIsMove(x, op, id, op.run, run2, m);
          return;
        }
      }
    }
    NoWriteIsStay(x, op, id);
  }

  lemma {:induction false} NothingExpired(run: RunRecord, steps: seq<StepSpec>, last: nat, now: nat)
    ensures var (r, m, expired) := RecoverSteps(run, steps, last, now);
            && r.revision == run.revision + |expired|
            && (expired == [] ==> r == run)
  {
    hide RecoverRecord, StepExpired;
    if steps != [] {
      NothingExpired(run, steps[..|steps| - 1], last, now);
    }
  }

  /** The rows after recovery, against the run machine's recovery of each payload. */
  ghost predicate RowsRecovered(t: PG.Table, u: PG.Table, order: seq<RunId>, now: nat) {
    && u.Keys == t.Keys
    && (forall id :: id in t && id !in order ==> u[id] == t[id])
    && (forall id :: id in t && id in order ==>
          SameButRevision(u[id].payload,
                          RecoverSteps(t[id].payload, t[id].payload.workflow.steps,
                                       PG.LastSequence(t[id].payload), now).0))
  }

  lemma {:induction false} RecoverRowsRefine(t: PG.Table, order: seq<RunId>, now: nat)
    requires TableInv(t) && NoDuplicates(order) && (forall id :: id in order ==> id in t)
    requires PG.RecoverRows(t, order, now).Ok?
    ensures var (u, pairs) := PG.RecoverRows(t, order, now).value;
            TableInv(u) && RowsRecovered(t, u, order, now)
    ensures order != [] ==> PG.RecoverRows(t, order[..|order| - 1], now).Ok?
  {
    hide RecoverSteps, TableInv, PG.RecoverRow, PG.LastSequence, SameButRevision;
    if order != [] {
      var n := |order| - 1;
      var init, id := order[..n], order[n];
      assert id !in init && order == init + [id];
      RecoverRowsRefine(t, init, now);
      var (u, pairs) := PG.RecoverRows(t, init, now).value;
      OneRowRecovered(u, id, now);
    }
  }

  lemma OneRowRecovered(t: PG.Table, id: RunId, now: nat)
    requires TableInv(t) && id in t && PG.RecoverRow(t, id, now).0.Ok?
    ensures var u := PG.RecoverRow(t, id, now).0.value;
            && TableInv(u) && id in u && u == t[id := u[id]]
            && SameButRevision(u[id].payload,
                               RecoverSteps(t[id].payload, t[id].payload.workflow.steps,
                                   PG.LastSequence(t[id].payload), now).0)
  {
    hide RecoverSteps, PG.Persist;
    var run := t[id].payload;
    NothingExpired(run, run.workflow.steps, PG.LastSequence(run), now);
    var (r, last, expired) := RecoverSteps(run, run.workflow.steps, PG.LastSequence(run), now);
    if expired != [] {
      PersistNeverConflicts(t, id, PG.Touch(r));
    } else {
      assert t[id := t[id]] == t;
    }
  }

  lemma RowsKnown(x: Server, now: nat)
    requires ServerInv(x)
    ensures TableInv(x.table) && forall id :: id in System.VisitOrder(Selected(x.table, now)) ==> id in x.table
  {
    hide Inv, TableInv;
  }

  lemma RecoverOutcome(x: Server, op: Op)
    requires op.OpRecover?
    ensures IssuedAfter(x, op) == x.issued
    ensures var rows := PG.RecoverRows(x.table, System.VisitOrder(Selected(x.table, op.now)), op.now);
            TableAfter(x, op) == if rows.Ok? then rows.value.0 else x.table
  {
    hide PG.RecoverRows, Selected;
  }

  lemma TableIsMove(x: Server, op: Op, id: RunId, u: PG.Table, m: Move)
    requires id in x.table && TableAfter(x, op) == u && IssuedAfter(x, op) == x.issued
    requires TableInv(u) && u.Keys == x.table.Keys
    requires Legal(TrackedRow(x, id), m) && SameButRevision(u[id].payload, Next(TrackedRow(x, id), m).run)
    requires Next(TrackedRow(x, id), m).claims == ClaimsOf(x.issued, id) && CarriedBy(op, id, x.issued, m)
    ensures Stored(x, op, id, m)
  {
    hide TableAfter, IssuedAfter, TableInv, Legal, Next, SameButRevision;
  }

  lemma RecoveredMove(x: Server, u: PG.Table, order: seq<RunId>, now: nat, id: RunId) returns (m: Move)
    requires id in x.table && RowsRecovered(x.table, u, order, now)
    requires LogUpTo(x.table[id].payload, PG.LastSequence(x.table[id].payload))
    ensures id in u && Legal(TrackedRow(x, id), m) && SameButRevision(u[id].payload, Next(TrackedRow(x, id), m).run)
    ensures Next(TrackedRow(x, id), m).claims == ClaimsOf(x.issued, id)
    ensures m.Stay? || m == Recover(PG.LastSequence(x.table[id].payload), now)
  {
    hide RecoverSteps, LogUpTo, PG.LastSequence;
    m := if id in order then Recover(PG.LastSequence(x.table[id].payload), now) else Stay;
  }

  lemma RecoverRefines(x: Server, op: Op, id: RunId) returns (m: Move)
    requires ServerInv(x) && id in x.table && op.OpRecover?
    ensures Stored(x, op, id, m)
  {
    hide Inv, TableInv, PG.RecoverRows, RecoverSteps, Selected, TokensUpTo, Memory.MaxOf, Memory.HistoryTokens,
      PG.RowOf, Fresh, LogUpTo, NoDuplicates, ServerInv, TableAfter, IssuedAfter, Stored, Legal, Next,
      SameButRevision, PG.LastSequence;
    RecoverOutcome(x, op);
    RowsKnown(x, op.now);
    var order := System.VisitOrder(Selected(x.table, op.now));
    RowFacts(x, id);
    if PG.RecoverRows(x.table, order, op.now).Ok? {
      RecoverRowsRefine(x.table, order, op.now);
      var u := PG.RecoverRows(x.table, order, op.now).value.0;
      m := RecoveredMove(x, u, order, op.now, id);
      TableIsMove(x, op, id, u, m);
    } else {
      m := Stay;
      NoWriteIsStay(x, op, id);
    }
  }

  // Reachable states.

  /** Rows appear only by creation, and then in order. */
  lemma RowsAfter(x: Server, op: Op)
    requires ServerInv(x)
    ensures IssuedAfter(x, op).Keys == TableAfter(x, op).Keys && System.IssuedOwn(IssuedAfter(x, op))
    ensures forall id :: id in TableAfter(x, op) && id !in x.table ==>
              op.OpCreate? && Creates(x.table, op.request) && id == op.request.runId
              && Inv(TrackedRow(Perform(x, op), id))
    ensures TableInv(TableAfter(x, op))
  {
    hide ServerInv, RunInv, TableAfter, IssuedAfter, TableInv, System.IssuedOwn, Perform, RefinedBy;
    if op.OpCreate? {
      CreateRows(x, op);
    } else {
      OtherRows(x, op);
    }
  }

  lemma CreateRows(x: Server, op: Op)
    requires ServerInv(x) && op.OpCreate?
    ensures IssuedAfter(x, op).Keys == TableAfter(x, op).Keys && System.IssuedOwn(IssuedAfter(x, op))
    ensures forall id :: id in TableAfter(x, op) && id !in x.table ==>
              Creates(x.table, op.request) && id == op.request.runId && Inv(TrackedRow(Perform(x, op), id))
    ensures TableInv(TableAfter(x, op))
  {
    hide RunInv, TableInv, Creates, PG.Create;
    CreateTable(x.table, op.request);
    if Creates(x.table, op.request) {
      CreatedInOrder(x.table, op.request);
    }
  }

  lemma CreatedInOrder(t: PG.Table, request: RunRequest)
    requires Creates(t, request)
    ensures RunInv(CreateAndLog(request, 1), map[])
  {
    hide RunInv, ValidRequest;
    CreateKeeps(request, 1);
  }

  lemma OtherRows(x: Server, op: Op)
    requires ServerInv(x) && !op.OpCreate?
    ensures TableAfter(x, op).Keys == x.table.Keys && TableInv(TableAfter(x, op))
    ensures IssuedAfter(x, op).Keys == x.table.Keys && System.IssuedOwn(IssuedAfter(x, op))
  {
    hide Inv, TableInv, TableAfter, PG.ClaimNext, System.IssuedOwn, RefinedBy;
    if id :| id in x.table {
      var m := Refines(x, op, id);
    } else {
      EmptyTable(x, op);
    }
    if op.OpClaim? {
      ClaimsFiled(x, op);
    }
  }

  lemma EmptyTable(x: Server, op: Op)
    requires ServerInv(x) && !op.OpCreate? && x.table == map[]
    ensures TableAfter(x, op) == x.table
  {
    hide Inv, TableInv;
    if (op.OpRenew? || op.OpComplete?) && ClaimNamed(x.issued, op.run, op.step, op.attempt).Some? {
      NamedClaimFits(x, op.run, op.step, op.attempt);
    }
    if op.OpRecover? {
      assert Selected(x.table, op.now) == {};
    }
  }

  lemma ClaimsFiled(x: Server, op: Op)
    requires ServerInv(x) && op.OpClaim?
    ensures IssuedAfter(x, op).Keys == x.table.Keys && System.IssuedOwn(IssuedAfter(x, op))
  {
    hide Inv, TableInv, TableAfter, IssuedAfter, ClaimRecord, StepInput, Memory.MaxOf, Memory.HistoryTokens,
      Claimable;
    var step := ClaimOutcome(x, op);
  }

  lemma PerformKeeps(x: Server, op: Op)
    requires ServerInv(x)
    ensures ServerInv(Perform(x, op))
  {
    hide RunInv, TableInv, TableAfter, IssuedAfter, System.IssuedOwn, Legal, Next;
    var y := Perform(x, op);
    RowsAfter(x, op);
    forall id | id in y.table ensures Inv(TrackedRow(y, id)) {
      if id in x.table {
        var m := Refines(x, op, id);
        MoveKeeps(TrackedRow(x, id), m);
        var z := Next(TrackedRow(x, id), m);
        RevisionFree(z.run, y.table[id].payload, z.claims);
      }
    }
  }

  /** Every state the clients can reach is in order. */
  lemma {:induction false} Reachable(ops: seq<Op>)
    ensures ServerInv(PerformAll(START, ops))
  {
    hide Perform, ServerInv;
    if ops == [] {
      StartInOrder();
    } else {
      Reachable(ops[..|ops| - 1]);
      PerformKeeps(PerformAll(START, ops[..|ops| - 1]), ops[|ops| - 1]);
    }
  }

  lemma StartInOrder()
    ensures ServerInv(START)
  {
  }
}
