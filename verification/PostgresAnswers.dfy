/** What each PostgreSQL transaction answers, exactly. The only unexpected error is the storage error
    of a row that cannot be written because every lease left in it expires beyond the signed column;
    this module says when that happens, operation by operation, and what follows from it. */
module PostgresAnswers {
  import opened Types
  import opened Workflows
  import opened Evaluation
  import opened Policy
  import opened Transitions
  import opened StepInvariant
  import opened RunInvariant
  import opened RunTheorems
  import opened RunMachine
  import opened PostgresSystem
  import opened Operations
  import Memory = MemoryStore
  import System = MemorySystem
  import PG = PostgresStore

  // Rows that cannot be written.

  predicate LeaseOut(r: StepRecord) {
    r.lease.Some?
  }

  predicate BeyondColumn(r: StepRecord) {
    r.lease.Some? && r.lease.value.expiresAt > I64_MAX
  }

  /** A lease is out, and every lease that is out expires beyond the column. */
  predicate Unwritable(run: RunRecord) {
    && (exists id <- run.steps :: LeaseOut(run.steps[id]))
    && (forall id <- run.steps :: LeaseOut(run.steps[id]) ==> BeyondColumn(run.steps[id]))
  }

  lemma UnwritableIff(run: RunRecord)
    ensures PG.ExpiryFits(run) <==> !Unwritable(run)
  {
    var m := PG.EarliestExpiry(run);
    if m.Some? {
      var id :| id in run.steps && run.steps[id].lease.Some? && run.steps[id].lease.value.expiresAt == m.value;
      assert LeaseOut(run.steps[id]);
    }
  }

  // The row an operation means to write.

  ghost function NextToken(run: RunRecord): nat {
    Memory.MaxOf(Memory.HistoryTokens(run)) + 1
  }

  function NextSequence(run: RunRecord): nat {
    PG.LastSequence(run) + 1
  }

  ghost function ClaimMeant(run: RunRecord, worker: WorkerProfile, leaseMs: nat, now: nat)
    : Option<(RunRecord, StepClaim)>
  {
    var next := FirstClaimable(run, worker, run.workflow.steps, now);
    if run.status.RunRunning? && next.Some? then
      Some(ClaimRun(run, next.value, worker.id, NextToken(run), leaseMs, now, true))
    else None
  }

  function VerdictMeant(run: RunRecord, metrics: seq<Metric>): Option<RunRecord> {
    var judged := FinishRun(run, metrics);
    if judged.status == run.status && judged.metrics == run.metrics && judged.gateDecisions == run.gateDecisions
    then None
    else Some(PG.Touch(FinishAndLog(run, metrics, NextSequence(run))))
  }

  /** None if the operation ends without a write. */
  ghost function Intended(x: Server, op: Op): Option<RunRecord>
    requires OneRun(op)
  {
    if op.run !in x.table then None
    else
      var run := x.table[op.run].payload;
      match op
      case OpClaim(_, worker, leaseMs, now) =>
        var meant := ClaimMeant(run, worker, leaseMs, now);
        if meant.Some? then Some(meant.value.0) else None
      case OpRenew(_, step, attempt, leaseMs, now) =>
        var named := ClaimNamed(x.issued, op.run, step, attempt);
        if named.Some? && HoldsLease(run, named.value, now) then Some(RenewRun(run, named.value, leaseMs, now))
        else None
      case OpComplete(_, step, attempt, c, now) =>
        var named := ClaimNamed(x.issued, op.run, step, attempt);
        if named.Some? && HoldsLease(run, named.value, now) && CompletionMatches(c, named.value, run.manifest) then
          Some(CompleteAndLog(run, named.value, c, NextSequence(run), now))
        else None
      case OpRecord(_, e) =>
        if EventBelongs(e, op.run) && EventValid(run, e) then Some(AppendEvent(run, NextSequence(run), e)) else None
      case OpFinish(_, metrics) => VerdictMeant(run, metrics)
      case OpCancel(_, now) =>
        if Terminal(run.status) then None else Some(PG.Touch(CancelAndLog(run, NextSequence(run), now)))
  }

  /** The run and its claims once the write has succeeded. */
  ghost function RowAfter(x: Server, op: Op): Tracked
    requires OneRun(op) && op.run in x.table
  {
    var row, run := TrackedRow(x, op.run), Intended(x, op);
    if op.OpClaim? then
      var meant := ClaimMeant(row.run, op.worker, op.leaseMs, op.now);
      if meant.Some? then Tracked(meant.value.0, AddClaim(row.claims, meant.value.1)) else row
    else if run.Some? then row.(run := run.value) else row
  }

  ghost function Failure<T>(answer: Memory.Answer<T>): Option<RepositoryError> {
    if answer.Err? then Some(answer.error) else None
  }

  ghost function ErrorOf(x: Server, op: Op): Option<RepositoryError> {
    match op
    case OpCreate(request) => Failure(PG.Create(x.table, request).1)
    case OpClaim(run, worker, leaseMs, now) => Failure(PG.ClaimNext(x.table, run, worker, leaseMs, now).1)
    case OpRenew(run, step, attempt, leaseMs, now) =>
      var claim := ClaimNamed(x.issued, run, step, attempt);
      if claim.Some? then Failure(PG.Renew(x.table, claim.value, leaseMs, now).1) else None
    case OpComplete(run, step, attempt, c, now) =>
      var claim := ClaimNamed(x.issued, run, step, attempt);
      if claim.Some? then Failure(PG.Complete(x.table, claim.value, c, now).1) else None
    case OpRecord(run, e) => Failure(PG.Record(x.table, run, e).1)
    case OpFinish(run, metrics) => Failure(PG.Finish(x.table, run, metrics).1)
    case OpCancel(run, now) => Failure(PG.Cancel(x.table, run, now).1)
    case OpRecover(now) => Failure(PG.Recover(x.table, System.VisitOrder(Selected(x.table, now)), now).1)
  }

  /** The errors a caller can expect: unknown run, lost lease, invalid completion or event. */
  predicate Expected(error: RepositoryError) {
    error.RunNotFound? || error.LeaseLost? || error.InvalidCompletion? || error.InvalidEvent?
  }

  /** Nothing was meant to be written: the row stays, and an error is an expected one. */
  ghost predicate LeftAlone(x: Server, op: Op) {
    LeavesAlone(x, op) && (ErrorOf(x, op).Some? ==> Expected(ErrorOf(x, op).value))
  }

  /** The write of one row: refused with a storage error if it cannot be written, done otherwise. */
  ghost predicate WriteAnswered(x: Server, op: Op, run: RunRecord)
    requires OneRun(op)
  {
    if Unwritable(run) then ErrorOf(x, op) == Some(Storage) && LeavesAlone(x, op)
    else ErrorOf(x, op).None? && TableAfter(x, op) == x.table[op.run := PG.RowOf(run)]
  }

  /** Every operation on one run answers and writes exactly so. */
  ghost predicate Answered(x: Server, op: Op)
    requires OneRun(op)
  {
    var run := Intended(x, op);
    if run.None? then LeftAlone(x, op) else WriteAnswered(x, op, run.value)
  }

  lemma Answers(x: Server, op: Op)
    requires OneRun(op)
    requires ServerInv(x)
    ensures Answered(x, op)
  {
    hide ServerInv, Answered, Intended, LeftAlone, WriteAnswered;
    if op.run !in x.table {
      UnknownAnswer(x, op);
    } else {
      RowFacts(x, op.run);
      hide TableInv, RunInv;
      match op {
        case OpClaim(_, _, _, _) => ClaimAnswer(x, op);
        case OpRenew(_, _, _, _, _) => RenewAnswer(x, op);
        case OpComplete(_, _, _, _, _) => CompleteAnswer(x, op);
        case OpRecord(_, _) => RecordAnswer(x, op);
        case OpFinish(_, _) => FinishAnswer(x, op);
        case OpCancel(_, _) => CancelAnswer(x, op);
      }
    }
  }

  lemma UnknownAnswer(x: Server, op: Op)
    requires OneRun(op)
    requires op.run !in x.table
    requires ServerInv(x)
    ensures Answered(x, op)
  {
    hide ServerInv;
    if (op.OpRenew? || op.OpComplete?) && ClaimNamed(x.issued, op.run, op.step, op.attempt).Some? {
      NamedClaimFits(x, op.run, op.step, op.attempt);
    }
  }

  /** The outcome of writing a loaded run with a raised revision back. */
  lemma WriteOutcome(t: PG.Table, id: RunId, run: RunRecord)
    requires TableInv(t) && id in t && run.runId == id && run.revision > t[id].payload.revision
    requires run.idempotencyKey == t[id].payload.idempotencyKey
    ensures PG.Persist(t, run) == if Unwritable(run) then Err(Storage) else Ok(t[id := PG.RowOf(run)])
  {
    hide TableInv, PG.ExpiryFits, Unwritable, PG.RowOf;
    UnwritableIff(run);
    PersistNeverConflicts(t, id, run);
  }

  /** Claiming in full: nothing to claim, a row that cannot be written, or a claim. */
  lemma ClaimNextIs(t: PG.Table, id: RunId, worker: WorkerProfile, leaseMs: nat, now: nat)
    requires TableInv(t) && id in t
    ensures var meant := ClaimMeant(t[id].payload, worker, leaseMs, now);
            PG.ClaimNext(t, id, worker, leaseMs, now) ==
            (if meant.None? then (t, Ok(None))
             else if Unwritable(meant.value.0) then (t, Err(Storage))
             else (t[id := PG.RowOf(meant.value.0)], Ok(Some(meant.value.1))))
  {
    hide TableInv, PG.Persist, PG.RowOf, Unwritable, Claimable, StepInput, ClaimRecord, NextToken;
    RowAt(t, id);
    TokenDrawn(t[id].payload);
    var meant := ClaimMeant(t[id].payload, worker, leaseMs, now);
    if meant.Some? {
      WriteOutcome(t, id, meant.value.0);
    }
  }

  lemma ClaimAnswer(x: Server, op: Op)
    requires op.OpClaim?
    requires TableInv(x.table) && op.run in x.table
    ensures Answered(x, op)
  {
    hide TableInv, PG.ClaimNext, PG.RowOf, Unwritable, ClaimMeant;
    ClaimNextIs(x.table, op.run, op.worker, op.leaseMs, op.now);
  }

  lemma TokenDrawn(run: RunRecord)
    ensures NextToken(run) == Memory.MaxOf(Memory.HistoryTokens(run)) + 1
  {
  }

  lemma RenewAnswer(x: Server, op: Op)
    requires op.OpRenew?
    requires ServerInv(x) && TableInv(x.table) && op.run in x.table
    ensures Answered(x, op)
  {
    hide ServerInv, TableInv, PG.Persist, PG.RowOf, Unwritable, LeaseHeld, ClaimNamed, RenewRecord;
    RowAt(x.table, op.run);
    var named := ClaimNamed(x.issued, op.run, op.step, op.attempt);
    if named.Some? {
      NamedClaimFits(x, op.run, op.step, op.attempt);
      var run := x.table[op.run].payload;
      if HoldsLease(run, named.value, op.now) {
        WriteOutcome(x.table, op.run, RenewRun(run, named.value, op.leaseMs, op.now));
      }
    }
  }

  lemma CompleteAnswer(x: Server, op: Op)
    requires op.OpComplete?
    requires ServerInv(x) && TableInv(x.table) && op.run in x.table
    ensures Answered(x, op)
  {
    hide ServerInv, TableInv, PG.Persist, PG.RowOf, Unwritable, LeaseHeld, ClaimNamed, CompleteRecord,
      CompletionMatches, PG.LastSequence;
    RowAt(x.table, op.run);
    var named := ClaimNamed(x.issued, op.run, op.step, op.attempt);
    if named.Some? {
      NamedClaimFits(x, op.run, op.step, op.attempt);
      var run := x.table[op.run].payload;
      if HoldsLease(run, named.value, op.now) && CompletionMatches(op.completion, named.value, run.manifest) {
        WriteOutcome(x.table, op.run, CompleteAndLog(run, named.value, op.completion, NextSequence(run), op.now));
      }
    }
  }

  lemma RecordAnswer(x: Server, op: Op)
    requires op.OpRecord?
    requires TableInv(x.table) && op.run in x.table
    ensures Answered(x, op)
  {
    hide TableInv, PG.Persist, PG.RowOf, Unwritable, EventValid, PG.LastSequence;
    RowAt(x.table, op.run);
    var run := x.table[op.run].payload;
    if EventBelongs(op.event, op.run) && EventValid(run, op.event) {
      WriteOutcome(x.table, op.run, AppendEvent(run, NextSequence(run), op.event));
    }
  }

  lemma FinishAnswer(x: Server, op: Op)
    requires op.OpFinish?
    requires TableInv(x.table) && op.run in x.table
    ensures Answered(x, op)
  {
    hide TableInv, PG.Persist, PG.RowOf, Unwritable, EvaluateGates, HasFailed, AllSucceeded, AllPassed,
      PG.LastSequence;
    RowAt(x.table, op.run);
    var run := x.table[op.run].payload;
    WriteOutcome(x.table, op.run, PG.Touch(FinishAndLog(run, op.metrics, NextSequence(run))));
  }

  lemma CancelAnswer(x: Server, op: Op)
    requires op.OpCancel?
    requires TableInv(x.table) && op.run in x.table
    ensures Answered(x, op)
  {
    hide TableInv, PG.Persist, PG.RowOf, Unwritable, CancelRecord, PG.LastSequence;
    RowAt(x.table, op.run);
    var run := x.table[op.run].payload;
    WriteOutcome(x.table, op.run, PG.Touch(CancelAndLog(run, NextSequence(run), op.now)));
  }

  /** The row of the run once nothing is left to refuse. */
  lemma RowWritten(x: Server, op: Op)
    requires OneRun(op)
    requires ServerInv(x) && op.run in x.table && (Intended(x, op).Some? ==> !Unwritable(Intended(x, op).value))
    ensures op.run in Perform(x, op).table && TrackedRow(Perform(x, op), op.run) == RowAfter(x, op)
  {
    hide ServerInv, ErrorOf, TableAfter, Unwritable, ClaimMeant, VerdictMeant, CompletionMatches, EventValid,
      HoldsLease, AddClaim;
    Answers(x, op);
    RowFacts(x, op.run);
    hide TableInv, RunInv, Fresh, LogUpTo, TokensUpTo;
    if op.OpClaim? && Intended(x, op).Some? {
      ClaimIssues(x, op);
    }
  }

  lemma ClaimIssues(x: Server, op: Op)
    requires op.OpClaim?
    requires TableInv(x.table) && op.run in x.table
    requires var meant := ClaimMeant(x.table[op.run].payload, op.worker, op.leaseMs, op.now);
             meant.Some? && !Unwritable(meant.value.0)
    ensures var meant := ClaimMeant(x.table[op.run].payload, op.worker, op.leaseMs, op.now);
            IssuedAfter(x, op) == AddIssued(x.issued, op.run, meant.value.1)
  {
    hide TableInv, PG.ClaimNext, PG.RowOf, Unwritable, ClaimMeant;
    ClaimNextIs(x.table, op.run, op.worker, op.leaseMs, op.now);
  }

  lemma OtherRowKept(x: Server, op: Op, id: RunId)
    requires OneRun(op)
    requires op.run != id
    requires ServerInv(x) && id in x.table
    ensures id in Perform(x, op).table && TrackedRow(Perform(x, op), id) == TrackedRow(x, id)
  {
    hide ServerInv, ErrorOf, TableAfter, Unwritable, Intended;
    Answers(x, op);
  }

  // Claims.

  predicate FitsColumn(r: StepRecord) {
    r.lease.Some? && r.lease.value.expiresAt <= I64_MAX
  }

  /** A claim to which a claimable step is due is granted exactly if its deadline fits the column or
      another lease that fits is out. */
  lemma ClaimGrantedIff(x: Server, id: RunId, worker: WorkerProfile, leaseMs: nat, now: nat)
    requires ServerInv(x) && id in x.table && x.table[id].payload.status.RunRunning?
    requires FirstClaimable(x.table[id].payload, worker, x.table[id].payload.workflow.steps, now).Some?
    ensures var answer, run := PG.ClaimNext(x.table, id, worker, leaseMs, now).1, x.table[id].payload;
            && (answer.Ok? ==> answer.value.Some?)
            && (answer.Ok? <==> Deadline(now, leaseMs) <= I64_MAX || !NoneFits(run.steps))
  {
    hide ServerInv, Inv, TableInv, PG.ClaimNext, PG.RowOf, Unwritable, Claimable, ClaimRun, NextToken, Fresh,
      LogUpTo, TokensUpTo, FitsColumn, Deadline;
    RowFacts(x, id);
    var run := x.table[id].payload;
    ClaimNextIs(x.table, id, worker, leaseMs, now);
    var step := FirstClaimable(run, worker, run.workflow.steps, now).value;
    ClaimUnwritableIff(run, worker, step, NextToken(run), leaseMs, now);
  }

  lemma ClaimUnwritableIff(run: RunRecord, worker: WorkerProfile, s: StepSpec, token: nat, leaseMs: nat, now: nat)
    requires Claimable(run, worker, s, now)
    ensures Unwritable(ClaimRun(run, s, worker.id, token, leaseMs, now, true).0) <==>
            Deadline(now, leaseMs) > I64_MAX && forall step :: step in run.steps ==> !FitsColumn(run.steps[step])
  {
    hide SupportsTask, DependenciesDone, StepInput, Deadline;
    var after := ClaimRun(run, s, worker.id, token, leaseMs, now, true).0;
    assert after.steps == run.steps[s.id := after.steps[s.id]];
    assert LeaseOut(after.steps[s.id]) && after.steps[s.id].lease.value.expiresAt == Deadline(now, leaseMs);
    assert s.id in run.steps ==> !LeaseOut(run.steps[s.id]);
    forall step | step in run.steps && step != s.id ensures after.steps[step] == run.steps[step] {}
    if Deadline(now, leaseMs) > I64_MAX && forall step :: step in run.steps ==> !FitsColumn(run.steps[step]) {
      forall step | step in after.steps && LeaseOut(after.steps[step]) ensures BeyondColumn(after.steps[step]) {
        if step != s.id {
          assert !FitsColumn(run.steps[step]);
        }
      }
    } else if step :| step in run.steps && FitsColumn(run.steps[step]) {
      assert LeaseOut(after.steps[step]) && !BeyondColumn(after.steps[step]);
    }
  }

  // Recovery.

  predicate StillLeased(r: StepRecord, now: nat) {
    r.lease.Some? && r.lease.value.expiresAt > now
  }

  /** A lease has expired, another is left, and all that are left expire beyond the column. */
  predicate Blocked(run: RunRecord, now: nat) {
    && (exists step <- run.steps :: Expired(run.steps[step], now))
    && (exists step <- run.steps :: StillLeased(run.steps[step], now))
    && (forall step <- run.steps :: StillLeased(run.steps[step], now) ==> BeyondColumn(run.steps[step]))
  }

  lemma BlockedIff(run: RunRecord, claims: Claims, last: nat, now: nat)
    requires RunInv(run, claims) && LogUpTo(run, last)
    ensures var (r, m, expired) := RecoverSteps(run, run.workflow.steps, last, now);
            && (expired == [] <==> forall step :: step in run.steps ==> !Expired(run.steps[step], now))
            && (expired != [] ==> (Unwritable(r) <==> Blocked(run, now)))
  {
    hide RunInv, RecoverSteps;
    RecoveryEndsExpired(run, claims, last, now);
    var (r, m, expired) := RecoverSteps(run, run.workflow.steps, last, now);
    if expired != [] {
      assert expired[0] in expired;
    }
    forall step | step in run.steps
      ensures LeaseOut(r.steps[step]) <==> StillLeased(run.steps[step], now)
      ensures LeaseOut(r.steps[step]) ==> r.steps[step] == run.steps[step]
    {
      if step !in expired {
        assert r.steps[step] == run.steps[step];
      }
    }
  }

  lemma RowOutcome(x: Server, t: PG.Table, id: RunId, now: nat)
    requires ServerInv(x) && id in x.table && TableInv(t) && id in t && t[id] == x.table[id]
    ensures var answer := PG.RecoverRow(t, id, now).0;
            if Blocked(t[id].payload, now) then answer == Err(Storage) else answer.Ok?
  {
    RowFacts(x, id);
    hide ServerInv, RunInv, TableInv, RecoverSteps, Unwritable, PG.Persist, PG.RowOf, Blocked, Expired, Fresh,
      TokensUpTo, LogUpTo;
    var run := t[id].payload;
    RowAt(t, id);
    BlockedIff(run, ClaimsOf(x.issued, id), PG.LastSequence(run), now);
    NothingExpired(run, run.workflow.steps, PG.LastSequence(run), now);
    var (r, last, expired) := RecoverSteps(run, run.workflow.steps, PG.LastSequence(run), now);
    if expired != [] {
      WriteOutcome(t, id, PG.Touch(r));
      TouchUnwritable(r);
    } else {
      NotBlocked(run, now);
    }
  }

  lemma TouchUnwritable(run: RunRecord)
    ensures Unwritable(PG.Touch(run)) == Unwritable(run)
  {
  }

  lemma NotBlocked(run: RunRecord, now: nat)
    requires forall step :: step in run.steps ==> !Expired(run.steps[step], now)
    ensures !Blocked(run, now)
  {
  }

  /** The visit of the rows succeeds exactly if none of them is blocked. */
  lemma {:induction false} RowsOutcome(x: Server, order: seq<RunId>, now: nat)
    requires ServerInv(x) && NoDuplicates(order) && forall id :: id in order ==> id in x.table
    ensures PG.RecoverRows(x.table, order, now).Ok? <==>
            forall id :: id in order ==> !Blocked(x.table[id].payload, now)
    ensures PG.RecoverRows(x.table, order, now).Err? ==> PG.RecoverRows(x.table, order, now).error == Storage
  {
    hide ServerInv, Blocked, PG.RecoverRow, TableInv;
    if order != [] {
      var n := |order| - 1;
      var init, id := order[..n], order[n];
      assert order == init + [id] && id !in init;
      RowsOutcome(x, init, now);
      if PG.RecoverRows(x.table, init, now).Ok? {
        assert TableInv(x.table) by { RowFacts(x, id); }
        RecoverRowsRefine(x.table, init, now);
        RowOutcome(x, PG.RecoverRows(x.table, init, now).value.0, id, now);
      }
    }
  }

  ghost predicate AnyBlocked(t: PG.Table, now: nat) {
    exists id :: id in t && Blocked(t[id].payload, now)
  }

  /** Recovery answers with a storage error exactly if some row is blocked, and then changes nothing
      in any row; otherwise it succeeds. */
  lemma RecoverAnswer(x: Server, op: Op)
    requires op.OpRecover?
    requires ServerInv(x)
    ensures ErrorOf(x, op) == if AnyBlocked(x.table, op.now) then Some(Storage) else None
    ensures AnyBlocked(x.table, op.now) ==> LeavesAlone(x, op)
    ensures !AnyBlocked(x.table, op.now) ==>
              PG.RecoverRows(x.table, System.VisitOrder(Selected(x.table, op.now)), op.now).Ok?
  {
    hide ServerInv, PG.RecoverRows, TableInv, NoDuplicates, Blocked, PG.Due;
    var order := System.VisitOrder(Selected(x.table, op.now));
    RowsKnown(x, op.now);
    RowsOutcome(x, order, op.now);
    forall id | id in x.table && Blocked(x.table[id].payload, op.now) ensures id in order {
      BlockedIsDue(x.table, id, op.now);
    }
  }

  lemma BlockedIsDue(t: PG.Table, id: RunId, now: nat)
    requires TableInv(t) && id in t && Blocked(t[id].payload, now)
    ensures PG.Due(t, id, now)
  {
    hide TableInv, PG.Due;
    RecoveryQueryIsExact(t, id, now);
  }

  // Refusals.

  /** The operations that end in a storage error. */
  ghost predicate Refused(x: Server, op: Op) {
    match op
    case OpCreate(_) => false
    case OpRecover(now) => AnyBlocked(x.table, now)
    case _ => Intended(x, op).Some? && Unwritable(Intended(x, op).value)
  }

  /** An operation ends in a storage error exactly if the row it means to write, or a row recovery
      selects, would be left with leases that all expire beyond the column; nothing changes then. */
  lemma RefusedIff(x: Server, op: Op)
    requires ServerInv(x)
    ensures ErrorOf(x, op) == Some(Storage) <==> Refused(x, op)
    ensures Refused(x, op) ==> Perform(x, op) == x
  {
    hide ServerInv, TableAfter, IssuedAfter, AnyBlocked, Intended, Unwritable;
    if op.OpCreate? {
      CreateNeverRefused(x, op);
    } else {
      if op.OpRecover? {
        RecoverAnswer(x, op);
      } else {
        Answers(x, op);
      }
      hide ErrorOf;
    }
  }

  lemma CreateNeverRefused(x: Server, op: Op)
    requires op.OpCreate?
    ensures ErrorOf(x, op) != Some(Storage)
  {
    hide ValidRequest;
  }

  // The same in terms of the stored rows.

  /** What a caller can check beforehand: the deadline asked for lies beyond the column, or the lease
      given up is the last one that fits, and no other lease of the run fits. */
  ghost predicate NoRoom(x: Server, op: Op) {
    match op
    case OpClaim(id, worker, leaseMs, now) =>
      && id in x.table && ClaimMeant(x.table[id].payload, worker, leaseMs, now).Some?
      && Deadline(now, leaseMs) > I64_MAX && NoneFits(x.table[id].payload.steps)
    case OpRenew(id, step, attempt, leaseMs, now) =>
      && id in x.table && Holds(x, op) && Deadline(now, leaseMs) > I64_MAX
      && NoneFits(x.table[id].payload.steps - {step})
    case OpComplete(id, step, attempt, c, now) =>
      && id in x.table && Holds(x, op)
      && CompletionMatches(c, ClaimNamed(x.issued, id, step, attempt).value, x.table[id].payload.manifest)
      && SomeOut(x.table[id].payload.steps - {step}) && NoneFits(x.table[id].payload.steps - {step})
    case OpRecover(now) => AnyBlocked(x.table, now)
    case _ => false
  }

  predicate NoneFits(steps: map<StepId, StepRecord>) {
    forall step <- steps :: !FitsColumn(steps[step])
  }

  predicate SomeOut(steps: map<StepId, StepRecord>) {
    exists step <- steps :: LeaseOut(steps[step])
  }

  /** The claim named by the operation holds its lease. */
  ghost predicate Holds(x: Server, op: Op)
    requires op.OpRenew? || op.OpComplete?
    requires op.run in x.table
  {
    var named := ClaimNamed(x.issued, op.run, op.step, op.attempt);
    named.Some? && HoldsLease(x.table[op.run].payload, named.value, op.now)
  }

  lemma RenewUnwritableIff(run: RunRecord, c: StepClaim, leaseMs: nat, now: nat)
    requires HoldsLease(run, c, now)
    ensures Unwritable(RenewRun(run, c, leaseMs, now)) <==>
            Deadline(now, leaseMs) > I64_MAX && NoneFits(run.steps - {c.step.id})
  {
    hide Deadline;
    var steps, after := run.steps - {c.step.id}, RenewRun(run, c, leaseMs, now).steps;
    assert LeaseOut(after[c.step.id]) && after[c.step.id].lease.value.expiresAt == Deadline(now, leaseMs);
    forall step | step in steps ensures step in after && after[step] == steps[step] {}
    forall step | step in after && step != c.step.id ensures step in steps && after[step] == steps[step] {}
  }

  lemma CompleteUnwritableIff(run: RunRecord, claim: StepClaim, c: StepCompletion, sequence: nat, now: nat)
    requires claim.step.id in run.steps
    ensures Unwritable(CompleteAndLog(run, claim, c, sequence, now)) <==>
            SomeOut(run.steps - {claim.step.id}) && NoneFits(run.steps - {claim.step.id})
  {
    hide CloseAttempt;
    var steps, after := run.steps - {claim.step.id}, CompleteAndLog(run, claim, c, sequence, now).steps;
    assert !LeaseOut(after[claim.step.id]);
    forall step | step in steps ensures step in after && after[step] == steps[step] {}
    forall step | step in after && step != claim.step.id ensures step in steps && after[step] == steps[step] {}
  }

  lemma SameStepsSameRoom(a: RunRecord, b: RunRecord)
    ensures a.steps == b.steps ==> Unwritable(a) == Unwritable(b)
  {
  }

  lemma StoredIsWritable(t: PG.Table, id: RunId)
    requires TableInv(t) && id in t
    ensures !Unwritable(t[id].payload)
  {
    hide PG.ExpiryFits, Unwritable, PG.KeysUnique, PG.RowOf;
    UnwritableIff(t[id].payload);
  }

  lemma CancelledIsWritable(x: Tracked, sequence: nat, now: nat)
    requires Inv(x)
    ensures !Unwritable(PG.Touch(CancelAndLog(x.run, sequence, now)))
  {
    hide RunInv;
    var after := PG.Touch(CancelAndLog(x.run, sequence, now));
    forall step | step in after.steps ensures !LeaseOut(after.steps[step]) {
      LeaseMeansRunning(x, step);
    }
  }

  /** Exactly these operations are refused: a claim or renewal that asks for a deadline beyond the
      column while no other lease of the run fits it, a completion that leaves only leases beyond it,
      and a recovery with a blocked row. Recording, finishing, cancelling and creating never are. */
  lemma RefusedExactly(x: Server, op: Op)
    requires ServerInv(x)
    ensures Refused(x, op) <==> NoRoom(x, op)
  {
    hide ServerInv, Inv, TableInv, Unwritable, AnyBlocked, CompletionMatches, EventValid, NoneFits, SomeOut,
      ClaimRun, RenewRun, CompleteAndLog, FinishRun, CancelAndLog, NextToken, NextSequence, Claimable, LeaseHeld,
      ClaimNamed, Fresh, LogUpTo, TokensUpTo, FinishAndLog, AppendEvent, Deadline;
    if OneRun(op) && op.run in x.table {
      RowFacts(x, op.run);
      var run := x.table[op.run].payload;
      StoredIsWritable(x.table, op.run);
      match op {
        case OpClaim(_, worker, leaseMs, now) => ClaimRoom(run, worker, leaseMs, now);
        case OpRenew(_, step, attempt, leaseMs, now) =>
          if Holds(x, op) {
            NamedClaimFits(x, op.run, step, attempt);
            RenewUnwritableIff(run, ClaimNamed(x.issued, op.run, step, attempt).value, leaseMs, now);
          }
        case OpComplete(_, step, attempt, c, now) =>
          if Holds(x, op) {
            NamedClaimFits(x, op.run, step, attempt);
            CompleteUnwritableIff(run, ClaimNamed(x.issued, op.run, step, attempt).value, c, NextSequence(run), now);
          }
        case OpRecord(_, e) => RecordRoom(run, e, NextSequence(run));
        case OpFinish(_, metrics) => FinishRoom(run, metrics);
        case OpCancel(_, now) => CancelledIsWritable(TrackedRow(x, op.run), NextSequence(run), now);
      }
    }
  }

  lemma ClaimRoom(run: RunRecord, worker: WorkerProfile, leaseMs: nat, now: nat)
    ensures var meant := ClaimMeant(run, worker, leaseMs, now);
            meant.Some? ==> (Unwritable(meant.value.0) <==> Deadline(now, leaseMs) > I64_MAX && NoneFits(run.steps))
  {
    hide Unwritable, Claimable, ClaimRun, NextToken, Deadline, FitsColumn;
    var next := FirstClaimable(run, worker, run.workflow.steps, now);
    if run.status.RunRunning? && next.Some? {
      ClaimUnwritableIff(run, worker, next.value, NextToken(run), leaseMs, now);
    }
  }

  lemma RecordRoom(run: RunRecord, e: Event, sequence: nat)
    ensures Unwritable(AppendEvent(run, sequence, e)) == Unwritable(run)
  {
    hide Unwritable;
    SameStepsSameRoom(run, AppendEvent(run, sequence, e));
  }

  lemma FinishRoom(run: RunRecord, metrics: seq<Metric>)
    ensures VerdictMeant(run, metrics).Some? ==> Unwritable(VerdictMeant(run, metrics).value) == Unwritable(run)
  {
    hide Unwritable, EvaluateGates, HasFailed, AllSucceeded, AllPassed, PG.LastSequence;
    if VerdictMeant(run, metrics).Some? {
      SameStepsSameRoom(run, VerdictMeant(run, metrics).value);
    }
  }

  /** In particular the holder of a lease cannot complete its step exactly if other leases remain and
      none of them fits. */
  lemma LongLeaseBlocksCompletion(x: Server, id: RunId, step: StepId, attempt: nat, c: StepCompletion, now: nat)
    requires ServerInv(x) && ClaimNamed(x.issued, id, step, attempt).Some?
    requires var claim := ClaimNamed(x.issued, id, step, attempt).value;
             id in x.table && HoldsLease(x.table[id].payload, claim, now)
             && CompletionMatches(c, claim, x.table[id].payload.manifest)
    ensures var claim, run := ClaimNamed(x.issued, id, step, attempt).value, x.table[id].payload;
            PG.Complete(x.table, claim, c, now).1 == Err(Storage) <==>
            (&& (exists other :: other in run.steps && other != step && run.steps[other].lease.Some?)
             && (forall other :: other in run.steps && other != step && run.steps[other].lease.Some? ==>
                   run.steps[other].lease.value.expiresAt > I64_MAX))
  {
    hide ServerInv, PG.Complete, CompletionMatches, LeaseHeld, ClaimNamed, Refused;
    var op, run := OpComplete(id, step, attempt, c, now), x.table[id].payload;
    RefusedIff(x, op);
    RefusedExactly(x, op);
    if other :| other in run.steps && other != step && run.steps[other].lease.Some? {
      assert LeaseOut((run.steps - {step})[other]);
    }
    forall other | other in run.steps && other != step && run.steps[other].lease.Some?
      ensures FitsColumn((run.steps - {step})[other]) <==> run.steps[other].lease.value.expiresAt <= I64_MAX {}
  }
}
