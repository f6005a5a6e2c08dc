/** The PostgreSQL repository (src/postgres.rs): one row per run, each transition one row-locked
    transaction that loads the run, changes it and writes it back with its indexed columns. */
module PostgresStore {
  import opened Types
  import opened Workflows
  import opened Evaluation
  import opened Policy
  import opened Transitions
  import opened MemoryStore

  /** The payload and the columns derived from it. */
  datatype Row = Row(revision: nat, payload: RunRecord, key: Option<IdempotencyKey>, leaseExpiry: Option<nat>)

  type Table = map<RunId, Row>

  // Derived columns.

  ghost function Expiries(run: RunRecord): set<nat> {
    set id | id in run.steps && run.steps[id].lease.Some? :: run.steps[id].lease.value.expiresAt
  }

  ghost function MinOf(xs: set<nat>): (m: nat)
    requires xs != {}
    ensures m in xs && forall x :: x in xs ==> m <= x
  {
    var x :| x in xs;
    assert forall y :: y in xs ==> y == x || y in xs - {x};
    if xs == {x} then x else Min(x, MinOf(xs - {x}))
  }

  /** The earliest lease expiry of the run, if a lease is out. */
  ghost function EarliestExpiry(run: RunRecord): (m: Option<nat>)
    ensures m.None? <==> forall id :: id in run.steps ==> run.steps[id].lease.None?
    ensures m.Some? ==> forall id :: id in run.steps && run.steps[id].lease.Some? ==>
                          m.value <= run.steps[id].lease.value.expiresAt
    ensures m.Some? ==> exists id :: && id in run.steps && run.steps[id].lease.Some?
                                     && run.steps[id].lease.value.expiresAt == m.value
  {
    var xs := Expiries(run);
    assert forall id :: id in run.steps && run.steps[id].lease.Some? ==> run.steps[id].lease.value.expiresAt in xs;
    if xs == {} then None else Some(MinOf(xs))
  }

  method FindEarliestExpiry(run: RunRecord) returns (m: Option<nat>)
    ensures m == EarliestExpiry(run)
  {
    m := None;
    var todo := run.steps.Keys;
    while todo != {}
      invariant todo <= run.steps.Keys
      invariant m.None? <==> forall id :: id in run.steps && id !in todo ==> run.steps[id].lease.None?
      invariant m.Some? ==> forall id :: id in run.steps && id !in todo && run.steps[id].lease.Some? ==>
                  m.value <= run.steps[id].lease.value.expiresAt
      invariant m.Some? ==> exists id :: && id in run.steps && run.steps[id].lease.Some?
                                         && run.steps[id].lease.value.expiresAt == m.value
    {
      var id :| id in todo;
      todo := todo - {id};
      var lease := run.steps[id].lease;
      if lease.Some? && (m.None? || lease.value.expiresAt < m.value) {
        m := Some(lease.value.expiresAt);
      }
    }
  }

  ghost function RowOf(run: RunRecord): Row {
    Row(run.revision, run, run.idempotencyKey, EarliestExpiry(run))
  }

  /** The expiry column is a signed 64-bit integer. */
  ghost predicate ExpiryFits(run: RunRecord) {
    EarliestExpiry(run).Some? ==> EarliestExpiry(run).value <= I64_MAX
  }

  /** Writes a loaded run back; only a higher revision may replace a row. */
  ghost function Persist(t: Table, run: RunRecord): Result<Table, RepositoryError> {
    if !ExpiryFits(run) then Err(Storage)
    else if run.runId !in t || t[run.runId].revision >= run.revision then Err(Conflict(run.runId))
    else Ok(t[run.runId := RowOf(run)])
  }

  /** The end of a transaction: the answer if the row was written, otherwise the error and no change. */
  ghost function Commit<T>(t: Table, run: RunRecord, answer: T): (Table, Answer<T>) {
    match Persist(t, run)
    case Ok(u) => (u, Ok(answer))
    case Err(error) => (t, Err(error))
  }

  function LastSequence(run: RunRecord): nat {
    if run.eventLog == [] then 0 else run.eventLog[|run.eventLog| - 1].sequence
  }

  function Touch(run: RunRecord): RunRecord {
    run.(revision := run.revision + 1)
  }

  // Transactions.

  ghost predicate KeyTaken(t: Table, key: IdempotencyKey, owner: RunId) {
    owner in t && t[owner].key == Some(key)
  }

  /** The unique index on idempotency keys. */
  ghost predicate KeysUnique(t: Table) {
    forall a, b :: a in t && b in t && t[a].key.Some? && t[a].key == t[b].key ==> a == b
  }

  ghost function Create(t: Table, request: RunRequest): (Table, Answer<RunRecord>) {
    var key := request.idempotencyKey;
    if !ValidRequest(request) then (t, Err(InvalidRequest))
    else if key.Some? && exists id :: KeyTaken(t, key.value, id) then
      var id :| KeyTaken(t, key.value, id);
      if SamePayload(t[id].payload, request) then (t, Ok(t[id].payload))
      else (t, Err(IdempotencyConflict(t[id].payload.runId)))
    else if request.runId in t then (t, Err(Conflict(request.runId)))
    else
      var run := CreateAndLog(request, 1);
      (t[request.runId := RowOf(run)], Ok(run))
  }

  ghost function ClaimNext(t: Table, id: RunId, worker: WorkerProfile, leaseMs: nat, now: nat)
    : (Table, Answer<Option<StepClaim>>)
  {
    if id !in t then (t, Err(RunNotFound(id)))
    else if !t[id].payload.status.RunRunning? then (t, Ok(None))
    else
      var run := t[id].payload;
      var next := FirstClaimable(run, worker, run.workflow.steps, now);
      if next.None? then (t, Ok(None))
      else
        var token := MaxOf(HistoryTokens(run)) + 1;
        var (run2, claim) := ClaimRun(run, next.value, worker.id, token, leaseMs, now, true);
        Commit(t, run2, Some(claim))
  }

  ghost function Renew(t: Table, claim: StepClaim, leaseMs: nat, now: nat): (Table, Answer<()>) {
    if claim.runId !in t then (t, Err(RunNotFound(claim.runId)))
    else if !HoldsLease(t[claim.runId].payload, claim, now) then (t, Err(LeaseLost(claim.runId, claim.step.id)))
    else Commit(t, RenewRun(t[claim.runId].payload, claim, leaseMs, now), ())
  }

  ghost function Complete(t: Table, claim: StepClaim, c: StepCompletion, now: nat): (Table, Answer<RunRecord>) {
    if claim.runId !in t then (t, Err(RunNotFound(claim.runId)))
    else
      var run := t[claim.runId].payload;
      if !HoldsLease(run, claim, now) then (t, Err(LeaseLost(claim.runId, claim.step.id)))
      else if !CompletionMatches(c, claim, run.manifest) then (t, Err(InvalidCompletion(claim.runId, claim.step.id)))
      else
        var run2 := CompleteAndLog(run, claim, c, LastSequence(run) + 1, now);
        Commit(t, run2, run2)
  }

  ghost function Record(t: Table, id: RunId, e: Event): (Table, Answer<Envelope>) {
    if id !in t then (t, Err(RunNotFound(id)))
    else
      var run := t[id].payload;
      if !EventBelongs(e, id) || !EventValid(run, e) then (t, Err(InvalidEvent(id)))
      else
        var run2 := AppendEvent(run, LastSequence(run) + 1, e);
        Commit(t, run2, run2.eventLog[|run2.eventLog| - 1])
  }

  ghost function Finish(t: Table, id: RunId, metrics: seq<Metric>): (Table, Answer<RunRecord>) {
    if id !in t then (t, Err(RunNotFound(id)))
    else
      var run := t[id].payload;
      var judged := FinishRun(run, metrics);
      if judged.status == run.status && judged.metrics == run.metrics && judged.gateDecisions == run.gateDecisions then
        (t, Ok(judged))
      else
        var run2 := Touch(FinishAndLog(run, metrics, LastSequence(run) + 1));
        Commit(t, run2, run2)
  }

  ghost function Cancel(t: Table, id: RunId, now: nat): (Table, Answer<RunRecord>) {
    if id !in t then (t, Err(RunNotFound(id)))
    else
      var run := t[id].payload;
      if Terminal(run.status) then (t, Ok(run))
      else
        var run2 := Touch(CancelAndLog(run, LastSequence(run) + 1, now));
        Commit(t, run2, run2)
  }

  /** The rows the recovery query selects. */
  predicate Due(t: Table, id: RunId, now: nat) {
    id in t && t[id].leaseExpiry.Some? && t[id].leaseExpiry.value <= now
  }

  ghost function RecoverRow(t: Table, id: RunId, now: nat): (Result<Table, RepositoryError>, seq<StepId>)
    requires id in t
  {
    var run := t[id].payload;
    var (r, last, expired) := RecoverSteps(run, run.workflow.steps, LastSequence(run), now);
    if expired == [] then (Ok(t), []) else (Persist(t, Touch(r)), expired)
  }

  lemma RecoverNone(run: RunRecord, steps: seq<StepSpec>, now: nat)
    ensures RecoverSteps(run, steps[..0], LastSequence(run), now) == (run, LastSequence(run), [])
  {
  }

  lemma RecoverNext(run: RunRecord, r: RunRecord, steps: seq<StepSpec>, i: nat, expired: seq<StepId>, now: nat)
    requires i < |steps| && (r, LastSequence(r), expired) == RecoverSteps(run, steps[..i], LastSequence(run), now)
    ensures StepExpired(r, steps[i], now) ==>
              steps[i].id in r.steps
              && var next := RecoverStep(r, steps[i], LastSequence(r) + 1, now);
                 (next, LastSequence(next), expired + [steps[i].id])
                 == RecoverSteps(run, steps[..i + 1], LastSequence(run), now)
    ensures !StepExpired(r, steps[i], now) ==>
              (r, LastSequence(r), expired) == RecoverSteps(run, steps[..i + 1], LastSequence(run), now)
  {
    hide CloseAttempt, RecoverRecord;
    assert steps[..i + 1][..i] == steps[..i];
  }

  /** Visits the selected rows; the first error ends the transaction. */
  ghost function RecoverRows(t: Table, order: seq<RunId>, now: nat): Result<(Table, seq<(RunId, StepId)>),
      RepositoryError> {
    if order == [] then Ok((t, []))
    else
      var id := order[|order| - 1];
      match RecoverRows(t, order[..|order| - 1], now)
      case Err(error) => Err(error)
      case Ok((u, pairs)) =>
        if id !in u then Ok((u, pairs))
        else
          var (v, expired) := RecoverRow(u, id, now);
          match v
          case Err(error) => Err(error)
          case Ok(w) => Ok((w, pairs + Pairs(id, expired)))
  }

  ghost function Recover(t: Table, order: seq<RunId>, now: nat): (Table, Answer<seq<(RunId, StepId)>>) {
    match RecoverRows(t, order, now)
    case Ok((u, pairs)) => (u, Ok(pairs))
    case Err(error) => (t, Err(error))
  }

  /** Another run holds the snapshot's key. */
  ghost predicate KeyElsewhere(t: Table, run: RunRecord) {
    run.idempotencyKey.Some? && exists id :: id != run.runId && KeyTaken(t, run.idempotencyKey.value, id)
  }

  /** Upsert of a snapshot: refused unless it raises the revision and leaves keys unique. */
  ghost function SaveRow(t: Table, run: RunRecord): (Table, Result<(), ()>) {
    if !ExpiryFits(run) then (t, Err(()))
    else if KeyElsewhere(t, run) then (t, Err(()))
    else if run.runId in t && t[run.runId].revision >= run.revision then (t, Err(()))
    else (t[run.runId := RowOf(run)], Ok(()))
  }

  /** The repository object. */
  class PostgresRunStore {
    var rows: Table

    constructor ()
      ensures rows == map[]
    {
      rows := map[];
    }

    /** Each row is stored under its payload's id and carries its payload's key; keys are unique. */
    ghost predicate Valid()
      reads this
    {
      && (forall id <- rows :: rows[id].payload.runId == id && rows[id].key == rows[id].payload.idempotencyKey)
      && KeysUnique(rows)
    }

    method PersistLocked(run: RunRecord) returns (error: Option<RepositoryError>)
      requires Valid() && run.runId in rows && run.idempotencyKey == rows[run.runId].key
      modifies this
      ensures Valid()
      ensures error.None? ==> Persist(old(rows), run) == Ok(rows)
      ensures error.Some? ==> Persist(old(rows), run) == Err(error.value) && rows == old(rows)
      ensures rows.Keys == old(rows.Keys)
    {
      var expiry := FindEarliestExpiry(run);
      if expiry.Some? && expiry.value > I64_MAX {
        return Some(Storage);
      }
      if rows[run.runId].revision >= run.revision {
        return Some(Conflict(run.runId));
      }
      rows := rows[run.runId := Row(run.revision, run, run.idempotencyKey, expiry)];
      return None;
    }

    method CreateRun(request: RunRequest) returns (answer: Answer<RunRecord>)
      requires Valid()
      modifies this
      ensures Valid()
      ensures (rows, answer) == Create(old(rows), request)
    {
      var valid := ValidateRequest(request);
      if !valid {
        return Err(InvalidRequest);
      }
      var key := request.idempotencyKey;
      if key.Some? && exists id <- rows :: rows[id].key == key {
        var id :| id in rows && rows[id].key == key;
        assert KeyTaken(rows, key.value, id);
        if SamePayload(rows[id].payload, request) {
          return Ok(rows[id].payload);
        }
        return Err(IdempotencyConflict(rows[id].payload.runId));
      }
      if request.runId in rows {
        return Err(Conflict(request.runId));
      }
      var run := AppendEvent(NewRun(request), 1, RunStarted(request.runId, request.workflow.id));
      var expiry := FindEarliestExpiry(run);
      rows := rows[run.runId := Row(run.revision, run, run.idempotencyKey, expiry)];
      return Ok(run);
    }

    method ClaimNextStep(id: RunId, worker: WorkerProfile, leaseMs: nat,
        now: nat) returns (answer: Answer<Option<StepClaim>>)
      requires Valid()
      modifies this
      ensures Valid()
      ensures (rows, answer) == ClaimNext(old(rows), id, worker, leaseMs, now)
    {
      hide MaxOf, HistoryTokens, EarliestExpiry, Persist, Available, SupportsTask, DependenciesDone, StepInput;
      if id !in rows {
        return Err(RunNotFound(id));
      }
      var run := rows[id].payload;
      if !run.status.RunRunning? {
        return Ok(None);
      }
      var next := FirstClaimable(run, worker, run.workflow.steps, now);
      if next.None? {
        return Ok(None);
      }
      var step := next.value;
      var task := CurrentTask(Find(run.steps, step.id), step);
      var highest := HighestHistoryToken(run);
      var token := highest + 1;
      var record := if step.id in run.steps then run.steps[step.id] else NewRecord(step.id, task);
      record := record.(task := task, status := Running, attempts := record.attempts + 1, nextAttemptAt := None);
      record := record.(lease := Some(StepLease(worker.id, token, Deadline(now, leaseMs))));
      var attempt := StepAttempt(record.attempts, worker.id, token, now, None, Running, None);
      record := record.(history := record.history + [attempt]);
      var claim := StepClaim(id, run.workflow.id, step, run.manifest.tasks[task], StepInput(run, step),
                             worker.id, token, record.attempts, record.fallbackUsed);
      run := run.(steps := run.steps[step.id := record], revision := run.revision + 1);
      assert (run, claim) == ClaimRun(rows[id].payload, step, worker.id, token, leaseMs, now, true);
      var error := PersistLocked(run);
      return if error.Some? then Err(error.value) else Ok(Some(claim));
    }

    method RenewStep(claim: StepClaim, leaseMs: nat, now: nat) returns (answer: Answer<()>)
      requires Valid()
      modifies this
      ensures Valid()
      ensures (rows, answer) == Renew(old(rows), claim, leaseMs, now)
    {
      if claim.runId !in rows {
        return Err(RunNotFound(claim.runId));
      }
      var run := rows[claim.runId].payload;
      if claim.step.id !in run.steps || !LeaseHeld(run.steps[claim.step.id], claim, now) {
        return Err(LeaseLost(claim.runId, claim.step.id));
      }
      var record := RenewRecord(run.steps[claim.step.id], leaseMs, now);
      run := run.(steps := run.steps[claim.step.id := record], revision := run.revision + 1);
      var error := PersistLocked(run);
      return if error.Some? then Err(error.value) else Ok(());
    }

    method CompleteStep(claim: StepClaim, c: StepCompletion, now: nat) returns (answer: Answer<RunRecord>)
      requires Valid()
      modifies this
      ensures Valid()
      ensures (rows, answer) == Complete(old(rows), claim, c, now)
    {
      hide Persist, KeysUnique, CompletionMatches, CompleteRecord;
      if claim.runId !in rows {
        return Err(RunNotFound(claim.runId));
      }
      var run := rows[claim.runId].payload;
      var valid := CompletionMatches(c, claim, run.manifest);
      if claim.step.id !in run.steps || !LeaseHeld(run.steps[claim.step.id], claim, now) {
        return Err(LeaseLost(claim.runId, claim.step.id));
      }
      if !valid {
        return Err(InvalidCompletion(claim.runId, claim.step.id));
      }
      var record := CompleteRecord(run.steps[claim.step.id], c, now);
      run := run.(steps := run.steps[claim.step.id := record]);
      if record.status.Failed? {
        run := run.(error := record.error);
      }
      run := AppendEvent(Touch(run), LastSequence(run) + 1, c.event);
      var error := PersistLocked(run);
      return if error.Some? then Err(error.value) else Ok(run);
    }

    method RecordEvent(id: RunId, e: Event) returns (answer: Answer<Envelope>)
      requires Valid()
      modifies this
      ensures Valid()
      ensures (rows, answer) == Record(old(rows), id, e)
    {
      if id !in rows {
        return Err(RunNotFound(id));
      }
      var run := rows[id].payload;
      if !EventBelongs(e, id) || !EventValid(run, e) {
        return Err(InvalidEvent(id));
      }
      run := AppendEvent(run, LastSequence(run) + 1, e);
      var error := PersistLocked(run);
      return if error.Some? then Err(error.value) else Ok(run.eventLog[|run.eventLog| - 1]);
    }

    method FinishRunRow(id: RunId, metrics: seq<Metric>) returns (answer: Answer<RunRecord>)
      requires Valid()
      modifies this
      ensures Valid()
      ensures (rows, answer) == Finish(old(rows), id, metrics)
    {
      hide EvaluateGates, HasFailed, AllSucceeded, AllPassed, Persist, KeysUnique;
      if id !in rows {
        return Err(RunNotFound(id));
      }
      var run := rows[id].payload;
      var judged := FinishRun(run, metrics);
      var changed := judged.metrics != run.metrics || judged.gateDecisions != run.gateDecisions;
      if judged.status == run.status && !changed {
        return Ok(judged);
      }
      var next := Touch(judged);
      if judged.status != run.status {
        next := AppendEvent(next, LastSequence(run) + 1, RunFinished(id, judged.status));
      }
      var error := PersistLocked(next);
      return if error.Some? then Err(error.value) else Ok(next);
    }

    method CancelRunRow(id: RunId, now: nat) returns (answer: Answer<RunRecord>)
      requires Valid()
      modifies this
      ensures Valid()
      ensures (rows, answer) == Cancel(old(rows), id, now)
    {
      hide CancelRecord, Persist, KeysUnique;
      if id !in rows {
        return Err(RunNotFound(id));
      }
      var run := rows[id].payload;
      if Terminal(run.status) {
        return Ok(run);
      }
      var steps := run.steps;
      var todo := steps.Keys;
      while todo != {}
        invariant todo <= run.steps.Keys == steps.Keys
        invariant forall step :: step in steps ==>
                    steps[step] == if step in todo then run.steps[step] else CancelRecord(run.steps[step], now)
      {
        var step :| step in todo;
        todo := todo - {step};
        steps := steps[step := CancelRecord(steps[step], now)];
      }
      assert steps == CancelRun(run, now).steps;
      var next := Touch(run.(status := RunCancelled, steps := steps));
      next := AppendEvent(next, LastSequence(run) + 1, RunFinished(id, RunCancelled));
      var error := PersistLocked(next);
      return if error.Some? then Err(error.value) else Ok(next);
    }

    /** The inner loop over the steps of one selected row. */
    method RecoverLoaded(run: RunRecord, now: nat) returns (r: RunRecord, expired: seq<StepId>)
      ensures var recovered := RecoverSteps(run, run.workflow.steps, LastSequence(run), now);
              r == recovered.0 && expired == recovered.2
    {
      hide RecoverSteps, CloseAttempt, StepExpired;
      r, expired := run, [];
      var steps := run.workflow.steps;
      RecoverNone(run, steps, now);
      for i := 0 to |steps|
        invariant (r, LastSequence(r), expired) == RecoverSteps(run, steps[..i], LastSequence(run), now)
      {
        RecoverNext(run, r, steps, i, expired, now);
        var step := steps[i];
        if StepExpired(r, step, now) {
          var (record, e) := RecoverRecord(r.runId, step, r.steps[step.id], now);
          var error := if record.status.Failed? then record.error else r.error;
          r := AppendEvent(r.(steps := r.steps[step.id := record], error := error), LastSequence(r) + 1, e);
          expired := expired + [step.id];
        }
      }
      assert steps[..|steps|] == steps;
    }

    method RecoverExpired(now: nat) returns (answer: Answer<seq<(RunId, StepId)>>, ghost order: seq<RunId>)
      requires Valid()
      modifies this
      ensures Valid()
      ensures NoDuplicates(order) && forall id :: id in order ==> Due(old(rows), id, now)
      ensures answer.Ok? ==> forall id :: Due(old(rows), id, now) ==> id in order
      ensures (rows, answer) == Recover(old(rows), order, now)
    {
      hide RecoverSteps, Persist, EarliestExpiry, LastSequence;
      var start := rows;
      var selected := set id | id in rows && Due(rows, id, now);
      var pairs: seq<(RunId, StepId)> := [];
      order := [];
      while selected != {}
        invariant Valid() && old(Valid()) && start == old(rows) && start.Keys == rows.Keys
        invariant NoDuplicates(order) && selected <= start.Keys
        invariant forall id :: id in order <==> Due(start, id, now) && id !in selected
        invariant RecoverRows(start, order, now) == Ok((rows, pairs))
      {
        var id :| id in selected;
        selected := selected - {id};
        assert (order + [id])[..|order|] == order;
        order := order + [id];
        var run, expired := RecoverLoaded(rows[id].payload, now);
        if expired != [] {
          var error := PersistLocked(Touch(run));
          if error.Some? {
            rows := start;
            return Err(error.value), order;
          }
        }
        pairs := pairs + Pairs(id, expired);
      }
      return Ok(pairs), order;
    }

    method Save(run: RunRecord) returns (answer: Result<(), ()>)
      requires Valid()
      modifies this
      ensures Valid()
      ensures (rows, answer) == SaveRow(old(rows), run)
    {
      var expiry := FindEarliestExpiry(run);
      if expiry.Some? && expiry.value > I64_MAX {
        return Err(());
      }
      if run.idempotencyKey.Some? && exists id <- rows :: id != run.runId && rows[id].key == run.idempotencyKey {
        ghost var id :| id in rows && id != run.runId && rows[id].key == run.idempotencyKey;
        assert KeyTaken(rows, run.idempotencyKey.value, id);
        return Err(());
      }
      if run.runId in rows && rows[run.runId].revision >= run.revision {
        return Err(());
      }
      rows := rows[run.runId := Row(run.revision, run, run.idempotencyKey, expiry)];
      return Ok(());
    }
  }
}
