/** The in-memory repository (src/store.rs): its operations as functions on a store value, and the
    object that performs them in place. */
module MemoryStore {
  import opened Types
  import opened Workflows
  import opened Policy
  import opened Transitions

  datatype Store = Store(
    runs: map<RunId, RunRecord>,
    idempotency: map<IdempotencyKey, RunId>,
    events: seq<Envelope>,
    nextSequence: nat,
    nextToken: nat)

  const EMPTY: Store := Store(map[], map[], [], 0, 0)

  type Answer<T> = Result<T, RepositoryError>

  // Maxima over a run.

  ghost function MaxOf(xs: set<nat>): (m: nat)
    ensures forall x :: x in xs ==> x <= m
    ensures m == 0 || m in xs
  {
    if xs == {} then 0
    else
      var x :| x in xs;
      assert forall y :: y in xs ==> y == x || y in xs - {x};
      Max(x, MaxOf(xs - {x}))
  }

  lemma MaxIs(xs: set<nat>, m: nat)
    requires forall x :: x in xs ==> x <= m
    requires m == 0 || m in xs
    ensures m == MaxOf(xs)
  {
  }

  ghost function HistoryTokens(run: RunRecord): set<nat> {
    set id, i | id in run.steps && 0 <= i < |run.steps[id].history| :: run.steps[id].history[i].leaseToken
  }

  ghost function LeaseTokens(run: RunRecord): set<nat> {
    set id | id in run.steps && run.steps[id].lease.Some? :: run.steps[id].lease.value.token
  }

  ghost function Sequences(run: RunRecord): set<nat> {
    set v | v in run.eventLog :: v.sequence
  }

  /** The highest token in the retained history, 0 without one. */
  method HighestHistoryToken(run: RunRecord) returns (top: nat)
    ensures top == MaxOf(HistoryTokens(run))
  {
    top := 0;
    var todo := run.steps.Keys;
    while todo != {}
      invariant todo <= run.steps.Keys
      invariant forall id :: id in run.steps && id !in todo ==>
                  forall i :: 0 <= i < |run.steps[id].history| ==> run.steps[id].history[i].leaseToken <= top
      invariant top == 0 || top in HistoryTokens(run)
    {
      var id :| id in todo;
      todo := todo - {id};
      var history := run.steps[id].history;
      for i := 0 to |history|
        invariant forall other :: other in run.steps && other !in todo && other != id ==>
                    forall j :: 0 <= j < |run.steps[other].history| ==> run.steps[other].history[j].leaseToken <= top
        invariant forall j :: 0 <= j < i ==> history[j].leaseToken <= top
        invariant top == 0 || top in HistoryTokens(run)
      {
        top := Max(top, history[i].leaseToken);
      }
    }
    MaxIs(HistoryTokens(run), top);
  }

  method HighestLeaseToken(run: RunRecord) returns (top: nat)
    ensures top == MaxOf(LeaseTokens(run))
  {
    top := 0;
    var todo := run.steps.Keys;
    while todo != {}
      invariant todo <= run.steps.Keys
      invariant forall id :: id in run.steps && id !in todo && run.steps[id].lease.Some? ==>
                  run.steps[id].lease.value.token <= top
      invariant top == 0 || top in LeaseTokens(run)
    {
      var id :| id in todo;
      todo := todo - {id};
      if run.steps[id].lease.Some? {
        top := Max(top, run.steps[id].lease.value.token);
      }
    }
    MaxIs(LeaseTokens(run), top);
  }

  method HighestSequence(run: RunRecord) returns (top: nat)
    ensures top == MaxOf(Sequences(run))
  {
    top := 0;
    for i := 0 to |run.eventLog|
      invariant forall j :: 0 <= j < i ==> run.eventLog[j].sequence <= top
      invariant top == 0 || top in Sequences(run)
    {
      top := Max(top, run.eventLog[i].sequence);
      assert run.eventLog[i] in run.eventLog;
    }
    MaxIs(Sequences(run), top);
  }

  // The operations on values.

  /** Stores a run whose log just grew by the event numbered `nextSequence + 1`. */
  function Commit(s: Store, id: RunId, run: RunRecord): Store
    requires run.eventLog != []
  {
    s.(runs := s.runs[id := run],
       nextSequence := s.nextSequence + 1,
       events := s.events + [run.eventLog[|run.eventLog| - 1]])
  }

  predicate SamePayload(run: RunRecord, request: RunRequest) {
    run.workflow == request.workflow && run.manifest == request.manifest && run.input == request.input
  }

  ghost function CreateRun(s: Store, request: RunRequest): (Store, Answer<RunRecord>) {
    var key := request.idempotencyKey;
    if !ValidRequest(request) then (s, Err(InvalidRequest))
    else if key.Some? && key.value in s.idempotency then
      var id := s.idempotency[key.value];
      if id !in s.runs then (s, Err(Conflict(id)))
      else if SamePayload(s.runs[id], request) then (s, Ok(s.runs[id]))
      else (s, Err(IdempotencyConflict(id)))
    else if request.runId in s.runs then (s, Err(Conflict(request.runId)))
    else
      var run := CreateAndLog(request, s.nextSequence + 1);
      var indexed := if key.Some? then s.(idempotency := s.idempotency[key.value := request.runId]) else s;
      (Commit(indexed, request.runId, run), Ok(run))
  }

  function ClaimNextStep(s: Store, id: RunId, worker: WorkerProfile, leaseMs: nat, now: nat)
    : (Store, Answer<Option<StepClaim>>)
  {
    if id !in s.runs then (s, Err(RunNotFound(id)))
    else if !s.runs[id].status.RunRunning? then (s, Ok(None))
    else
      var run := s.runs[id];
      var next := FirstClaimable(run, worker, run.workflow.steps, now);
      if next.None? then (s, Ok(None))
      else
        var (run2, claim) := ClaimRun(run, next.value, worker.id, s.nextToken + 1, leaseMs, now, false);
        (s.(runs := s.runs[id := run2], nextToken := s.nextToken + 1), Ok(Some(claim)))
  }

  function RenewStep(s: Store, claim: StepClaim, leaseMs: nat, now: nat): (Store, Answer<()>) {
    if claim.runId !in s.runs then (s, Err(RunNotFound(claim.runId)))
    else if !HoldsLease(s.runs[claim.runId], claim, now) then (s, Err(LeaseLost(claim.runId, claim.step.id)))
    else (s.(runs := s.runs[claim.runId := RenewRun(s.runs[claim.runId], claim, leaseMs, now)]), Ok(()))
  }

  function CompleteStep(s: Store, claim: StepClaim, c: StepCompletion, now: nat): (Store, Answer<RunRecord>) {
    if claim.runId !in s.runs then (s, Err(RunNotFound(claim.runId)))
    else if !HoldsLease(s.runs[claim.runId], claim, now) then (s, Err(LeaseLost(claim.runId, claim.step.id)))
    else if !CompletionMatches(c, claim, s.runs[claim.runId].manifest) then
      (s, Err(InvalidCompletion(claim.runId, claim.step.id)))
    else
      var run := CompleteAndLog(s.runs[claim.runId], claim, c, s.nextSequence + 1, now);
      (Commit(s, claim.runId, run), Ok(run))
  }

  function RecordEvent(s: Store, id: RunId, e: Event): (Store, Answer<Envelope>) {
    if id !in s.runs then (s, Err(RunNotFound(id)))
    else if !EventBelongs(e, id) || !EventValid(s.runs[id], e) then (s, Err(InvalidEvent(id)))
    else
      var run := AppendEvent(s.runs[id], s.nextSequence + 1, e);
      (Commit(s, id, run), Ok(run.eventLog[|run.eventLog| - 1]))
  }

  function FinishStoredRun(s: Store, id: RunId, metrics: seq<Metric>): (Store, Answer<RunRecord>) {
    if id !in s.runs then (s, Err(RunNotFound(id)))
    else
      var run := FinishAndLog(s.runs[id], metrics, s.nextSequence + 1);
      (if run.status != s.runs[id].status then Commit(s, id, run) else s.(runs := s.runs[id := run]), Ok(run))
  }

  function CancelStoredRun(s: Store, id: RunId, now: nat): (Store, Answer<RunRecord>) {
    if id !in s.runs then (s, Err(RunNotFound(id)))
    else if Terminal(s.runs[id].status) then (s, Ok(s.runs[id]))
    else
      var run := CancelAndLog(s.runs[id], s.nextSequence + 1, now);
      (Commit(s, id, run), Ok(run))
  }

  function Pairs(id: RunId, steps: seq<StepId>): (r: seq<(RunId, StepId)>)
    ensures |r| == |steps| && forall i :: 0 <= i < |steps| ==> r[i] == (id, steps[i])
  {
    seq(|steps|, i requires 0 <= i < |steps| => (id, steps[i]))
  }

  /** Recovery of the first steps of one run; its new events are numbered and published together. */
  function RecoverRun(s: Store, id: RunId, steps: seq<StepSpec>, now: nat): (Store, seq<StepId>)
    requires id in s.runs
  {
    var run := s.runs[id];
    var (r, last, expired) := RecoverSteps(run, steps, s.nextSequence, now);
    RecoverGrowsLog(run, steps, s.nextSequence, now);
    (s.(runs := s.runs[id := r], nextSequence := last, events := s.events + r.eventLog[|run.eventLog|..]), expired)
  }

  lemma {:induction false} RecoverGrowsLog(run: RunRecord, steps: seq<StepSpec>, last: nat, now: nat)
    ensures var (r, m, expired) := RecoverSteps(run, steps, last, now);
            run.eventLog <= r.eventLog && |r.eventLog| == |run.eventLog| + |expired|
  {
    hide RecoverRecord;
    if steps != [] {
      RecoverGrowsLog(run, steps[..|steps| - 1], last, now);
    }
  }

  /** The runs are visited in some order. */
  function RecoverRuns(s: Store, order: seq<RunId>, now: nat): (Store, seq<(RunId, StepId)>) {
    if order == [] then (s, [])
    else
      var id := order[|order| - 1];
      var (t, expired) := RecoverRuns(s, order[..|order| - 1], now);
      if id !in t.runs then (t, expired)
      else
        var (u, steps) := RecoverRun(t, id, t.runs[id].workflow.steps, now);
        (u, expired + Pairs(id, steps))
  }

  /** Restoring a snapshot: the index follows the snapshot, the counters only ever rise. */
  ghost function Save(s: Store, run: RunRecord): (Store, Result<(), ()>) {
    var key := run.idempotencyKey;
    if key.Some? && key.value in s.idempotency && s.idempotency[key.value] != run.runId then (s, Err(()))
    else
      var previous := if run.runId in s.runs then s.runs[run.runId].idempotencyKey else None;
      var without := if previous.Some? then s.idempotency - {previous.value} else s.idempotency;
      var index := if key.Some? then without[key.value := run.runId] else without;
      (s.(runs := s.runs[run.runId := run],
          idempotency := index,
          nextToken := Max(s.nextToken, Max(MaxOf(HistoryTokens(run)), MaxOf(LeaseTokens(run)))),
          nextSequence := Max(s.nextSequence, MaxOf(Sequences(run)))),
       Ok(()))
  }

  function EventsSince(s: Store, id: RunId, sequence: nat): Answer<seq<Envelope>> {
    if id !in s.runs then Err(RunNotFound(id)) else Ok(EventsAfter(s.runs[id].eventLog, sequence))
  }

  // The checks made before a run is created.

  method ValidateRequest(request: RunRequest) returns (valid: bool)
    ensures valid <==> ValidRequest(request)
  {
    var checked, underflow := Validate(request.workflow.steps);
    if checked.Err? {
      return false;
    }
    var workflow, manifest := request.workflow, request.manifest;
    if workflow.id != manifest.workflowId || workflow.version != manifest.workflowVersion {
      return false;
    }
    if exists id <- request.manifest.tasks :: request.manifest.tasks[id].id != id {
      return false;
    }
    for i := 0 to |request.workflow.steps|
      invariant forall j :: 0 <= j < i ==>
                  var s := request.workflow.steps[j];
                  && s.task in request.manifest.tasks
                  && (s.policy.fallbackTask.Some? ==> s.policy.fallbackTask.value in request.manifest.tasks)
    {
      var s := request.workflow.steps[i];
      if s.task !in request.manifest.tasks
         || (s.policy.fallbackTask.Some? && s.policy.fallbackTask.value !in request.manifest.tasks)
      {
        assert s in request.workflow.steps;
        return false;
      }
    }
    return true;
  }

  /** The repository object; each method is one critical section of the source. */
  class InMemoryRunStore {
    var runs: map<RunId, RunRecord>
    var idempotency: map<IdempotencyKey, RunId>
    var events: seq<Envelope>
    var nextEventSequence: nat
    var nextLeaseToken: nat

    ghost function State(): Store
      reads this
    {
      Store(runs, idempotency, events, nextEventSequence, nextLeaseToken)
    }

    /** Every run is stored under its own id. */
    ghost predicate Valid()
      reads this
    {
      forall id <- runs :: runs[id].runId == id
    }

    constructor ()
      ensures Valid() && State() == EMPTY
    {
      runs, idempotency, events := map[], map[], [];
      nextEventSequence, nextLeaseToken := 0, 0;
    }

    method AppendToRun(id: RunId, e: Event) returns (envelope: Envelope)
      requires id in runs
      requires Valid()
      modifies this
      ensures Valid()
      ensures envelope == Envelope(old(nextEventSequence) + 1, e)
      ensures State() == old(Commit(State(), id, AppendEvent(runs[id], nextEventSequence + 1, e)))
    {
      nextEventSequence := nextEventSequence + 1;
      envelope := Envelope(nextEventSequence, e);
      var run := runs[id];
      run := run.(events := run.events + [e], eventLog := run.eventLog + [envelope], revision := run.revision + 1);
      runs := runs[id := run];
      events := events + [envelope];
    }

    method Create(request: RunRequest) returns (answer: Answer<RunRecord>)
      requires Valid()
      modifies this
      ensures Valid()
      ensures (State(), answer) == CreateRun(old(State()), request)
    {
      var valid := ValidateRequest(request);
      if !valid {
        return Err(InvalidRequest);
      }
      var key := request.idempotencyKey;
      if key.Some? && key.value in idempotency {
        var existing := idempotency[key.value];
        if existing !in runs {
          return Err(Conflict(existing));
        }
        if SamePayload(runs[existing], request) {
          return Ok(runs[existing]);
        }
        return Err(IdempotencyConflict(existing));
      }
      if request.runId in runs {
        return Err(Conflict(request.runId));
      }
      if key.Some? {
        idempotency := idempotency[key.value := request.runId];
      }
      runs := runs[request.runId := NewRun(request)];
      var _ := AppendToRun(request.runId, RunStarted(request.runId, request.workflow.id));
      assert runs == old(runs)[request.runId := runs[request.runId]];
      return Ok(runs[request.runId]);
    }

    method ClaimNext(id: RunId, worker: WorkerProfile, leaseMs: nat, now: nat)
      returns (answer: Answer<Option<StepClaim>>)
      requires Valid()
      modifies this
      ensures Valid()
      ensures (State(), answer) == ClaimNextStep(old(State()), id, worker, leaseMs, now)
    {
      if id !in runs {
        return Err(RunNotFound(id));
      }
      var run := runs[id];
      if !run.status.RunRunning? {
        return Ok(None);
      }
      var next := FirstClaimable(run, worker, run.workflow.steps, now);
      if next.None? {
        return Ok(None);
      }
      var step := next.value;
      var task := CurrentTask(Find(run.steps, step.id), step);
      nextLeaseToken := nextLeaseToken + 1;
      var record := if step.id in run.steps then run.steps[step.id] else NewRecord(step.id, task);
      record := record.(task := task, status := Running, attempts := record.attempts + 1);
      record := record.(lease := Some(StepLease(worker.id, nextLeaseToken, Deadline(now, leaseMs))));
      record := record.(history := record.history
                          + [StepAttempt(record.attempts, worker.id, nextLeaseToken, now, None, Running, None)]);
      runs := runs[id := run.(steps := run.steps[step.id := record], revision := run.revision + 1)];
      return Ok(Some(StepClaim(id, run.workflow.id, step, run.manifest.tasks[task], StepInput(run, step),
                               worker.id, nextLeaseToken, record.attempts, record.fallbackUsed)));
    }

    method Renew(claim: StepClaim, leaseMs: nat, now: nat) returns (answer: Answer<()>)
      requires Valid()
      modifies this
      ensures Valid()
      ensures (State(), answer) == RenewStep(old(State()), claim, leaseMs, now)
    {
      if claim.runId !in runs {
        return Err(RunNotFound(claim.runId));
      }
      var run := runs[claim.runId];
      if claim.step.id !in run.steps || run.steps[claim.step.id].lease.None? {
        return Err(LeaseLost(claim.runId, claim.step.id));
      }
      var record := run.steps[claim.step.id];
      var lease := record.lease.value;
      if lease.worker != claim.worker || lease.token != claim.leaseToken || lease.expiresAt <= now {
        return Err(LeaseLost(claim.runId, claim.step.id));
      }
      record := record.(lease := Some(lease.(expiresAt := Deadline(now, leaseMs))));
      runs := runs[claim.runId := run.(steps := run.steps[claim.step.id := record], revision := run.revision + 1)];
      return Ok(());
    }

    /** The record of a completed attempt, field by field. */
    method UpdateCompleted(r: StepRecord, c: StepCompletion, now: nat) returns (record: StepRecord)
      ensures record == CompleteRecord(r, c, now)
    {
      record := r.(status := c.status, output := c.output, error := c.error,
                   fallbackUsed := r.fallbackUsed || c.fallbackUsed, artifacts := c.artifacts);
      if c.nextTask.Some? {
        record := record.(task := c.nextTask.value);
      }
      record := record.(lease := None);
      if c.retryAfterMs.Some? {
        record := record.(nextAttemptAt := Some(SatAdd(now, c.retryAfterMs.value)));
      } else {
        record := record.(nextAttemptAt := None);
      }
      record := record.(history := CloseAttempt(record.history, now, record.status, record.error));
    }

    method Complete(claim: StepClaim, c: StepCompletion, now: nat) returns (answer: Answer<RunRecord>)
      requires Valid()
      modifies this
      ensures Valid()
      ensures (State(), answer) == CompleteStep(old(State()), claim, c, now)
    {
      hide CompletionMatches, CompleteRecord, LeaseHeld;
      if claim.runId !in runs {
        return Err(RunNotFound(claim.runId));
      }
      var run := runs[claim.runId];
      if claim.step.id !in run.steps || !LeaseHeld(run.steps[claim.step.id], claim, now) {
        return Err(LeaseLost(claim.runId, claim.step.id));
      }
      if !CompletionMatches(c, claim, run.manifest) {
        return Err(InvalidCompletion(claim.runId, claim.step.id));
      }
      var record := UpdateCompleted(run.steps[claim.step.id], c, now);
      run := run.(steps := run.steps[claim.step.id := record], revision := run.revision + 1);
      if record.status.Failed? {
        run := run.(error := record.error);
      }
      runs := runs[claim.runId := run];
      assert run == CompleteRun(old(runs)[claim.runId], claim, c, now);
      hide CompleteRun;
      var _ := AppendToRun(claim.runId, c.event);
      assert runs == old(runs)[claim.runId := runs[claim.runId]];
      return Ok(runs[claim.runId]);
    }

    method Record(id: RunId, e: Event) returns (answer: Answer<Envelope>)
      requires Valid()
      modifies this
      ensures Valid()
      ensures (State(), answer) == RecordEvent(old(State()), id, e)
    {
      if id !in runs {
        return Err(RunNotFound(id));
      }
      if !EventBelongs(e, id) || !EventValid(runs[id], e) {
        return Err(InvalidEvent(id));
      }
      var envelope := AppendToRun(id, e);
      return Ok(envelope);
    }

    method Finish(id: RunId, metrics: seq<Metric>) returns (answer: Answer<RunRecord>)
      requires Valid()
      modifies this
      ensures Valid()
      ensures (State(), answer) == FinishStoredRun(old(State()), id, metrics)
    {
      if id !in runs {
        return Err(RunNotFound(id));
      }
      var previous := runs[id].status;
      runs := runs[id := FinishRun(runs[id], metrics)];
      if runs[id].status != previous {
        var _ := AppendToRun(id, RunFinished(id, runs[id].status));
      }
      assert runs == old(runs)[id := runs[id]];
      return Ok(runs[id]);
    }

    method Cancel(id: RunId, now: nat) returns (answer: Answer<RunRecord>)
      requires Valid()
      modifies this
      ensures Valid()
      ensures (State(), answer) == CancelStoredRun(old(State()), id, now)
    {
      if id !in runs {
        return Err(RunNotFound(id));
      }
      var run := runs[id];
      if Terminal(run.status) {
        return Ok(run);
      }
      var steps := run.steps;
      var todo := steps.Keys;
      while todo != {}
        invariant todo <= run.steps.Keys == steps.Keys
        invariant forall step :: step in steps ==>
                    steps[step] == if step in todo then run.steps[step] else CancelRecord(run.steps[step], now)
      {
        var step :| step in todo;
        todo := todo - {step};
        steps := steps[step := CancelRecord(steps[step], now)];
      }
      assert steps == CancelRun(run, now).steps;
      runs := runs[id := run.(status := RunCancelled, steps := steps)];
      var _ := AppendToRun(id, RunFinished(id, RunCancelled));
      assert runs == old(runs)[id := runs[id]];
      return Ok(runs[id]);
    }

    /** One expired step: the record moves on and its event is published. */
    method RecoverOne(id: RunId, step: StepSpec, now: nat) returns (recovered: bool)
      requires id in runs
      requires Valid()
      modifies this
      ensures Valid()
      ensures recovered == old(StepExpired(runs[id], step, now))
      ensures !recovered ==> State() == old(State())
      ensures recovered ==> State() == old(Commit(State(), id, RecoverStep(runs[id], step, nextEventSequence + 1, now)))
    {
      var run := runs[id];
      if !StepExpired(run, step, now) {
        return false;
      }
      var (record, e) := RecoverRecord(id, step, run.steps[step.id], now);
      run := run.(steps := run.steps[step.id := record]);
      if record.status.Failed? {
        run := run.(error := record.error);
      }
      runs := runs[id := run];
      var _ := AppendToRun(id, e);
      assert runs == old(runs)[id := runs[id]];
      return true;
    }

    method RecoverOneRun(id: RunId, now: nat) returns (expired: seq<StepId>)
      requires id in runs
      requires Valid()
      modifies this
      ensures Valid()
      ensures (State(), expired) == RecoverRun(old(State()), id, old(runs[id].workflow.steps), now)
    {
      ghost var start := State();
      var steps := runs[id].workflow.steps;
      expired := [];
      RecoverRunStart(start, id, now);
      for i := 0 to |steps|
        invariant Valid() && id in runs && (State(), expired) == RecoverRun(start, id, steps[..i], now)
      {
        RecoverRunSnoc(start, id, steps, i, now);
        var hit := RecoverOne(id, steps[i], now);
        if hit {
          expired := expired + [steps[i].id];
        }
      }
      assert steps[..|steps|] == steps;
    }

    method RecoverExpired(now: nat) returns (expired: seq<(RunId, StepId)>, ghost order: seq<RunId>)
      requires Valid()
      modifies this
      ensures Valid()
      ensures NoDuplicates(order) && (forall id :: id in order <==> id in old(runs))
      ensures (State(), expired) == RecoverRuns(old(State()), order, now)
    {
      expired, order := [], [];
      var todo := runs.Keys;
      while todo != {}
        invariant NoDuplicates(order) && (forall id :: id in order <==> id in old(runs) && id !in todo)
        invariant Valid() && todo <= old(runs).Keys == runs.Keys
        invariant (State(), expired) == RecoverRuns(old(State()), order, now)
      {
        var id :| id in todo;
        todo := todo - {id};
        var steps := RecoverOneRun(id, now);
        expired := expired + Pairs(id, steps);
        assert (order + [id])[..|order|] == order;
        order := order + [id];
      }
    }

    method SaveSnapshot(run: RunRecord) returns (answer: Result<(), ()>)
      requires Valid()
      modifies this
      ensures Valid()
      ensures (State(), answer) == Save(old(State()), run)
    {
      var key := run.idempotencyKey;
      if key.Some? && key.value in idempotency && idempotency[key.value] != run.runId {
        return Err(());
      }
      if run.runId in runs && runs[run.runId].idempotencyKey.Some? {
        idempotency := idempotency - {runs[run.runId].idempotencyKey.value};
      }
      if key.Some? {
        idempotency := idempotency[key.value := run.runId];
      }
      var history := HighestHistoryToken(run);
      var leases := HighestLeaseToken(run);
      var sequence := HighestSequence(run);
      nextLeaseToken := Max(nextLeaseToken, Max(history, leases));
      nextEventSequence := Max(nextEventSequence, sequence);
      runs := runs[run.runId := run];
      return Ok(());
    }

    method ReadEvents(id: RunId, sequence: nat) returns (answer: Answer<seq<Envelope>>)
      ensures id !in runs ==> answer == Err(RunNotFound(id))
      ensures id in runs ==> answer.Ok? && Picks(runs[id].eventLog, sequence, answer.value)
      ensures answer == EventsSince(State(), id, sequence)
    {
      if id !in runs {
        return Err(RunNotFound(id));
      }
      EventsAfterPicks(runs[id].eventLog, sequence);
      return Ok(EventsAfter(runs[id].eventLog, sequence));
    }
  }

  lemma RecoverRunStart(s: Store, id: RunId, now: nat)
    requires id in s.runs
    ensures RecoverRun(s, id, [], now) == (s, [])
  {
    var run := s.runs[id];
    assert s.runs[id := run] == s.runs;
    assert run.eventLog[|run.eventLog|..] == [] && s.events + [] == s.events;
  }

  /** One more step of a run recovered on top of the first ones. */
  lemma RecoverRunSnoc(s: Store, id: RunId, steps: seq<StepSpec>, i: nat, now: nat)
    requires id in s.runs && i < |steps|
    ensures var (t, expired) := RecoverRun(s, id, steps[..i], now);
            && id in t.runs
            && RecoverRun(s, id, steps[..i + 1], now) ==
               if StepExpired(t.runs[id], steps[i], now) then
                 (Commit(t, id, RecoverStep(t.runs[id], steps[i], t.nextSequence + 1, now)), expired + [steps[i].id])
               else (t, expired)
  {
    hide RecoverRecord;
    assert steps[..i + 1][..i] == steps[..i];
    RecoverGrowsLog(s.runs[id], steps[..i], s.nextSequence, now);
    var (t, expired) := RecoverRun(s, id, steps[..i], now);
    if StepExpired(t.runs[id], steps[i], now) {
      var r := RecoverStep(t.runs[id], steps[i], t.nextSequence + 1, now);
      var n := |s.runs[id].eventLog|;
      var published, last := t.runs[id].eventLog[n..], r.eventLog[|r.eventLog| - 1];
      assert r.eventLog[n..] == published + [last];
      assert s.events + (published + [last]) == s.events + published + [last];
      assert s.runs[id := t.runs[id]][id := r] == s.runs[id := r];
    }
  }
}
