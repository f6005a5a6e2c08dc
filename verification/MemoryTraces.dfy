/** Whole histories of the in-memory repository: arbitrary interleavings of workers, expiries,
    cancellations and clocks. */
module MemoryTraces {
  import opened Types
  import opened Workflows
  import opened Evaluation
  import opened Policy
  import opened Transitions
  import opened StepLog
  import opened StepInvariant
  import opened RunInvariant
  import opened RunTheorems
  import opened MemoryStore

  /** One call on the repository, with whatever claim the caller presents. */
  datatype Call =
    | CallCreate(request: RunRequest)
    | CallClaim(run: RunId, worker: WorkerProfile, leaseMs: nat, now: nat)
    | CallRenew(claim: StepClaim, leaseMs: nat, now: nat)
    | CallComplete(claim: StepClaim, completion: StepCompletion, now: nat)
    | CallRecord(run: RunId, event: Event)
    | CallFinish(run: RunId, metrics: seq<Metric>)
    | CallCancel(run: RunId, now: nat)
    | CallRecover(order: seq<RunId>, now: nat)
    | CallSave(snapshot: RunRecord)

  ghost function Apply(s: Store, call: Call): Store {
    match call
    case CallCreate(request) => CreateRun(s, request).0
    case CallClaim(id, worker, leaseMs, now) => ClaimNextStep(s, id, worker, leaseMs, now).0
    case CallRenew(claim, leaseMs, now) => RenewStep(s, claim, leaseMs, now).0
    case CallComplete(claim, c, now) => CompleteStep(s, claim, c, now).0
    case CallRecord(id, e) => RecordEvent(s, id, e).0
    case CallFinish(id, metrics) => FinishStoredRun(s, id, metrics).0
    case CallCancel(id, now) => CancelStoredRun(s, id, now).0
    case CallRecover(order, now) => RecoverRuns(s, order, now).0
    case CallSave(run) => Save(s, run).0
  }

  ghost function ApplyAll(s: Store, calls: seq<Call>): Store {
    if calls == [] then s
    else Apply(ApplyAll(s, calls[..|calls| - 1]), calls[|calls| - 1])
  }

  predicate NoSaves(calls: seq<Call>) {
    forall c :: c in calls ==> !c.CallSave?
  }

  // Index and counters, for every call including restored snapshots.

  /** Tokens and sequences held by the run stay below the counters. */
  ghost predicate Within(run: RunRecord, token: nat, sequence: nat) {
    && (forall id :: id in run.steps ==>
          && TokensBelow(run.steps[id], token)
          && (run.steps[id].lease.Some? ==> run.steps[id].lease.value.token <= token))
    && LogUpTo(run, sequence)
  }

  ghost predicate KeysInverted(runs: map<RunId, RunRecord>, index: map<IdempotencyKey, RunId>) {
    && (forall id :: id in runs ==> runs[id].runId == id)
    && (forall k :: k in index ==> index[k] in runs && runs[index[k]].idempotencyKey == Some(k))
    && (forall id :: id in runs && runs[id].idempotencyKey.Some? ==>
          runs[id].idempotencyKey.value in index && index[runs[id].idempotencyKey.value] == id)
  }

  ghost predicate IndexInv(s: Store) {
    && KeysInverted(s.runs, s.idempotency)
    && (forall id :: id in s.runs ==> Within(s.runs[id], s.nextToken, s.nextSequence))
  }

  /** One stored run is replaced by one with the same identity that respects the raised counters. */
  lemma ReplaceKeeps(s: Store, t: Store, id: RunId)
    requires IndexInv(s) && id in s.runs && id in t.runs
    requires t.runs == s.runs[id := t.runs[id]] && t.idempotency == s.idempotency
    requires t.nextToken >= s.nextToken && t.nextSequence >= s.nextSequence
    requires t.runs[id].runId == id && t.runs[id].idempotencyKey == s.runs[id].idempotencyKey
    requires Within(t.runs[id], t.nextToken, t.nextSequence)
    ensures IndexInv(t)
  {
  }

  lemma AppendWithin(run: RunRecord, token: nat, sequence: nat, e: Event)
    requires Within(run, token, sequence)
    ensures Within(AppendEvent(run, sequence + 1, e), token, sequence + 1)
  {
  }

  lemma {:induction false} RecoverWithin(run: RunRecord, steps: seq<StepSpec>, token: nat, last: nat, now: nat)
    requires Within(run, token, last)
    ensures var (r, m, expired) := RecoverSteps(run, steps, last, now);
            Within(r, token, m) && r.idempotencyKey == run.idempotencyKey
  {
    if steps != [] {
      var init, step := steps[..|steps| - 1], steps[|steps| - 1];
      RecoverWithin(run, init, token, last, now);
      var (r, m, expired) := RecoverSteps(run, init, last, now);
      if StepExpired(r, step, now) {
        RecoverStepWithin(r, step, token, m, now);
      }
    }
  }

  lemma RecoverStepWithin(run: RunRecord, step: StepSpec, token: nat, last: nat, now: nat)
    requires Within(run, token, last) && step.id in run.steps
    ensures Within(RecoverStep(run, step, last + 1, now), token, last + 1)
    ensures RecoverStep(run, step, last + 1, now).idempotencyKey == run.idempotencyKey
  {
    var (r, e) := RecoverRecord(run.runId, step, run.steps[step.id], now);
    var mid := run.(steps := run.steps[step.id := r], error := if r.status.Failed? then r.error else run.error);
    assert Within(mid, token, last);
    AppendWithin(mid, token, last, e);
  }

  lemma {:induction false} RecoverRunsKeepIndex(s: Store, order: seq<RunId>, now: nat)
    requires IndexInv(s)
    ensures IndexInv(RecoverRuns(s, order, now).0)
  {
    hide Within, KeysInverted, IndexInv;
    if order != [] {
      var id := order[|order| - 1];
      RecoverRunsKeepIndex(s, order[..|order| - 1], now);
      var t := RecoverRuns(s, order[..|order| - 1], now).0;
      if id in t.runs {
        RecoverRunKeepsIndex(t, id, now);
      }
    }
  }

  lemma RecoverRunKeepsIndex(s: Store, id: RunId, now: nat)
    requires IndexInv(s) && id in s.runs
    ensures IndexInv(RecoverRun(s, id, s.runs[id].workflow.steps, now).0)
  {
    hide Within, KeysInverted, RecoverSteps;
    var run := s.runs[id];
    StoredUnderId(s, id);
    RecoverWithin(run, run.workflow.steps, s.nextToken, s.nextSequence, now);
    ReplaceKeeps(s, RecoverRun(s, id, run.workflow.steps, now).0, id);
  }

  lemma StoredUnderId(s: Store, id: RunId)
    requires IndexInv(s) && id in s.runs
    ensures s.runs[id].runId == id
  {
    hide Within;
  }

  lemma SaveKeepsIndex(s: Store, run: RunRecord)
    requires IndexInv(s)
    ensures IndexInv(Save(s, run).0)
  {
    var t := Save(s, run).0;
    if Save(s, run).1.Ok? {
      SnapshotWithin(run, t.nextToken, t.nextSequence);
      SaveKeepsKeys(s, run);
      forall id | id in t.runs ensures Within(t.runs[id], t.nextToken, t.nextSequence) {
        if id != run.runId {
          WithinGrows(s.runs[id], s.nextToken, s.nextSequence, t.nextToken, t.nextSequence);
        }
      }
    }
  }

  lemma WithinGrows(run: RunRecord, token: nat, sequence: nat, token2: nat, sequence2: nat)
    requires Within(run, token, sequence) && token <= token2 && sequence <= sequence2
    ensures Within(run, token2, sequence2)
  {
  }

  lemma SnapshotWithin(run: RunRecord, token: nat, sequence: nat)
    requires token >= MaxOf(HistoryTokens(run)) && token >= MaxOf(LeaseTokens(run)) && sequence >= MaxOf(Sequences(run))
    ensures Within(run, token, sequence)
  {
    forall id, i | id in run.steps && 0 <= i < |run.steps[id].history|
      ensures run.steps[id].history[i].leaseToken <= token
    {
      assert run.steps[id].history[i].leaseToken in HistoryTokens(run);
    }
    forall id | id in run.steps && run.steps[id].lease.Some? ensures run.steps[id].lease.value.token <= token {
      assert run.steps[id].lease.value.token in LeaseTokens(run);
    }
    forall v | v in run.eventLog ensures v.sequence <= sequence {
      assert v.sequence in Sequences(run);
    }
  }

  lemma SaveKeepsKeys(s: Store, run: RunRecord)
    requires KeysInverted(s.runs, s.idempotency) && Save(s, run).1.Ok?
    ensures KeysInverted(Save(s, run).0.runs, Save(s, run).0.idempotency)
  {
    hide MaxOf, HistoryTokens, LeaseTokens, Sequences;
    var t := Save(s, run).0;
    forall k | k in t.idempotency
      ensures t.idempotency[k] in t.runs && t.runs[t.idempotency[k]].idempotencyKey == Some(k)
    {
      if t.idempotency[k] != run.runId {
        assert k in s.idempotency && s.idempotency[k] == t.idempotency[k];
      }
    }
    forall id | id in t.runs && t.runs[id].idempotencyKey.Some?
      ensures var key := t.runs[id].idempotencyKey.value; key in t.idempotency && t.idempotency[key] == id
    {
      if id != run.runId {
        assert t.runs[id] == s.runs[id];
      }
    }
  }

  /** The request leads to a new run. */
  ghost predicate Creates(s: Store, request: RunRequest) {
    && ValidRequest(request)
    && !(request.idempotencyKey.Some? && request.idempotencyKey.value in s.idempotency)
    && request.runId !in s.runs
  }

  lemma CreateOtherwise(s: Store, request: RunRequest)
    requires !Creates(s, request)
    ensures CreateRun(s, request).0 == s
  {
    hide ValidRequest;
  }

  lemma CreateKeepsKeys(s: Store, request: RunRequest)
    requires KeysInverted(s.runs, s.idempotency) && Creates(s, request)
    ensures KeysInverted(CreateRun(s, request).0.runs, CreateRun(s, request).0.idempotency)
  {
    hide ValidRequest;
  }

  lemma CreateKeepsIndex(s: Store, request: RunRequest)
    requires IndexInv(s)
    ensures IndexInv(CreateRun(s, request).0)
  {
    hide ValidRequest, KeysInverted, Within, Creates;
    if Creates(s, request) {
      CreateKeepsKeys(s, request);
      CreateWithin(s, request);
    } else {
      CreateOtherwise(s, request);
    }
  }

  lemma CreateWithin(s: Store, request: RunRequest)
    requires IndexInv(s) && Creates(s, request)
    ensures var t := CreateRun(s, request).0;
            forall id :: id in t.runs ==> Within(t.runs[id], t.nextToken, t.nextSequence)
  {
    hide ValidRequest, KeysInverted, Within;
    var t := CreateRun(s, request).0;
    forall id | id in t.runs ensures Within(t.runs[id], t.nextToken, t.nextSequence) {
      if id == request.runId {
        FirstWithin(request, t.nextToken, t.nextSequence);
      } else {
        WithinGrows(s.runs[id], s.nextToken, s.nextSequence, t.nextToken, t.nextSequence);
      }
    }
  }

  lemma FirstWithin(request: RunRequest, token: nat, sequence: nat)
    ensures Within(CreateAndLog(request, sequence), token, sequence)
  {
  }

  lemma ClaimKeepsIndex(s: Store, id: RunId, worker: WorkerProfile, leaseMs: nat, now: nat)
    requires IndexInv(s)
    ensures IndexInv(ClaimNextStep(s, id, worker, leaseMs, now).0)
  {
    hide KeysInverted, Claimable;
    var t := ClaimNextStep(s, id, worker, leaseMs, now).0;
    if t != s {
      StoredUnderId(s, id);
      WithinGrows(s.runs[id], s.nextToken, s.nextSequence, t.nextToken, t.nextSequence);
      ReplaceKeeps(s, t, id);
    }
  }

  /** Any call, with any claim and any snapshot, keeps the index the exact inverse of the runs' keys
      and the counters above every retained token and sequence. */
  lemma IndexKept(s: Store, call: Call)
    requires IndexInv(s)
    ensures IndexInv(Apply(s, call))
  {
    hide Within, KeysInverted, IndexInv, CreateRun, Save, RecoverRuns;
    match call {
      case CallCreate(request) => CreateKeepsIndex(s, request);
      case CallClaim(id, worker, leaseMs, now) => ClaimKeepsIndex(s, id, worker, leaseMs, now);
      case CallRecover(order, now) => RecoverRunsKeepIndex(s, order, now);
      case CallSave(run) => SaveKeepsIndex(s, run);
      case CallRenew(claim, leaseMs, now) => RenewKeepsIndex(s, claim, leaseMs, now);
      case CallComplete(claim, c, now) => CompleteKeepsIndex(s, claim, c, now);
      case CallRecord(id, e) => RecordKeepsIndex(s, id, e);
      case CallFinish(id, metrics) => FinishKeepsIndex(s, id, metrics);
      case CallCancel(id, now) => CancelKeepsIndex(s, id, now);
    }
  }

  lemma RenewKeepsIndex(s: Store, claim: StepClaim, leaseMs: nat, now: nat)
    requires IndexInv(s)
    ensures IndexInv(RenewStep(s, claim, leaseMs, now).0)
  {
    hide KeysInverted;
    var t := RenewStep(s, claim, leaseMs, now).0;
    if t != s {
      StoredUnderId(s, claim.runId);
      ReplaceKeeps(s, t, claim.runId);
    }
  }

  lemma CompleteKeepsIndex(s: Store, claim: StepClaim, c: StepCompletion, now: nat)
    requires IndexInv(s)
    ensures IndexInv(CompleteStep(s, claim, c, now).0)
  {
    hide KeysInverted, CompletionMatches;
    var t := CompleteStep(s, claim, c, now).0;
    if CompleteStep(s, claim, c, now).1.Ok? {
      StoredUnderId(s, claim.runId);
      var mid := CompleteRun(s.runs[claim.runId], claim, c, now);
      assert Within(mid, s.nextToken, s.nextSequence);
      AppendWithin(mid, s.nextToken, s.nextSequence, c.event);
      ReplaceKeeps(s, t, claim.runId);
    }
  }

  lemma RecordKeepsIndex(s: Store, id: RunId, e: Event)
    requires IndexInv(s)
    ensures IndexInv(RecordEvent(s, id, e).0)
  {
    hide KeysInverted, EventValid;
    if RecordEvent(s, id, e).1.Ok? {
      StoredUnderId(s, id);
      AppendWithin(s.runs[id], s.nextToken, s.nextSequence, e);
      ReplaceKeeps(s, RecordEvent(s, id, e).0, id);
    }
  }

  lemma JudgedWithin(run: RunRecord, token: nat, sequence: nat, metrics: seq<Metric>)
    requires Within(run, token, sequence)
    ensures Within(FinishRun(run, metrics), token, sequence)
  {
    hide HasFailed, AllSucceeded, EvaluateGates, AllPassed, TokensBelow;
  }

  lemma FinishKeepsIndex(s: Store, id: RunId, metrics: seq<Metric>)
    requires IndexInv(s)
    ensures IndexInv(FinishStoredRun(s, id, metrics).0)
  {
    hide KeysInverted, HasFailed, AllSucceeded, EvaluateGates, AllPassed, Within;
    if id in s.runs {
      StoredUnderId(s, id);
      var judged := FinishRun(s.runs[id], metrics);
      JudgedWithin(s.runs[id], s.nextToken, s.nextSequence, metrics);
      AppendWithin(judged, s.nextToken, s.nextSequence, RunFinished(s.runs[id].runId, judged.status));
      ReplaceKeeps(s, FinishStoredRun(s, id, metrics).0, id);
    }
  }

  lemma CancelledWithin(run: RunRecord, token: nat, sequence: nat, now: nat)
    requires Within(run, token, sequence)
    ensures Within(CancelRun(run, now), token, sequence)
  {
  }

  lemma CancelKeepsIndex(s: Store, id: RunId, now: nat)
    requires IndexInv(s)
    ensures IndexInv(CancelStoredRun(s, id, now).0)
  {
    hide KeysInverted, Within, CancelRecord;
    if id in s.runs && !Terminal(s.runs[id].status) {
      StoredUnderId(s, id);
      var mid := CancelRun(s.runs[id], now);
      CancelledWithin(s.runs[id], s.nextToken, s.nextSequence, now);
      AppendWithin(mid, s.nextToken, s.nextSequence, RunFinished(s.runs[id].runId, RunCancelled));
      ReplaceKeeps(s, CancelStoredRun(s, id, now).0, id);
    }
  }

  /** The index and the counters are right after every history whatsoever. */
  lemma {:induction false} IndexAlways(calls: seq<Call>)
    ensures IndexInv(ApplyAll(EMPTY, calls))
  {
    hide Apply;
    if calls != [] {
      IndexAlways(calls[..|calls| - 1]);
      IndexKept(ApplyAll(EMPTY, calls[..|calls| - 1]), calls[|calls| - 1]);
    }
  }

  // The counters themselves.

  ghost predicate CountersKept(s: Store, t: Store) {
    s.nextToken <= t.nextToken && s.nextSequence <= t.nextSequence
  }

  lemma {:induction false} RecoveryCounts(s: Store, order: seq<RunId>, now: nat)
    ensures CountersKept(s, RecoverRuns(s, order, now).0)
  {
    hide RecoverSteps;
    if order != [] {
      RecoveryCounts(s, order[..|order| - 1], now);
    }
  }

  lemma CallCounts(s: Store, call: Call)
    ensures CountersKept(s, Apply(s, call))
  {
    hide ValidRequest, Claimable, CompletionMatches, EventValid, EvaluateGates, HasFailed, AllSucceeded, MaxOf,
      HistoryTokens, LeaseTokens, Sequences;
    if call.CallRecover? {
      RecoveryCounts(s, call.order, call.now);
    }
  }

  /** No call lowers the counter of tokens or that of sequences, a restored snapshot no more than any
      other. */
  lemma {:induction false} CountersNeverFall(s: Store, calls: seq<Call>)
    ensures CountersKept(s, ApplyAll(s, calls))
  {
    hide Apply;
    if calls != [] {
      CountersNeverFall(s, calls[..|calls| - 1]);
      CallCounts(ApplyAll(s, calls[..|calls| - 1]), calls[|calls| - 1]);
    }
  }

  /** So every token and sequence retained at any point of a history stays below what is drawn later,
      even where a restored snapshot has dropped it. */
  lemma RetainedStaysBelow(s: Store, calls: seq<Call>, id: RunId)
    requires IndexInv(s) && id in s.runs
    ensures Within(s.runs[id], ApplyAll(s, calls).nextToken, ApplyAll(s, calls).nextSequence)
  {
    hide KeysInverted, Within, ApplyAll;
    var t := ApplyAll(s, calls);
    CountersNeverFall(s, calls);
    WithinGrows(s.runs[id], s.nextToken, s.nextSequence, t.nextToken, t.nextSequence);
  }

  /** Hence a known key always leads to a stored run: creating never stumbles over a missing one,
      and repeating a request returns the stored run and changes nothing. */
  lemma KnownKeyFindsRun(calls: seq<Call>, request: RunRequest)
    requires ValidRequest(request) && request.idempotencyKey.Some?
    ensures var s := ApplyAll(EMPTY, calls);
            request.idempotencyKey.value in s.idempotency ==>
              var id := s.idempotency[request.idempotencyKey.value];
              && id in s.runs && s.runs[id].runId == id && s.runs[id].idempotencyKey == request.idempotencyKey
              && CreateRun(s, request) ==
                 (s, if SamePayload(s.runs[id], request) then Ok(s.runs[id]) else Err(IdempotencyConflict(id)))
  {
    hide ApplyAll, ValidRequest, Within;
    IndexAlways(calls);
  }
}
