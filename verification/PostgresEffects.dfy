/** What every PostgreSQL transaction answers and writes, case by case, for any caller and any row: the
    same changes of a run as in memory, with the row's own tokens and sequences, or a storage error. */
module PostgresEffects {
  import opened Types
  import opened Workflows
  import opened Evaluation
  import opened Policy
  import opened Transitions
  import opened Effects
  import opened RunInvariant
  import opened RunTheorems
  import opened RunMachine
  import opened PostgresSystem
  import opened PostgresAnswers
  import opened Operations
  import Memory = MemoryStore
  import Calls = MemoryEffects
  import Theorems = MemoryTheorems
  import PG = PostgresStore

  /** The row is replaced by one for the run and the answer given, unless the run cannot be written: then
      the answer is a storage error and the table stays. */
  ghost predicate Writes<T>(t: PG.Table, u: PG.Table, run: RunRecord, answer: Memory.Answer<T>, value: T) {
    if Unwritable(run) then u == t && answer == Err(Storage)
    else answer == Ok(value) && u == t[run.runId := PG.RowOf(run)]
  }

  predicate Refuses<T>(t: PG.Table, u: PG.Table, answer: Memory.Answer<T>, error: RepositoryError) {
    u == t && answer == Err(error)
  }

  /** One above the highest token in the history the row retains. */
  ghost predicate Draws(run: RunRecord, token: nat) {
    var drawn := set id, i | id in run.steps && 0 <= i < |run.steps[id].history| ::
      run.steps[id].history[i].leaseToken;
    (forall n :: n in drawn ==> n < token) && (token == 1 || (token > 1 && token - 1 in drawn))
  }

  /** One above the last sequence in the run's own log. */
  predicate Follows(run: RunRecord, sequence: nat) {
    sequence == 1 + if run.eventLog == [] then 0 else run.eventLog[|run.eventLog| - 1].sequence
  }

  lemma SequenceFollows(run: RunRecord)
    ensures Follows(run, PG.LastSequence(run) + 1)
  {
  }

  lemma TokenDraws(run: RunRecord)
    ensures Draws(run, NextToken(run))
  {
    hide Memory.MaxOf;
    assert Memory.HistoryTokens(run) == set id, i | id in run.steps && 0 <= i < |run.steps[id].history| ::
      run.steps[id].history[i].leaseToken;
  }

  /** Loading a run, writing it back: only a higher revision replaces a row. */
  lemma PersistDoes(t: PG.Table, run: RunRecord)
    ensures PG.Persist(t, run) ==
            if Unwritable(run) then Err(Storage)
            else if run.runId in t && t[run.runId].revision < run.revision then Ok(t[run.runId := PG.RowOf(run)])
            else Err(Conflict(run.runId))
    ensures var row := PG.RowOf(run);
            row.revision == run.revision && row.payload == run && row.key == run.idempotencyKey
  {
    hide PG.ExpiryFits, Unwritable, PG.EarliestExpiry;
    UnwritableIff(run);
  }

  lemma CreateDoes(t: PG.Table, request: RunRequest) returns (run: RunRecord)
    requires TableInv(t)
    ensures var (u, answer) := PG.Create(t, request);
            var key := request.idempotencyKey;
            if !ValidSteps(request.workflow.steps) || !Backs(request.manifest, request.workflow) then
              Refuses(t, u, answer, InvalidRequest)
            else if key.Some? && exists id :: id in t && t[id].payload.idempotencyKey == key then
              exists id :: && id in t && t[id].payload.idempotencyKey == key && u == t
                           && var known := t[id].payload;
                              answer == if known.workflow == request.workflow && known.manifest == request.manifest
                                           && known.input == request.input
                                        then Ok(known) else Err(IdempotencyConflict(id))
            else if request.runId in t then Refuses(t, u, answer, Conflict(request.runId))
            else Started(run, request, 1) && answer == Ok(run) && u == t[request.runId := PG.RowOf(run)]
  {
    hide ValidSteps, ManifestCovers, Backs, CreateAndLog, PG.EarliestExpiry;
    CreateStarts(request, 1);
    run := CreateAndLog(request, 1);
    assert ValidRequest(request) <==> ValidSteps(request.workflow.steps)
                                      && Backs(request.manifest, request.workflow);
    if request.idempotencyKey.Some? {
      forall id ensures PG.KeyTaken(t, request.idempotencyKey.value, id)
                        <==> id in t && t[id].payload.idempotencyKey == request.idempotencyKey {}
    }
  }

  /** As in memory, with the token drawn from the row and the backoff mark cleared. */
  lemma ClaimDoes(t: PG.Table, id: RunId, worker: WorkerProfile, leaseMs: nat, now: nat)
    returns (i: nat, token: nat, run: RunRecord, claim: StepClaim)
    requires TableInv(t)
    ensures var (u, answer) := PG.ClaimNext(t, id, worker, leaseMs, now);
            if id !in t then Refuses(t, u, answer, RunNotFound(id))
            else if !t[id].payload.status.RunRunning? || NoneReady(t[id].payload, worker, now) then
              u == t && answer == Ok(None)
            else
              var row := t[id].payload;
              && FirstReady(row, worker, now, i) && Draws(row, token) && run.runId == id
              && Leased(row, run, row.workflow.steps[i], worker.id, token, leaseMs, now, true, claim)
              && Writes(t, u, run, answer, Some(claim))
  {
    hide TableInv, PG.Persist, PG.RowOf, Unwritable, Claimable, ClaimRun, Ready, Leased, NextToken, Draws;
    i, token, run, claim := *, *, *, *;
    if id in t {
      hide PG.ClaimNext;
      var row := t[id].payload;
      i := NextIsFirstReady(row, worker, now);
      var next := FirstClaimable(row, worker, row.workflow.steps, now);
      ClaimNextIs(t, id, worker, leaseMs, now);
      token := NextToken(row);
      TokenDraws(row);
      RowAt(t, id);
      if next.Some? {
        Calls.NotNone(row, worker, now, i);
        Calls.KnownTask(row, worker, next.value, now);
        ClaimLeases(row, worker, next.value, token, leaseMs, now, true);
        var leased := ClaimRun(row, next.value, worker.id, token, leaseMs, now, true);
        run, claim := leased.0, leased.1;
        LeasedSameRun(row, run, row.workflow.steps[i], worker.id, token, leaseMs, now, claim);
      }
    }
  }

  lemma LeasedSameRun(a: RunRecord, b: RunRecord, s: StepSpec, worker: WorkerId, token: nat, leaseMs: nat, now: nat,
                      claim: StepClaim)
    requires Leased(a, b, s, worker, token, leaseMs, now, true, claim)
    ensures b.runId == a.runId
  {
  }

  lemma RenewDoes(t: PG.Table, claim: StepClaim, leaseMs: nat, now: nat) returns (run: RunRecord)
    requires TableInv(t)
    ensures var ((u, answer), id) := (PG.Renew(t, claim, leaseMs, now), claim.runId);
            if id !in t then Refuses(t, u, answer, RunNotFound(id))
            else if !Owns(t[id].payload, claim, now) then Refuses(t, u, answer, LeaseLost(id, claim.step.id))
            else
              Extended(t[id].payload, run, claim.step.id, leaseMs, now) && run.runId == id
              && Writes(t, u, run, answer, ())
  {
    hide TableInv, LeaseHeld, Owns, RenewRecord, Extended, PG.Persist, PG.RowOf, Unwritable;
    run := *;
    var id := claim.runId;
    if id in t {
      HoldsIffOwns(t[id].payload, claim, now);
      RowAt(t, id);
      if HoldsLease(t[id].payload, claim, now) {
        run := RenewRun(t[id].payload, claim, leaseMs, now);
        RenewExtends(t[id].payload, claim, leaseMs, now);
        WriteOutcome(t, id, run);
      }
    }
  }

  lemma CompleteDoes(t: PG.Table, claim: StepClaim, c: StepCompletion, now: nat)
    returns (sequence: nat, run: RunRecord)
    requires TableInv(t)
    ensures var ((u, answer), id) := (PG.Complete(t, claim, c, now), claim.runId);
            if id !in t then Refuses(t, u, answer, RunNotFound(id))
            else if !Owns(t[id].payload, claim, now) then Refuses(t, u, answer, LeaseLost(id, claim.step.id))
            else if !Presentable(c, claim, t[id].payload.manifest) then
              Refuses(t, u, answer, InvalidCompletion(id, claim.step.id))
            else
              && Follows(t[id].payload, sequence) && run.runId == id
              && Committed(t[id].payload, run, claim.step.id, c, sequence, now)
              && Writes(t, u, run, answer, run)
  {
    hide TableInv, LeaseHeld, Owns, CompletionMatches, Presentable, CompleteRecord, Committed, PG.Persist, PG.RowOf,
      Unwritable, PG.LastSequence, Follows;
    sequence, run := *, *;
    var id := claim.runId;
    if id in t {
      var row := t[id].payload;
      HoldsIffOwns(row, claim, now);
      MatchesIffPresentable(c, claim, row.manifest);
      RowAt(t, id);
      SequenceFollows(row);
      sequence := PG.LastSequence(row) + 1;
      if HoldsLease(row, claim, now) {
        run := CompleteAndLog(row, claim, c, sequence, now);
        CompleteCommits(row, claim, c, sequence, now);
        WriteOutcome(t, id, run);
      }
    }
  }

  lemma RecordDoes(t: PG.Table, id: RunId, e: Event) returns (sequence: nat, run: RunRecord)
    requires TableInv(t)
    ensures var (u, answer) := PG.Record(t, id, e);
            if id !in t then Refuses(t, u, answer, RunNotFound(id))
            else if !Reportable(t[id].payload, e) then Refuses(t, u, answer, InvalidEvent(id))
            else
              && Follows(t[id].payload, sequence) && run.runId == id
              && Reported(t[id].payload, run, sequence, e)
              && Writes(t, u, run, answer, Envelope(sequence, e))
  {
    hide TableInv, EventValid, Accurate, PG.Persist, PG.RowOf, Unwritable, PG.LastSequence, Follows;
    sequence, run := *, *;
    if id in t {
      var row := t[id].payload;
      ValidIffReportable(row, e);
      RowAt(t, id);
      SequenceFollows(row);
      sequence := PG.LastSequence(row) + 1;
      run := AppendEvent(row, sequence, e);
      WriteOutcome(t, id, run);
    }
  }

  /** Nothing is written if neither status nor metrics nor decisions differ; otherwise the revision is
      raised once more. */
  lemma FinishDoes(t: PG.Table, id: RunId, metrics: seq<Metric>) returns (sequence: nat, run: RunRecord)
    requires TableInv(t)
    ensures var (u, answer) := PG.Finish(t, id, metrics);
            if id !in t then Refuses(t, u, answer, RunNotFound(id))
            else
              && Follows(t[id].payload, sequence) && run.runId == id
              && Judged(t[id].payload, run, metrics, sequence)
              && if SameVerdict(t[id].payload, run) then u == t && answer == Ok(run)
                 else
                   var written := run.(revision := run.revision + 1);
                   Writes(t, u, written, answer, written)
  {
    hide TableInv, FinishRun, PG.Persist, PG.RowOf, Unwritable, PG.LastSequence, Follows, Verdict, Decided;
    sequence, run := *, *;
    if id in t {
      var row := t[id].payload;
      RowAt(t, id);
      SequenceFollows(row);
      sequence := PG.LastSequence(row) + 1;
      run := FinishAndLog(row, metrics, sequence);
      FinishJudges(row, metrics, sequence);
      WriteOutcome(t, id, PG.Touch(run));
    }
  }

  lemma CancelDoes(t: PG.Table, id: RunId, now: nat) returns (sequence: nat, run: RunRecord)
    requires TableInv(t)
    ensures var (u, answer) := PG.Cancel(t, id, now);
            if id !in t then Refuses(t, u, answer, RunNotFound(id))
            else if t[id].payload.status != RunRunning then u == t && answer == Ok(t[id].payload)
            else
              && Follows(t[id].payload, sequence) && run.runId == id
              && Stopped(t[id].payload, run, sequence, now)
              && var written := run.(revision := run.revision + 1);
                 Writes(t, u, written, answer, written)
  {
    hide TableInv, CancelRun, PG.Persist, PG.RowOf, Unwritable, PG.LastSequence, Follows, CalledOff;
    sequence, run := *, *;
    if id in t {
      var row := t[id].payload;
      RowAt(t, id);
      SequenceFollows(row);
      sequence := PG.LastSequence(row) + 1;
      run := CancelAndLog(row, sequence, now);
      CancelStops(row, sequence, now);
      WriteOutcome(t, id, PG.Touch(run));
    }
  }

  /** One row of recovery: left alone without an expired lease, otherwise recovered and written with the
      revision raised once more. */
  lemma RecoverRowDoes(x: Server, id: RunId, now: nat) returns (run: RunRecord)
    requires ServerInv(x) && id in x.table
    ensures var (u, expired) := PG.RecoverRow(x.table, id, now);
            && run.runId == id && RecoveredExactly(x.table[id].payload, run, expired, now)
            && var written := run.(revision := run.revision + 1);
               u == if expired == [] then Ok(x.table)
                    else if Unwritable(written) then Err(Storage)
                    else Ok(x.table[id := PG.RowOf(written)])
  {
    hide ServerInv, RunInv, PG.Persist, PG.RowOf, Unwritable, PG.LastSequence, RecoverSteps, ExpiredIds, Announced,
      MovedOn, ExpiredGone;
    RowFacts(x, id);
    var row := x.table[id].payload;
    RecoveryIsExact(row, ClaimsOf(x.issued, id), PG.LastSequence(row), now);
    run := RecoverSteps(row, row.workflow.steps, PG.LastSequence(row), now).0;
    if RecoverSteps(row, row.workflow.steps, PG.LastSequence(row), now).2 != [] {
      WriteOutcome(x.table, id, PG.Touch(run));
    }
  }

  /** An upsert needs a writable run, a key no other row has, and a higher revision than the row's. */
  lemma SaveDoes(t: PG.Table, run: RunRecord)
    ensures var ((u, answer), id) := (PG.SaveRow(t, run), run.runId);
            if Unwritable(run) || (id in t && run.revision <= t[id].revision)
               || (run.idempotencyKey.Some?
                   && exists other :: other in t && other != id && t[other].key == run.idempotencyKey)
            then u == t && answer.Err?
            else answer == Ok(()) && u == t[id := PG.RowOf(run)]
  {
    hide PG.ExpiryFits, Unwritable, PG.RowOf;
    UnwritableIff(run);
    if run.idempotencyKey.Some? {
      forall other ensures PG.KeyTaken(t, run.idempotencyKey.value, other)
                           <==> other in t && t[other].key == run.idempotencyKey {}
    }
  }

  // Over histories of clients.

  /** Finishing any stored run gives it its verdict, if the row can be written. */
  lemma FinishDecides(ops: seq<Op>, id: RunId, metrics: seq<Metric>)
    requires id in PerformAll(START, ops).table
    ensures var t := PerformAll(START, ops).table;
            var answer := PG.Finish(t, id, metrics).1;
            answer == Err(Storage)
            || (answer.Ok? && FinalVerdict(t[id].payload, metrics, answer.value.status))
  {
    hide PerformAll, ServerInv, RunInv, FinalVerdict, PG.Finish, Judged, Unwritable, FinishAndLog;
    var x := PerformAll(START, ops);
    Reachable(ops);
    RowFacts(x, id);
    hide TableInv, Fresh, LogUpTo, TokensUpTo;
    var sequence, run := FinishDoes(x.table, id, metrics);
    FinishGivesVerdict(x.table[id].payload, ClaimsOf(x.issued, id), metrics, sequence);
    SameVerdictGiven(x.table[id].payload, run, FinishAndLog(x.table[id].payload, metrics, sequence), metrics, sequence);
  }

  /** A verdict is unique. */
  lemma SameVerdictGiven(a: RunRecord, b: RunRecord, c: RunRecord, metrics: seq<Metric>, sequence: nat)
    requires Judged(a, b, metrics, sequence) && Judged(a, c, metrics, sequence)
    ensures b.status == c.status
  {
    hide Decided, GatesMet;
  }

  /** The input of every claim ever handed out for a step is the run's input and, under their ids, the
      final outputs of its dependencies, all of which have succeeded. */
  lemma InputsAreExact(ops: seq<Op>, id: RunId, c: StepClaim)
    requires var x := PerformAll(START, ops); id in x.table && Issued(ClaimsOf(x.issued, id), c)
    ensures var run := PerformAll(START, ops).table[id].payload;
            && CarriesInput(c.input, run.input, c.step.dependsOn, run.steps)
            && forall d :: d in c.step.dependsOn ==> DoneStep(run, d) && run.steps[d].output.Some?
  {
    hide PerformAll, ServerInv, RunInv, CarriesInput;
    var x := PerformAll(START, ops);
    Reachable(ops);
    RowFacts(x, id);
    hide TableInv, Fresh, LogUpTo, TokensUpTo;
    var run, claims := x.table[id].payload, ClaimsOf(x.issued, id);
    var s := Theorems.IssuedStep(run, claims, c);
    StableInputs(run, claims, s, c, c);
  }
}
