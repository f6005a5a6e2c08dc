/** What holds in every state and over every history of the PostgreSQL repository. */
module PostgresTheorems {
  import opened Types
  import opened Workflows
  import opened Evaluation
  import opened Policy
  import opened Transitions
  import opened StepInvariant
  import opened RunInvariant
  import opened Effects
  import opened RunTheorems
  import opened RunMachine
  import opened PostgresSystem
  import opened PostgresAnswers
  import opened Operations
  import Memory = MemoryStore
  import System = MemorySystem
  import Theorems = MemoryTheorems
  import PG = PostgresStore

  // Fencing.

  /** A claim can neither renew nor complete. */
  ghost predicate TurnedAway(t: PG.Table, claim: StepClaim) {
    && (forall leaseMs, now :: PG.Renew(t, claim, leaseMs, now).0 == t && PG.Renew(t, claim, leaseMs, now).1.Err?)
    && (forall c, now :: PG.Complete(t, claim, c, now).0 == t && PG.Complete(t, claim, c, now).1.Err?)
  }

  /** A claim handed out for a run that no longer holds its step. */
  ghost predicate Retired(x: Server, id: RunId, c: StepClaim) {
    id in x.table && c.runId == id && Issued(ClaimsOf(x.issued, id), c) && !Live(TrackedRow(x, id), c)
  }

  lemma RetiredIsRefused(x: Server, id: RunId, c: StepClaim)
    requires ServerInv(x) && Retired(x, id, c)
    ensures TurnedAway(x.table, c)
  {
    hide Inv, TableInv, Live, PG.Persist, CompletionMatches, Issued;
    forall now | HoldsLease(x.table[id].payload, c, now) ensures false {
      assert Inv(TrackedRow(x, id));
      HolderIsLive(TrackedRow(x, id), c, now);
    }
  }

  /** Once retired a claim stays retired and refused, whatever the clients do. Tokens are drawn per
      run from the retained history alone, and that is enough. */
  lemma {:induction false} RetiredForever(x: Server, ops: seq<Op>, id: RunId, c: StepClaim)
    requires ServerInv(x) && Retired(x, id, c)
    ensures ServerInv(PerformAll(x, ops)) && Retired(PerformAll(x, ops), id, c)
    ensures TurnedAway(PerformAll(x, ops).table, c)
  {
    hide ServerInv, Perform, Retired, TurnedAway;
    if ops != [] {
      var y := PerformAll(x, ops[..|ops| - 1]);
      RetiredForever(x, ops[..|ops| - 1], id, c);
      RetiredNext(y, ops[|ops| - 1], id, c);
      PerformKeeps(y, ops[|ops| - 1]);
    }
    RetiredIsRefused(PerformAll(x, ops), id, c);
  }

  lemma RetiredNext(x: Server, op: Op, id: RunId, c: StepClaim)
    requires ServerInv(x) && Retired(x, id, c)
    ensures Retired(Perform(x, op), id, c)
  {
    hide ServerInv, Legal, Next, Perform, Issued, RunInv;
    var m := Refines(x, op, id);
    RowFacts(x, id);
    RetiredStays(TrackedRow(x, id), m, c);
  }

  /** A claim commits at most once. */
  lemma CommitsOnce(x: Server, id: RunId, step: StepId, attempt: nat, c: StepCompletion, now: nat, ops: seq<Op>)
    requires ServerInv(x) && ClaimNamed(x.issued, id, step, attempt).Some?
    requires PG.Complete(x.table, ClaimNamed(x.issued, id, step, attempt).value, c, now).1.Ok?
    ensures TurnedAway(PerformAll(Perform(x, OpComplete(id, step, attempt, c, now)), ops).table,
                    ClaimNamed(x.issued, id, step, attempt).value)
  {
    hide ServerInv, PerformAll, Perform, TurnedAway, Retired, PG.Complete;
    var op := OpComplete(id, step, attempt, c, now);
    PerformKeeps(x, op);
    CompletedIsRetired(x, id, step, attempt, c, now);
    RetiredForever(Perform(x, op), ops, id, ClaimNamed(x.issued, id, step, attempt).value);
  }

  lemma CompletedIsRetired(x: Server, id: RunId, step: StepId, attempt: nat, c: StepCompletion, now: nat)
    requires ServerInv(x) && ClaimNamed(x.issued, id, step, attempt).Some?
    requires PG.Complete(x.table, ClaimNamed(x.issued, id, step, attempt).value, c, now).1.Ok?
    ensures var claim := ClaimNamed(x.issued, id, step, attempt).value;
            Retired(Perform(x, OpComplete(id, step, attempt, c, now)), id, claim)
  {
    hide ServerInv, RunInv, TableInv, PG.EarliestExpiry, TokensUpTo, Memory.MaxOf, Memory.HistoryTokens, Fresh,
      LogUpTo;
    var claim := ClaimNamed(x.issued, id, step, attempt).value;
    NamedClaimFits(x, id, step, attempt);
    RowFacts(x, id);
    var run := x.table[id].payload;
    var m := Complete(claim, c, PG.LastSequence(run) + 1, now);
    CompletionRetires(TrackedRow(x, id), m);
  }

  // Outcomes and backoff.

  /** A run that has left `Running` never returns to it and hands out no further claim. */
  lemma {:induction false} LeftRunningForGood(x: Server, ops: seq<Op>, id: RunId)
    requires ServerInv(x) && id in x.table && Terminal(x.table[id].payload.status)
    ensures var y := PerformAll(x, ops);
            && ServerInv(y) && id in y.table && Terminal(y.table[id].payload.status)
            && forall worker, leaseMs, now :: PG.ClaimNext(y.table, id, worker, leaseMs, now) == (y.table, Ok(None))
  {
    hide ServerInv, Perform, Legal, Next, RunInv;
    if ops != [] {
      var init, last := ops[..|ops| - 1], ops[|ops| - 1];
      LeftRunningForGood(x, init, id);
      var y := PerformAll(x, init);
      PerformKeeps(y, last);
      RowFacts(y, id);
      var m := Refines(y, last, id);
      TerminalStays(TrackedRow(y, id), m);
    }
  }

  /** The claim an operation obtains. */
  ghost function Obtained(x: Server, op: Op): Option<StepClaim>
    requires op.OpClaim?
  {
    var answer := PG.ClaimNext(x.table, op.run, op.worker, op.leaseMs, op.now).1;
    if answer.Ok? then answer.value else None
  }

  /** While a step waits no claim of the next attempt is handed out before the deadline. */
  lemma {:induction false} WaitRespected(x: Server, ops: seq<Op>, id: RunId, step: StepId, attempts: nat, until: nat)
    requires ServerInv(x) && id in x.table && Waiting(x.table[id].payload, step, attempts, until)
    ensures ServerInv(PerformAll(x, ops)) && id in PerformAll(x, ops).table
    ensures Waiting(PerformAll(x, ops).table[id].payload, step, attempts, until)
    ensures ops != [] && Last(ops).OpClaim? && Last(ops).run == id ==>
              var y := PerformAll(x, ops[..|ops| - 1]);
              !Theorems.TooEarly(Obtained(y, Last(ops)), step, attempts + 1, Last(ops).now, until)
  {
    hide ServerInv, Perform, Waiting, Obtained, Theorems.TooEarly, Legal, Next, RunInv;
    if ops != [] {
      var init, last := ops[..|ops| - 1], Last(ops);
      WaitRespected(x, init, id, step, attempts, until);
      var y := PerformAll(x, init);
      PerformKeeps(y, last);
      RowFacts(y, id);
      var m := Refines(y, last, id);
      WaitingLasts(TrackedRow(y, id), m, step, attempts, until);
      RevisedWaits(Next(TrackedRow(y, id), m).run, Perform(y, last).table[id].payload, step, attempts, until);
      if last.OpClaim? && last.run == id {
        ClaimWaits(y, last, step, attempts, until);
      }
    }
  }

  lemma RevisedWaits(a: RunRecord, b: RunRecord, step: StepId, attempts: nat, until: nat)
    requires SameButRevision(b, a)
    ensures Waiting(a, step, attempts, until) == Waiting(b, step, attempts, until)
  {
  }

  lemma ClaimWaits(x: Server, op: Op, step: StepId, attempts: nat, until: nat)
    requires op.OpClaim?
    requires ServerInv(x) && op.run in x.table && Waiting(x.table[op.run].payload, step, attempts, until)
    ensures !Theorems.TooEarly(Obtained(x, op), step, attempts + 1, op.now, until)
  {
    hide ServerInv, Inv, TableInv, PG.ClaimNext, Fresh, LogUpTo, TokensUpTo, SupportsTask, DependenciesDone,
      StepInput, NextToken, Unwritable, PG.RowOf;
    RowFacts(x, op.run);
    ClaimNextIs(x.table, op.run, op.worker, op.leaseMs, op.now);
  }

  /** The completion of the named claim is accepted and asks for a retry after a delay. */
  ghost predicate RetriesLater(x: Server, op: Op) {
    && op.OpComplete? && op.completion.retryAfterMs.Some?
    && var named := ClaimNamed(x.issued, op.run, op.step, op.attempt);
       named.Some? && PG.Complete(x.table, named.value, op.completion, op.now).1.Ok?
  }

  lemma RetryWaits(x: Server, op: Op)
    requires ServerInv(x) && RetriesLater(x, op)
    ensures op.run in Perform(x, op).table
    ensures Waiting(Perform(x, op).table[op.run].payload, op.step, op.attempt, Theorems.RetryDue(op))
  {
    hide ServerInv, RunInv, TableInv, PG.EarliestExpiry, TokensUpTo, Memory.MaxOf, Memory.HistoryTokens, Fresh,
      LogUpTo, CompletionMatches, LeaseHeld, Waiting, CloseAttempt;
    var claim := ClaimNamed(x.issued, op.run, op.step, op.attempt).value;
    NamedClaimFits(x, op.run, op.step, op.attempt);
    RowFacts(x, op.run);
    var m := Complete(claim, op.completion, PG.LastSequence(x.table[op.run].payload) + 1, op.now);
    NumberedByAttempt(TrackedRow(x, op.run), op.step, op.attempt, op.now);
    RetryStartsWaiting(TrackedRow(x, op.run), m);
  }

  /** After an accepted completion that asks for a delayed retry, whatever happens next, no worker is
      handed the next attempt before the time of the completion plus the delay. */
  lemma BackoffRespected(x: Server, retry: Op, ops: seq<Op>, claim: Op)
    requires ServerInv(x) && RetriesLater(x, retry) && claim.OpClaim? && claim.run == retry.run
    ensures var y := PerformAll(Perform(x, retry), ops);
            !Theorems.TooEarly(Obtained(y, claim), retry.step, retry.attempt + 1, claim.now, Theorems.RetryDue(retry))
  {
    hide ServerInv, Perform, PerformAll, Waiting, Obtained, Theorems.TooEarly, PG.Complete, ClaimNamed;
    PerformKeeps(x, retry);
    RetryWaits(x, retry);
    assert (ops + [claim])[..|ops|] == ops;
    WaitRespected(Perform(x, retry), ops + [claim], retry.run, retry.step, retry.attempt, Theorems.RetryDue(retry));
  }

  // Conflicts and recovery.

  /** No transition of a stored run is ever refused as conflicting: the revision check under the row
      lock always passes. */
  lemma NeverConflicts(x: Server, op: Op)
    requires ServerInv(x) && !op.OpCreate?
    ensures ErrorOf(x, op).Some? ==> !ErrorOf(x, op).value.Conflict?
  {
    hide ServerInv, ErrorOf, TableAfter, IssuedAfter, Unwritable, AnyBlocked, Intended;
    if op.OpRecover? {
      RecoverAnswer(x, op);
    } else {
      Answers(x, op);
    }
  }

  function Payloads(t: PG.Table): Theorems.Runs {
    map id | id in t :: t[id].payload
  }

  /** Recovery of the visited rows succeeds exactly if none of them is blocked. It then returns
      exactly the steps with an expired lease, each once, leaves no expired lease in these rows, and
      changes no other record; otherwise it is a storage error. */
  lemma RecoveryCompletes(x: Server, order: seq<RunId>, now: nat)
    requires ServerInv(x) && NoDuplicates(order) && forall id :: id in order ==> id in x.table
    ensures var r := PG.RecoverRows(x.table, order, now);
            if exists id :: id in order && Blocked(x.table[id].payload, now) then r == Err(Storage)
            else r.Ok? && Theorems.Swept(Payloads(x.table), Payloads(r.value.0), order, r.value.1, now)
  {
    hide ServerInv, PG.RecoverRows, Theorems.Swept, Blocked, NoDuplicates;
    RowsOutcome(x, order, now);
    if PG.RecoverRows(x.table, order, now).Ok? {
      RowsSwept(x, order, now);
    }
  }

  lemma {:induction false} RowsSwept(x: Server, order: seq<RunId>, now: nat)
    requires ServerInv(x) && NoDuplicates(order) && forall id :: id in order ==> id in x.table
    requires PG.RecoverRows(x.table, order, now).Ok?
    ensures var (u, pairs) := PG.RecoverRows(x.table, order, now).value;
            Theorems.Swept(Payloads(x.table), Payloads(u), order, pairs, now)
  {
    hide ServerInv, RecoverSteps, TableInv, Theorems.Swept, PG.Persist, RowsRecovered;
    if order == [] {
      Theorems.SweptNothing(Payloads(x.table), now);
    } else {
      var n := |order| - 1;
      var init, id := order[..n], order[n];
      assert order == init + [id] && id !in init;
      assert TableInv(x.table) by { RowFacts(x, id); }
      RecoverRowsRefine(x.table, order, now);
      RowsSwept(x, init, now);
      var (u, pairs) := PG.RecoverRows(x.table, init, now).value;
      VisitedRow(x, u, init, pairs, id, now);
    }
  }

  lemma VisitedRow(x: Server, u: PG.Table, init: seq<RunId>, pairs: seq<(RunId, StepId)>, id: RunId, now: nat)
    requires ServerInv(x) && id in x.table && id !in init
    requires Theorems.Swept(Payloads(x.table), Payloads(u), init, pairs, now)
    requires id in u ==> PG.RecoverRow(u, id, now).0.Ok?
    ensures id in u
    ensures Theorems.Swept(Payloads(x.table), Payloads(PG.RecoverRow(u, id, now).0.value), init + [id],
                           pairs + Memory.Pairs(id, PG.RecoverRow(u, id, now).1), now)
  {
    hide ServerInv, RecoverSteps, TableInv, Theorems.Swept, PG.Persist, RunInv, PG.EarliestExpiry, TokensUpTo,
      Memory.MaxOf, Memory.HistoryTokens, Expired;
    Theorems.SweptKeys(Payloads(x.table), Payloads(u), init, pairs, now, id);
    RowFacts(x, id);
    var run := x.table[id].payload;
    assert u[id].payload == run;
    var (w, ids) := PG.RecoverRow(u, id, now);
    RecoveryIsExact(run, ClaimsOf(x.issued, id), PG.LastSequence(run), now);
    NothingExpired(run, run.workflow.steps, PG.LastSequence(run), now);
    PersistWrites(u, PG.Touch(RecoverSteps(run, run.workflow.steps, PG.LastSequence(run), now).0));
    assert Payloads(w.value) == Payloads(u)[id := Payloads(w.value)[id]];
    var r := RecoverSteps(run, run.workflow.steps, PG.LastSequence(run), now).0;
    Theorems.RecoverySweeps(run, r, ids, now);
    SweptTouched(run, r, now);
    Theorems.SweptVisit(Payloads(x.table), Payloads(u), init, pairs, id, Payloads(w.value), ids, now);
  }

  /** Raising the revision makes no difference to what recovery did. */
  lemma SweptTouched(a: RunRecord, b: RunRecord, now: nat)
    requires Theorems.RunSwept(a, b, now)
    ensures Theorems.RunSwept(a, PG.Touch(b), now)
  {
    hide MovedOn, Tells, ExpiredIds;
  }

  lemma PersistWrites(t: PG.Table, run: RunRecord)
    ensures PG.Persist(t, run).Ok? ==> PG.Persist(t, run).value == t[run.runId := PG.RowOf(run)]
  {
  }

  lemma RecoverTable(x: Server, now: nat)
    requires PG.RecoverRows(x.table, System.VisitOrder(Selected(x.table, now)), now).Ok?
    ensures var rows := PG.RecoverRows(x.table, System.VisitOrder(Selected(x.table, now)), now);
            Perform(x, OpRecover(now)).table == rows.value.0
  {
    hide PG.RecoverRows, Selected;
  }

  /** Unless a row is blocked, after recovery no row holds an expired lease, and the query would
      select none. */
  lemma RecoveryLeavesNone(x: Server, now: nat, id: RunId)
    requires ServerInv(x) && id in x.table && !AnyBlocked(x.table, now)
    ensures var u := Perform(x, OpRecover(now)).table;
            && id in u && !PG.Due(u, id, now)
            && forall step :: step in u[id].payload.steps ==> !Expired(u[id].payload.steps[step], now)
  {
    hide ServerInv, PG.RecoverRows, TableInv, NoDuplicates, PG.Due, Expired, Perform, AnyBlocked;
    RecoverAnswer(x, OpRecover(now));
    RecoverTable(x, now);
    var order := System.VisitOrder(Selected(x.table, now));
    var (u, pairs) := PG.RecoverRows(x.table, order, now).value;
    RowsKnown(x, now);
    RowsSwept(x, order, now);
    RecoverRowsRefine(x.table, order, now);
    RecoveryQueryIsExact(x.table, id, now);
    RecoveryQueryIsExact(u, id, now);
    assert Payloads(u)[id] == u[id].payload && Payloads(x.table)[id] == x.table[id].payload;
  }

  // Starvation.

  lemma BlockedStays(run: RunRecord, now: nat, later: nat)
    requires Blocked(run, now) && now <= later <= I64_MAX
    ensures Blocked(run, later)
  {
    forall step | step in run.steps && StillLeased(run.steps[step], now) ensures StillLeased(run.steps[step], later) {
      assert BeyondColumn(run.steps[step]);
    }
    forall step | step in run.steps && Expired(run.steps[step], now) ensures Expired(run.steps[step], later) {}
    forall step | step in run.steps && StillLeased(run.steps[step], later) ensures StillLeased(run.steps[step], now) {}
  }

  /** The operation leaves the run to itself; recovery happens at a time the database can tell. */
  predicate Ignores(op: Op, id: RunId, now: nat) {
    && (OneRun(op) ==> op.run != id)
    && (op.OpRecover? ==> now <= op.now <= I64_MAX)
  }

  /** One blocked row starves recovery of every run: as long as nobody touches that row, each later
      recovery is a storage error and changes nothing at all. */
  lemma {:induction false} Starves(x: Server, ops: seq<Op>, id: RunId, now: nat)
    requires ServerInv(x) && id in x.table && Blocked(x.table[id].payload, now)
    requires forall op :: op in ops ==> Ignores(op, id, now)
    ensures var y := PerformAll(x, ops);
            ServerInv(y) && id in y.table && y.table[id] == x.table[id]
    ensures ops != [] && Last(ops).OpRecover? ==>
              var y := PerformAll(x, ops[..|ops| - 1]);
              ErrorOf(y, Last(ops)) == Some(Storage) && PerformAll(x, ops) == y
  {
    hide ServerInv, Perform, Blocked, ErrorOf;
    if ops != [] {
      var init, last := ops[..|ops| - 1], Last(ops);
      assert last in ops;
      Starves(x, init, id, now);
      StarvesOnce(PerformAll(x, init), last, id, now);
    }
  }

  lemma StarvesOnce(x: Server, op: Op, id: RunId, now: nat)
    requires ServerInv(x) && id in x.table && Blocked(x.table[id].payload, now) && Ignores(op, id, now)
    ensures ServerInv(Perform(x, op)) && id in Perform(x, op).table && Perform(x, op).table[id] == x.table[id]
    ensures op.OpRecover? ==> ErrorOf(x, op) == Some(Storage) && Perform(x, op) == x
  {
    hide ServerInv, Blocked, ErrorOf, TableAfter, IssuedAfter, TableInv;
    PerformKeeps(x, op);
    match op {
      case OpCreate(request) => CreatedElsewhere(x, op, id);
      case OpRecover(later) =>
        BlockedStays(x.table[id].payload, now, later);
        RefusedIff(x, op);
      case _ => OtherRowStays(x, op, id);
    }
  }

  lemma CreatedElsewhere(x: Server, op: Op, id: RunId)
    requires op.OpCreate?
    requires ServerInv(x) && id in x.table
    ensures id in Perform(x, op).table && Perform(x, op).table[id] == x.table[id]
  {
    hide ServerInv, TableInv, PG.Create, Inv;
    RowFacts(x, id);
    CreateElsewhere(x.table, op.request, id);
  }

  lemma OtherRowStays(x: Server, op: Op, id: RunId)
    requires OneRun(op)
    requires op.run != id
    requires ServerInv(x) && id in x.table
    ensures id in Perform(x, op).table && Perform(x, op).table[id] == x.table[id]
  {
    hide ServerInv, ErrorOf, TableAfter, Unwritable, Intended, TableInv;
    Answers(x, op);
  }

  // Progress.

  /** Any worker able to run the current task of the step is granted a claim once the backoff is over,
      exactly if the deadline it asks for, or another lease of the run, fits the column. */
  ghost predicate Granted(t: PG.Table, id: RunId, s: StepSpec)
    requires id in t
  {
    var run := t[id].payload;
    && NextTaskKnown(run, s)
    && forall worker: WorkerProfile, leaseMs, now ::
         Able(worker, s, run.manifest.tasks[CurrentTask(Find(run.steps, s.id), s)]) && BackoffOver(run, s, now)
         ==> var answer := PG.ClaimNext(t, id, worker, leaseMs, now).1;
             && (answer.Ok? ==> answer.value.Some?)
             && (answer.Ok? <==> Deadline(now, leaseMs) <= I64_MAX || !NoneFits(run.steps))
  }

  lemma OfferedIsGranted(x: Server, id: RunId, s: StepSpec)
    requires ServerInv(x) && id in x.table && x.table[id].payload.status.RunRunning?
    requires Offered(x.table[id].payload, s)
    ensures Granted(x.table, id, s)
  {
    hide ServerInv, PG.ClaimNext, Able, FirstClaimable, FitsColumn, BackoffOver, Deadline;
    var run := x.table[id].payload;
    forall worker: WorkerProfile, leaseMs, now |
      Able(worker, s, run.manifest.tasks[CurrentTask(Find(run.steps, s.id), s)]) && BackoffOver(run, s, now)
      ensures var answer := PG.ClaimNext(x.table, id, worker, leaseMs, now).1;
              && (answer.Ok? ==> answer.value.Some?)
              && (answer.Ok? <==> Deadline(now, leaseMs) <= I64_MAX || !NoneFits(run.steps))
    {
      ClaimGrantedIff(x, id, worker, leaseMs, now);
    }
  }

  /** A running run is never stuck here either: it can be finished, or a step is granted to any able
      worker, or a lease is out, and unless some row is blocked recovery frees that lease once it has
      expired. */
  lemma NeverStuck(ops: seq<Op>, id: RunId)
    requires id in PerformAll(START, ops).table
    requires PerformAll(START, ops).table[id].payload.status.RunRunning?
    ensures var x := PerformAll(START, ops);
            var run := x.table[id].payload;
            || HasFailed(run) || AllSucceeded(run) || SomeLease(run)
            || exists s :: s in run.workflow.steps && Granted(x.table, id, s)
    ensures var x := PerformAll(START, ops);
            forall now, step :: step in x.table[id].payload.steps && Expired(x.table[id].payload.steps[step], now)
                                && !AnyBlocked(x.table, now) ==>
              var u := Perform(x, OpRecover(now)).table;
              id in u && (step in u[id].payload.steps ==> !Expired(u[id].payload.steps[step], now))
  {
    hide PerformAll, Perform, ServerInv, RunInv, Offered, Granted, HasFailed, AllSucceeded, SomeLease, AnyBlocked,
      Expired, PG.Due;
    var x := PerformAll(START, ops);
    Reachable(ops);
    RowFacts(x, id);
    hide TableInv, Fresh, LogUpTo, TokensUpTo;
    var run := x.table[id].payload;
    DeadlockFree(run, ClaimsOf(x.issued, id));
    if s :| s in run.workflow.steps && Offered(run, s) {
      OfferedIsGranted(x, id, s);
    }
    forall now | !AnyBlocked(x.table, now) ensures var u := Perform(x, OpRecover(now)).table;
        id in u && forall step :: step in u[id].payload.steps ==> !Expired(u[id].payload.steps[step], now)
    {
      RecoveryLeavesNone(x, now, id);
    }
  }
}
