/** What holds in every state and over every history of the in-memory repository. */
module MemoryTheorems {
  import opened Types
  import opened Workflows
  import opened Evaluation
  import opened Policy
  import opened Transitions
  import opened StepLog
  import opened StepInvariant
  import opened RunInvariant
  import opened Effects
  import opened RunTheorems
  import opened RunMachine
  import opened MemoryStore
  import opened MemoryTraces
  import opened MemoryFencing
  import opened MemorySystem
  import opened Operations

  lemma RunInOrder(x: System, id: RunId)
    requires SystemInv(x) && id in x.store.runs
    ensures id in x.issued && RunInv(x.store.runs[id], x.issued[id]) && x.store.runs[id].runId == id
  {
    hide IndexInv, RunInv;
    assert Inv(TrackedRun(x, id));
    Counters(x, id);
  }

  /** A running run is never stuck, whatever its clients did: it can be finished, or a lease is out,
      or some step is handed to any able worker as soon as its backoff is over. */
  lemma NeverStuck(ops: seq<Op>, id: RunId)
    requires id in PerformAll(START, ops).store.runs
    requires PerformAll(START, ops).store.runs[id].status.RunRunning?
    ensures var run := PerformAll(START, ops).store.runs[id];
            HasFailed(run) || AllSucceeded(run) || SomeLease(run)
            || exists s :: s in run.workflow.steps && Offered(run, s)
  {
    hide PerformAll, SystemInv, RunInv, Offered, HasFailed, AllSucceeded, SomeLease;
    Reachable(ops);
    RunInOrder(PerformAll(START, ops), id);
    DeadlockFree(PerformAll(START, ops).store.runs[id], PerformAll(START, ops).issued[id]);
  }

  /** The claims ever handed out for a run stay within its budgets, however long it is driven. */
  lemma ClaimsStayBounded(ops: seq<Op>, id: RunId)
    requires id in PerformAll(START, ops).store.runs
    ensures var x := PerformAll(START, ops);
            var steps := x.store.runs[id].workflow.steps;
            TotalClaims(ClaimsOf(x.issued, id), steps) <= TotalBudget(steps)
  {
    hide PerformAll, SystemInv, RunInv;
    var x := PerformAll(START, ops);
    var steps := x.store.runs[id].workflow.steps;
    Reachable(ops);
    RunInOrder(x, id);
    assert steps[..|steps|] == steps;
    ClaimsBounded(x.store.runs[id], x.issued[id], |steps|);
  }

  // Claims.

  lemma PerformGrows(x: System, op: Op, id: RunId, c: StepClaim)
    requires SystemInv(x) && id in x.store.runs && Issued(ClaimsOf(x.issued, id), c)
    ensures id in Perform(x, op).store.runs && Issued(ClaimsOf(Perform(x, op).issued, id), c)
    ensures SameConstants(x.store.runs[id], Perform(x, op).store.runs[id])
  {
    hide SystemInv, Legal, Perform, Next, RunInv, Issued;
    var m := Refines(x, op, id);
    ClaimsGrow(TrackedRun(x, id), m, c.step.id);
    MoveConstants(TrackedRun(x, id), m) by { assert Inv(TrackedRun(x, id)) by { RunInOrder(x, id); } }
  }

  lemma MoveConstants(x: Tracked, m: Move)
    requires Inv(x) && Legal(x, m)
    ensures SameConstants(x.run, Next(x, m).run)
  {
    hide RunInv, Claimable, EventValid, CompletionMatches, RecoverSteps, EvaluateGates, HasFailed, AllSucceeded;
    if m.Recover? {
      RecoverFrame(x, m);
    }
  }

  lemma {:induction false} IssuedForever(x: System, ops: seq<Op>, id: RunId, c: StepClaim)
    requires SystemInv(x) && id in x.store.runs && Issued(ClaimsOf(x.issued, id), c)
    ensures SystemInv(PerformAll(x, ops))
    ensures id in PerformAll(x, ops).store.runs && Issued(ClaimsOf(PerformAll(x, ops).issued, id), c)
    ensures SameConstants(x.store.runs[id], PerformAll(x, ops).store.runs[id])
  {
    hide SystemInv, Perform, Issued;
    if ops != [] {
      var init, last := ops[..|ops| - 1], ops[|ops| - 1];
      IssuedForever(x, init, id, c);
      PerformGrows(PerformAll(x, init), last, id, c);
      PerformKeeps(PerformAll(x, init), last);
    }
  }

  /** Any two claims ever handed out for a step carry the same input, however far apart. */
  lemma InputsNeverChange(before: seq<Op>, after: seq<Op>, id: RunId, a: StepClaim, b: StepClaim)
    requires var x := PerformAll(START, before); Issued(ClaimsOf(x.issued, id), a) && id in x.store.runs
    requires Issued(ClaimsOf(PerformAll(PerformAll(START, before), after).issued, id), b)
    requires a.step.id == b.step.id
    ensures a.input == b.input && a.step == b.step
  {
    hide PerformAll, SystemInv, RunInv;
    var x := PerformAll(START, before);
    Reachable(before);
    IssuedForever(x, after, id, a);
    var y := PerformAll(x, after);
    RunInOrder(y, id);
    var run, claims := y.store.runs[id], y.issued[id];
    var s := IssuedStep(run, claims, a);
    var t := IssuedStep(run, claims, b);
    StableInputs(run, claims, a.step, a, b);
  }

  /** An issued claim names a step of the run's workflow. */
  lemma IssuedStep(run: RunRecord, claims: Claims, c: StepClaim) returns (s: StepSpec)
    requires RunInv(run, claims) && Issued(claims, c)
    ensures s in run.workflow.steps && s == c.step && c.runId == run.runId
    ensures forall d :: Issued(claims, d) && d.step.id == c.step.id ==> d.step == s
  {
    hide LogOk, StatusOk, ManifestCovers, ValidSteps, StepsOk, StepInput, BudgetOk, HistoryOk, ViewOk;
    KeysMatch(run, claims);
    var id := c.step.id;
    s := StepOf(run, claims, id);
    forall d | Issued(claims, d) && d.step.id == id ensures d.step == s && d.runId == run.runId {
      var i :| 0 <= i < |claims[id]| && claims[id][i] == d;
      assert ClaimOk(ContextOf(run, s), d, run.steps[id].history[i]);
    }
  }

  /** Every claim ever handed out is either the one live claim of its step, or retired, and then
      refused for good: completed, recovered, cancelled and superseded claims cannot commit. */
  lemma LiveOrRetired(x: System, id: RunId, c: StepClaim)
    requires SystemInv(x) && id in x.store.runs && Issued(ClaimsOf(x.issued, id), c)
    ensures c.runId == id
    ensures || Retired(x.store, c)
            || (&& c.step.id in x.store.runs[id].steps && x.store.runs[id].steps[c.step.id].status.Running?
                && c == Last(x.issued[id][c.step.id]))
  {
    hide SystemInv, LogOk, StatusOk, ManifestCovers, ValidSteps, StepsOk, StepInput, StepInv;
    RunInOrder(x, id);
    var run, claims := x.store.runs[id], x.issued[id];
    var s := IssuedStep(run, claims, c);
    KeysMatch(run, claims);
    RecordOf(run, claims, s);
    var k :| 0 <= k < |claims[s.id]| && claims[s.id][k] == c;
    LeaseNamesLastClaim(ContextOf(run, s), run.steps[s.id], claims[s.id], Replay(run.events, s.id), k);
    TokenSeen(x, id, s, k);
  }

  lemma TokenSeen(x: System, id: RunId, s: StepSpec, k: nat)
    requires SystemInv(x) && id in x.store.runs && s in x.store.runs[id].workflow.steps
    requires id in x.issued && s.id in x.issued[id] && k < |x.issued[id][s.id]|
    ensures x.issued[id][s.id][k].leaseToken <= x.store.nextToken
  {
    hide SystemInv, LogOk, StatusOk, ManifestCovers, ValidSteps, StepsOk, StepInput, BudgetOk, ViewOk;
    RunInOrder(x, id);
    var run, claims := x.store.runs[id], x.issued[id];
    KeysMatch(run, claims);
    RecordOf(run, claims, s);
    assert ClaimOk(ContextOf(run, s), claims[s.id][k], run.steps[s.id].history[k]);
    assert IndexInv(x.store) by { IndexOf(x); }
    Counters(x, id);
    assert TokensBelow(run.steps[s.id], x.store.nextToken);
  }

  lemma IndexOf(x: System)
    requires SystemInv(x)
    ensures IndexInv(x.store)
  {
  }

  // Backoff and cancellation.

  /** The claim an operation obtains. */
  function Granted(x: System, op: Op): Option<StepClaim>
    requires op.OpClaim?
  {
    var answer := ClaimNextStep(x.store, op.run, op.worker, op.leaseMs, op.now).1;
    if answer.Ok? then answer.value else None
  }

  /** The attempt was handed out before its deadline. */
  predicate TooEarly(claim: Option<StepClaim>, step: StepId, attempt: nat, now: nat, until: nat) {
    claim.Some? && claim.value.step.id == step && claim.value.attempt == attempt && now < until
  }

  /** While a step waits no claim of the next attempt is handed out before the deadline. */
  lemma {:induction false} WaitRespected(x: System, ops: seq<Op>, id: RunId, step: StepId, attempts: nat, until: nat)
    requires SystemInv(x) && id in x.store.runs && Waiting(x.store.runs[id], step, attempts, until)
    ensures SystemInv(PerformAll(x, ops)) && id in PerformAll(x, ops).store.runs
    ensures Waiting(PerformAll(x, ops).store.runs[id], step, attempts, until)
    ensures ops != [] && Last(ops).OpClaim? && Last(ops).run == id ==>
              !TooEarly(Granted(PerformAll(x, ops[..|ops| - 1]), Last(ops)), step, attempts + 1, Last(ops).now, until)
  {
    hide SystemInv, Perform, Waiting, Granted, TooEarly, Legal, Next, RunInv;
    if ops != [] {
      var init, last := ops[..|ops| - 1], Last(ops);
      WaitRespected(x, init, id, step, attempts, until);
      var y := PerformAll(x, init);
      PerformKeeps(y, last);
      RunInOrder(y, id);
      if last.OpClaim? && last.run == id {
        ClaimWaits(y, last, step, attempts, until);
      } else {
        var m := Refines(y, last, id);
        WaitingLasts(TrackedRun(y, id), m, step, attempts, until);
      }
    }
  }

  lemma ClaimWaits(x: System, op: Op, step: StepId, attempts: nat, until: nat)
    requires SystemInv(x) && op.OpClaim? && op.run in x.store.runs
    requires Waiting(x.store.runs[op.run], step, attempts, until)
    ensures op.run in Perform(x, op).store.runs && Waiting(Perform(x, op).store.runs[op.run], step, attempts, until)
    ensures !TooEarly(Granted(x, op), step, attempts + 1, op.now, until)
  {
    hide IndexInv, RunInv, Claimable, TokensUpTo;
    var id := op.run;
    Counters(x, id);
    RunInOrder(x, id);
    var run := x.store.runs[id];
    var answer := ClaimNextStep(x.store, id, op.worker, op.leaseMs, op.now).1;
    if answer.Ok? && answer.value.Some? {
      var next := FirstClaimable(run, op.worker, run.workflow.steps, op.now).value;
      var m := Claim(op.worker, next, x.store.nextToken + 1, op.leaseMs, op.now, false);
      WaitingLasts(TrackedRun(x, id), m, step, attempts, until);
    }
  }

  /** The completion of the named claim is accepted and asks for a retry after a delay. */
  ghost predicate RetriesLater(x: System, op: Op) {
    && op.OpComplete? && op.completion.retryAfterMs.Some?
    && var named := ClaimNamed(x.issued, op.run, op.step, op.attempt);
       named.Some? && CompleteStep(x.store, named.value, op.completion, op.now).1.Ok?
  }

  /** The time from which the next attempt may start. */
  function RetryDue(op: Op): nat
    requires op.OpComplete? && op.completion.retryAfterMs.Some?
  {
    SatAdd(op.now, op.completion.retryAfterMs.value)
  }

  lemma RetryWaits(x: System, op: Op)
    requires SystemInv(x) && RetriesLater(x, op)
    ensures op.run in Perform(x, op).store.runs
    ensures Waiting(Perform(x, op).store.runs[op.run], op.step, op.attempt, RetryDue(op))
  {
    hide RunInv, IndexInv, CompletionMatches, Fresh, TokensUpTo, LogUpTo, LeaseHeld, Waiting, CloseAttempt;
    var id := op.run;
    var claim := ClaimNamed(x.issued, id, op.step, op.attempt).value;
    NamedClaimFits(x, id, op.step, op.attempt);
    Counters(x, id);
    RunInOrder(x, id);
    NumberedByAttempt(TrackedRun(x, id), op.step, op.attempt, op.now);
    RetryStartsWaiting(TrackedRun(x, id), Complete(claim, op.completion, x.store.nextSequence + 1, op.now));
  }

  /** After an accepted completion that asks for a delayed retry, whatever happens next, no worker is
      handed the next attempt before the time of the completion plus the delay. */
  lemma BackoffRespected(x: System, retry: Op, ops: seq<Op>, claim: Op)
    requires SystemInv(x) && RetriesLater(x, retry) && claim.OpClaim? && claim.run == retry.run
    ensures var y := PerformAll(Perform(x, retry), ops);
            !TooEarly(Granted(y, claim), retry.step, retry.attempt + 1, claim.now, RetryDue(retry))
  {
    hide SystemInv, Perform, PerformAll, Waiting, Granted, TooEarly, CompleteStep, ClaimNamed;
    PerformKeeps(x, retry);
    RetryWaits(x, retry);
    assert (ops + [claim])[..|ops|] == ops;
    WaitRespected(Perform(x, retry), ops + [claim], retry.run, retry.step, retry.attempt, RetryDue(retry));
  }

  /** A run cancelled with no failed step and not all steps succeeded keeps that outcome and its
      records, whatever is tried on it. */
  lemma {:induction false} CancelledForGood(x: System, ops: seq<Op>, id: RunId)
    requires SystemInv(x) && id in x.store.runs && Settled(x.store.runs[id])
    ensures SystemInv(PerformAll(x, ops)) && id in PerformAll(x, ops).store.runs
    ensures Settled(PerformAll(x, ops).store.runs[id])
    ensures PerformAll(x, ops).store.runs[id].steps == x.store.runs[id].steps
  {
    hide SystemInv, Perform, Settled, Legal, Next, RunInv;
    if ops != [] {
      var init, last := ops[..|ops| - 1], ops[|ops| - 1];
      CancelledForGood(x, init, id);
      var y := PerformAll(x, init);
      PerformKeeps(y, last);
      RunInOrder(y, id);
      var m := Refines(y, last, id);
      SettledStays(TrackedRun(y, id), m);
    }
  }

  // Recovery of the whole store.

  type Runs = map<RunId, RunRecord>

  /** One run: no record is added or lost, those without an expired lease are unchanged, the others go
      the way their budget and fallback ask for, and each of these is told by one event. */
  ghost predicate RunSwept(a: RunRecord, b: RunRecord, now: nat) {
    && SameRequest(a, b) && SameVerdict(a, b) && b.steps.Keys == a.steps.Keys
    && (forall step :: step in a.steps && !Expired(a.steps[step], now) ==> b.steps[step] == a.steps[step])
    && (forall s :: s in a.workflow.steps && s.id in a.steps && Expired(a.steps[s.id], now) ==>
          MovedOn(s, a.steps[s.id], b.steps[s.id], now))
    && Announced(a, b, ExpiredIds(a, a.workflow.steps, now))
  }

  lemma RecoverySweeps(a: RunRecord, b: RunRecord, expired: seq<StepId>, now: nat)
    requires RecoveredExactly(a, b, expired, now)
    ensures RunSwept(a, b, now)
  {
    hide MovedOn, Announced, ExpiredIds, Expired;
  }

  /** The expired steps of the visited runs, run by run, each run's in workflow order. */
  function AllExpired(runs: Runs, order: seq<RunId>, now: nat): seq<(RunId, StepId)> {
    if order == [] then []
    else
      var id := order[|order| - 1];
      AllExpired(runs, order[..|order| - 1], now)
      + (if id in runs then Pairs(id, ExpiredIds(runs[id], runs[id].workflow.steps, now)) else [])
  }

  /** The pairs are exactly the steps of the visited runs whose lease had expired, each once; no
      lease of a visited run has expired any more; these runs are swept and every other is untouched. */
  ghost predicate Swept(s: Runs, t: Runs, order: seq<RunId>, expired: seq<(RunId, StepId)>, now: nat) {
    && t.Keys == s.Keys && expired == AllExpired(s, order, now)
    && (forall id, step :: (id, step) in expired <==>
          id in order && id in s && step in s[id].steps && Expired(s[id].steps[step], now))
    && (forall i, j :: 0 <= i < j < |expired| ==> expired[i] != expired[j])
    && (forall id, step :: id in order && id in t && step in t[id].steps ==>
          !Expired(t[id].steps[step], now))
    && (forall id :: id in t && id in order ==> RunSwept(s[id], t[id], now))
    && (forall id :: id in t && id !in order ==> t[id] == s[id])
  }

  lemma SweptVisit(s: Runs, t: Runs, order: seq<RunId>, expired: seq<(RunId, StepId)>, id: RunId, u: Runs,
                   steps: seq<StepId>, now: nat)
    requires Swept(s, t, order, expired, now) && id !in order && id in t
    requires id in u && u == t[id := u[id]]
    requires forall step :: step in steps <==> step in s[id].steps && Expired(s[id].steps[step], now)
    requires NoDuplicates(steps) && id in s && steps == ExpiredIds(s[id], s[id].workflow.steps, now)
    requires forall step :: step in u[id].steps ==> !Expired(u[id].steps[step], now)
    requires RunSwept(t[id], u[id], now)
    ensures Swept(s, u, order + [id], expired + Pairs(id, steps), now)
  {
    hide Expired, RunSwept, ExpiredIds;
    var pairs := Pairs(id, steps);
    assert (order + [id])[..|order|] == order;
    forall r, step ensures (r, step) in expired + pairs <==>
        r in order + [id] && r in s && step in s[r].steps && Expired(s[r].steps[step], now)
    {
      assert (r, step) in pairs <==> r == id && step in steps by {
        if r == id && step in steps {
          var i :| 0 <= i < |steps| && steps[i] == step;
          assert pairs[i] == (r, step);
        }
      }
    }
    forall i, j | 0 <= i < j < |expired + pairs| ensures (expired + pairs)[i] != (expired + pairs)[j] {
      if i < |expired| <= j {
        assert expired[i] in expired && pairs[j - |expired|].0 == id;
      }
    }
  }

  /** Recovery is complete and exact over the whole store. */
  lemma {:induction false} RecoveryCompletes(x: System, order: seq<RunId>, now: nat)
    requires SystemInv(x) && NoDuplicates(order)
    ensures var (t, expired) := RecoverRuns(x.store, order, now);
            Swept(x.store.runs, t.runs, order, expired, now) && IndexInv(t)
  {
    hide SystemInv, RecoverSteps, IndexInv, Expired, Swept, RunSwept, Announced, MovedOn;
    IndexOf(x);
    if order == [] {
      SweptNothing(x.store.runs, now);
    } else {
      var n := |order| - 1;
      var init, id := order[..n], order[n];
      RecoveryCompletes(x, init, now);
      var (t, expired) := RecoverRuns(x.store, init, now);
      assert order == init + [id] && id !in init;
      SweptKeys(x.store.runs, t.runs, init, expired, now, id);
      if id in t.runs {
        var steps := t.runs[id].workflow.steps;
        RecoverRunKeepsIndex(t, id, now);
        RunInOrder(x, id);
        Counters(System(t, map[]), id);
        RecoveryIsExact(t.runs[id], x.issued[id], t.nextSequence, now);
        var (u, ids) := RecoverRun(t, id, steps, now);
        RecoverySweeps(t.runs[id], u.runs[id], ids, now);
        SweptVisit(x.store.runs, t.runs, init, expired, id, u.runs, ids, now);
      }
    }
  }

  lemma SweptNothing(s: Runs, now: nat)
    ensures Swept(s, s, [], [], now)
  {
  }

  lemma SweptKeys(s: Runs, t: Runs, order: seq<RunId>, expired: seq<(RunId, StepId)>, now: nat, id: RunId)
    requires Swept(s, t, order, expired, now) && id !in order
    ensures id in t <==> id in s
    ensures id in t ==> t[id] == s[id]
    ensures id !in s ==> Swept(s, t, order + [id], expired, now)
  {
    hide Expired, RunSwept;
  }
}
