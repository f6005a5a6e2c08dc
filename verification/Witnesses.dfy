/** Concrete histories from the empty repositories that reach the states in which the stronger claims
    fail: outcomes that change, a claim that commits twice, recovery that starves. */
module Witnesses {
  import opened Types
  import opened Workflows
  import opened Evaluation
  import opened Policy
  import opened Transitions
  import opened StepInvariant
  import opened RunInvariant
  import opened RunTheorems
  import opened RunMachine
  import opened Operations
  import opened Durable
  import opened LockstepSystem
  import Memory = MemoryStore
  import Traces = MemoryTraces
  import MS = MemorySystem
  import PS = PostgresSystem
  import PA = PostgresAnswers
  import PT = PostgresTheorems

  // A workflow of two independent steps with one gate, and its parts.

  const POLICY: ExecutionPolicy :=
    ExecutionPolicy(RetryPolicy(1, RetryDelay(0, 1, 0)), None, Any, Resources(0, 0, 0, {}))
  const STEP_A: StepSpec := StepSpec("a", "t", [], POLICY)
  const STEP_B: StepSpec := StepSpec("b", "t", [], POLICY)
  const TASK: TaskSpec := TaskSpec("t", "1", "c")
  const GATE: EvaluationGate := EvaluationGate("m", 1.0, AtLeast)
  const WORKER: WorkerProfile := WorkerProfile("w", Any, Resources(0, 0, 0, {}))

  function RequestOf(steps: seq<StepSpec>): RunRequest {
    RunRequest("r", Workflow("f", "1", steps, [GATE]), Manifest("f", "1", map["t" := TASK], [GATE], map[]), Null, None)
  }

  const ONE: RunRequest := RequestOf([STEP_A])
  const TWO: RunRequest := RequestOf([STEP_A, STEP_B])

  lemma OneIsValid()
    ensures ValidRequest(ONE)
  {
    assert TopologicalOrder([STEP_A], ["a"]) by {
      assert STEP_A in [STEP_A];
    }
  }

  lemma TwoIsValid()
    ensures ValidRequest(TWO)
  {
    assert TopologicalOrder([STEP_A, STEP_B], ["a", "b"]) by {
      assert STEP_A in [STEP_A, STEP_B] && STEP_B in [STEP_A, STEP_B];
    }
  }

  lemma MemorySnoc(ops: seq<Op>, op: Op)
    ensures MS.PerformAll(MS.START, ops + [op]) == MS.Perform(MS.PerformAll(MS.START, ops), op)
  {
    hide MS.Perform;
    assert (ops + [op])[..|ops|] == ops;
  }

  lemma PostgresSnoc(ops: seq<Op>, op: Op)
    ensures PS.PerformAll(PS.START, ops + [op]) == PS.Perform(PS.PerformAll(PS.START, ops), op)
  {
    hide PS.Perform;
    assert (ops + [op])[..|ops|] == ops;
  }

  // Claiming steps without dependencies.

  lemma Claims(run: RunRecord, s: StepSpec, now: nat)
    requires s.task in run.manifest.tasks && s.policy == POLICY && s.dependsOn == [] && s.id !in run.steps
    ensures Claimable(run, WORKER, s, now)
  {
  }

  lemma LeasedIsNotClaimable(run: RunRecord, s: StepSpec, now: nat)
    requires s.id in run.steps && run.steps[s.id].lease.Some?
    ensures !Claimable(run, WORKER, s, now)
  {
  }

  lemma FirstOfTwo(run: RunRecord, s: StepSpec, t: StepSpec, now: nat)
    ensures Claimable(run, WORKER, s, now) ==> FirstClaimable(run, WORKER, [s, t], now) == Some(s)
    ensures !Claimable(run, WORKER, s, now) && Claimable(run, WORKER, t, now) ==>
              FirstClaimable(run, WORKER, [s, t], now) == Some(t)
  {
    hide Claimable;
    assert [s, t][1..] == [t];
  }

  /** One claim of a step of a running run, as both repositories grant it. */
  lemma ClaimedIs(a: Tracked, s: StepSpec, token: nat, leaseMs: nat, now: nat, clear: bool)
    requires a.run.status.RunRunning? && FirstClaimable(a.run, WORKER, a.run.workflow.steps, now) == Some(s)
    requires s.id !in a.run.steps && s.id !in a.claims
    ensures var b := ClaimedNext(a, WORKER, token, leaseMs, now, clear);
            && b.run.steps.Keys == a.run.steps.Keys + {s.id}
            && (forall id :: id in a.run.steps ==> b.run.steps[id] == a.run.steps[id])
            && b.run.steps[s.id].lease == Some(StepLease("w", token, Deadline(now, leaseMs)))
            && b.run.steps[s.id].status.Running?
            && b.run == a.run.(steps := b.run.steps, revision := b.run.revision)
            && b.claims.Keys == a.claims.Keys + {s.id} && |b.claims[s.id]| == 1
            && (forall id :: id in a.claims ==> id in b.claims && b.claims[id] == a.claims[id])
            && var c := b.claims[s.id][0];
               c.runId == a.run.runId && c.step == s && c.worker == "w" && c.leaseToken == token && c.attempt == 1
  {
    hide Claimable, StepInput;
    TaskKnown(a.run, WORKER, s, now);
  }

  // An outcome that changes: success, then failure.

  const SUCCESS: StepCompletion := SucceededWith("r", "a", Null, 1)

  const CREATE_ONE: Op := OpCreate(ONE)
  const CLAIM_A: Op := OpClaim("r", WORKER, 10, 0)
  const COMPLETE_A: Op := OpComplete("r", "a", 1, SUCCESS, 0)
  const FINISH_MET: Op := OpFinish("r", [Metric("m", 1.0)])
  const FINISH_BARE: Op := OpFinish("r", [])

  lemma OneCreated()
    ensures var x := MS.PerformAll(MS.START, [CREATE_ONE]);
            && "r" in x.store.runs && MS.TrackedRun(x, "r") == Tracked(CreateAndLog(ONE, 1), map[])
            && x.store.nextToken == 0
  {
    hide ValidRequest;
    OneIsValid();
    assert [] + [CREATE_ONE] == [CREATE_ONE];
    MemorySnoc([], CREATE_ONE);
    assert MS.PerformAll(MS.START, []) == MS.START;
  }

  /** The one step is leased until time 10. */
  ghost predicate AIsLeased(a: Tracked, steps: seq<StepSpec>) {
    && a.run.runId == "r" && a.run.status.RunRunning? && a.run.workflow.steps == steps && a.run.manifest == ONE.manifest
    && a.run.steps.Keys == {"a"} && a.run.steps["a"].status.Running?
    && a.claims.Keys == {"a"} && |a.claims["a"]| == 1
    && var c := a.claims["a"][0];
       && c.runId == "r" && c.step == STEP_A && c.attempt == 1
       && a.run.steps["a"].lease == Some(StepLease(c.worker, c.leaseToken, 10))
  }

  lemma OneClaimed()
    ensures var x := MS.PerformAll(MS.START, [CREATE_ONE, CLAIM_A]);
            "r" in x.store.runs && AIsLeased(MS.TrackedRun(x, "r"), [STEP_A])
  {
    hide MS.Perform, MS.PerformAll, Claimable, ClaimedNext;
    OneCreated();
    var x := MS.PerformAll(MS.START, [CREATE_ONE]);
    var a := MS.TrackedRun(x, "r");
    assert [CREATE_ONE] + [CLAIM_A] == [CREATE_ONE, CLAIM_A];
    MemorySnoc([CREATE_ONE], CLAIM_A);
    Claims(a.run, STEP_A, 0);
    ClaimedIs(a, STEP_A, 1, 10, 0, false);
    StoredClaim(x, CLAIM_A, "r");
  }

  lemma ACompletes(a: Tracked, steps: seq<StepSpec>)
    requires AIsLeased(a, steps)
    ensures Commits(a.run, Some(a.claims["a"][0]), SUCCESS, 0)
    ensures var run := CompleteAndLog(a.run, a.claims["a"][0], SUCCESS, 2, 0);
            && run.steps.Keys == {"a"} && run.steps["a"].status.Succeeded? && run.steps["a"].lease.None?
            && run.workflow == a.run.workflow && run.manifest == a.run.manifest && run.status.RunRunning?
  {
  }

  lemma OneCompleted()
    ensures var x := MS.PerformAll(MS.START, [CREATE_ONE, CLAIM_A, COMPLETE_A]);
            && "r" in x.store.runs
            && var run := x.store.runs["r"];
               && run.steps.Keys == {"a"} && run.steps["a"].status.Succeeded? && run.workflow.steps == [STEP_A]
               && run.manifest == ONE.manifest
  {
    hide MS.Perform, MS.PerformAll, MS.SystemInv, Commits, CompleteAndLog;
    var ops := [CREATE_ONE, CLAIM_A];
    OneClaimed();
    MS.Reachable(ops);
    var x := MS.PerformAll(MS.START, ops);
    var a := MS.TrackedRun(x, "r");
    assert ops + [COMPLETE_A] == [CREATE_ONE, CLAIM_A, COMPLETE_A];
    MemorySnoc(ops, COMPLETE_A);
    ACompletes(a, [STEP_A]);
    assert ClaimNamed(x.issued, "r", "a", 1) == Some(a.claims["a"][0]);
    StoredComplete(x, COMPLETE_A, "r");
    CompletedAt(a, x.store.nextSequence + 1);
  }

  lemma CompletedAt(a: Tracked, sequence: nat)
    requires AIsLeased(a, [STEP_A])
    ensures var b := Completed(a, Some(a.claims["a"][0]), SUCCESS, sequence, 0);
            && b.run.steps.Keys == {"a"} && b.run.steps["a"].status.Succeeded? && b.run.workflow == a.run.workflow
            && b.run.manifest == a.run.manifest
  {
  }

  lemma JudgedOne(run: RunRecord, metrics: seq<Metric>, sequence: nat)
    requires run.steps.Keys == {"a"} && run.steps["a"].status.Succeeded? && run.workflow.steps == [STEP_A]
    requires run.manifest == ONE.manifest
    ensures var judged := FinishAndLog(run, metrics, sequence);
            && judged.steps == run.steps && judged.workflow == run.workflow && judged.manifest == run.manifest
            && judged.status == if Evaluate(GATE, metrics).passed then RunSucceeded else RunFailed
  {
    var gates := [GATE];
    assert gates[..0] == [];
    assert EvaluateGates(gates, metrics) == map["m" := Evaluate(GATE, metrics)];
    assert |run.steps| == |run.steps.Keys| == 1;
    assert !HasFailed(run) && AllSucceeded(run);
    var decisions := map["m" := Evaluate(GATE, metrics)];
    assert "m" in decisions;
    assert AllPassed(decisions) == decisions["m"].passed;
  }

  /** A run that has succeeded fails when it is finished once more without metrics. */
  lemma SuccessIsRevised()
    ensures var x := MS.PerformAll(MS.START, [CREATE_ONE, CLAIM_A, COMPLETE_A, FINISH_MET]);
            && "r" in x.store.runs && x.store.runs["r"].status.RunSucceeded?
            && "r" in MS.Perform(x, FINISH_BARE).store.runs
            && MS.Perform(x, FINISH_BARE).store.runs["r"].status.RunFailed?
  {
    hide MS.Perform, MS.PerformAll, FinishAndLog;
    var ops := [CREATE_ONE, CLAIM_A, COMPLETE_A];
    OneCompleted();
    var x := MS.PerformAll(MS.START, ops);
    assert ops + [FINISH_MET] == [CREATE_ONE, CLAIM_A, COMPLETE_A, FINISH_MET];
    MemorySnoc(ops, FINISH_MET);
    var y := MS.Perform(x, FINISH_MET);
    StoredFinish(x, FINISH_MET, "r");
    JudgedOne(x.store.runs["r"], FINISH_MET.metrics, x.store.nextSequence + 1);
    StoredFinish(y, FINISH_BARE, "r");
    JudgedOne(y.store.runs["r"], [], y.store.nextSequence + 1);
  }

  // A claim that commits twice.

  /** After a completion the snapshot taken before it can be restored, and the claim commits again. */
  lemma RestoredClaimCommitsAgain(s: Memory.Store, claim: StepClaim, c: StepCompletion, now: nat)
    requires Traces.IndexInv(s) && Memory.CompleteStep(s, claim, c, now).1.Ok?
    ensures var t := Memory.CompleteStep(s, claim, c, now).0;
            var u := Memory.Save(t, s.runs[claim.runId]);
            u.1.Ok? && Memory.CompleteStep(u.0, claim, c, now).1.Ok?
  {
    hide CompletionMatches, Traces.Within, Memory.MaxOf, Memory.HistoryTokens, Memory.LeaseTokens, Memory.Sequences;
  }

  /** Such a store is reached by creating a run and claiming its step. */
  lemma SomeClaimCommitsTwice()
    ensures var x := MS.PerformAll(MS.START, [CREATE_ONE, CLAIM_A]);
            && Traces.IndexInv(x.store) && ClaimNamed(x.issued, "r", "a", 1).Some?
            && var claim := ClaimNamed(x.issued, "r", "a", 1).value;
               var (t, answer) := Memory.CompleteStep(x.store, claim, SUCCESS, 0);
               && answer.Ok? && claim.runId in x.store.runs
               && Memory.CompleteStep(Memory.Save(t, x.store.runs[claim.runId]).0, claim, SUCCESS, 0).1.Ok?
  {
    hide MS.PerformAll, CompletionMatches, Memory.Save, Traces.Within;
    var ops := [CREATE_ONE, CLAIM_A];
    OneClaimed();
    MS.Reachable(ops);
    var x := MS.PerformAll(MS.START, ops);
    ACompletes(MS.TrackedRun(x, "r"), [STEP_A]);
    RestoredClaimCommitsAgain(x.store, ClaimNamed(x.issued, "r", "a", 1).value, SUCCESS, 0);
  }

  // Leases beyond the column.

  const CREATE_TWO: Op := OpCreate(TWO)
  const CLAIM_LONG: Op := OpClaim("r", WORKER, U64_MAX, 0)
  const RECOVER: Op := OpRecover(20)

  const CREATED: seq<Op> := [CREATE_TWO]
  const SHORT: seq<Op> := [CREATE_TWO, CLAIM_A]
  const LONG: seq<Op> := [CREATE_TWO, CLAIM_A, CLAIM_LONG]

  lemma TwoCreated()
    ensures var y := PS.PerformAll(PS.START, CREATED);
            "r" in y.table && PS.TrackedRow(y, "r") == Tracked(CreateAndLog(TWO, 1), map[])
    ensures !PA.Refused(PS.START, CREATE_TWO)
  {
    hide PS.Perform, ValidRequest, CreateAndLog;
    TwoIsValid();
    assert [] + CREATED == CREATED;
    PostgresSnoc([], CREATE_TWO);
    assert PS.PerformAll(PS.START, []) == PS.START;
    PS.StartInOrder();
    RowCreated(PS.START, CREATE_TWO);
  }

  /** A granted claim, on the side of PostgreSQL. */
  lemma RowClaimed(y: PS.Server, op: Op, s: StepSpec)
    requires op.OpClaim?
    requires PS.ServerInv(y) && op.run in y.table && op.worker == WORKER
    requires var row := PS.TrackedRow(y, op.run);
             && row.run.status.RunRunning? && s.id !in row.run.steps
             && FirstClaimable(row.run, WORKER, row.run.workflow.steps, op.now) == Some(s)
    requires !PA.NoRoom(y, op)
    ensures !PA.Refused(y, op) && op.run in PS.Perform(y, op).table
    ensures var row, after := PS.TrackedRow(y, op.run), PS.TrackedRow(PS.Perform(y, op), op.run);
            after == ClaimedNext(row, WORKER, PA.NextToken(row.run), op.leaseMs, op.now, true)
  {
    hide PS.ServerInv, PS.Perform, PA.NoRoom, PA.Unwritable, ClaimRun, Claimable, PA.NextToken;
    PA.RefusedExactly(y, op);
    PA.RowWritten(y, op);
  }

  lemma ShortClaimed()
    ensures var y := PS.PerformAll(PS.START, SHORT);
            "r" in y.table && AIsLeased(PS.TrackedRow(y, "r"), [STEP_A, STEP_B])
    ensures !PA.Refused(PS.PerformAll(PS.START, CREATED), CLAIM_A)
  {
    hide PS.PerformAll, PS.Perform, PS.ServerInv, Claimable, ClaimedNext, PA.Refused, PA.NextToken;
    var y := PS.PerformAll(PS.START, CREATED);
    TwoCreated();
    PS.Reachable(CREATED);
    assert CREATED + [CLAIM_A] == SHORT;
    PostgresSnoc(CREATED, CLAIM_A);
    var row := PS.TrackedRow(y, "r");
    Claims(row.run, STEP_A, 0);
    FirstOfTwo(row.run, STEP_A, STEP_B, 0);
    RowClaimed(y, CLAIM_A, STEP_A);
    ClaimedIs(row, STEP_A, PA.NextToken(row.run), 10, 0, true);
  }

  /** One step is leased until time 10, the other beyond the column. */
  ghost predicate BothLeased(b: Tracked) {
    && b.run.steps.Keys == {"a", "b"}
    && b.run.steps["a"].lease.Some? && b.run.steps["a"].lease.value.expiresAt == 10
    && b.run.steps["b"].lease.Some? && b.run.steps["b"].lease.value.expiresAt == U64_MAX
    && "a" in b.claims && |b.claims["a"]| == 1
    && Commits(b.run, Some(b.claims["a"][0]), SUCCESS, 0) && b.claims["a"][0].step.id == "a"
  }

  lemma LongClaimed()
    ensures var y := PS.PerformAll(PS.START, LONG);
            "r" in y.table && BothLeased(PS.TrackedRow(y, "r"))
    ensures !PA.Refused(PS.PerformAll(PS.START, SHORT), CLAIM_LONG)
  {
    hide PS.PerformAll, PS.Perform, PS.ServerInv, Claimable, ClaimedNext, PA.Refused, PA.NextToken, PA.ClaimMeant;
    var y := PS.PerformAll(PS.START, SHORT);
    ShortClaimed();
    PS.Reachable(SHORT);
    assert SHORT + [CLAIM_LONG] == LONG;
    PostgresSnoc(SHORT, CLAIM_LONG);
    var row := PS.TrackedRow(y, "r");
    LeasedIsNotClaimable(row.run, STEP_A, 0);
    Claims(row.run, STEP_B, 0);
    FirstOfTwo(row.run, STEP_A, STEP_B, 0);
    assert PA.FitsColumn(row.run.steps["a"]);
    RowClaimed(y, CLAIM_LONG, STEP_B);
    ClaimedIs(row, STEP_B, PA.NextToken(row.run), U64_MAX, 0, true);
  }

  /** Without another lease the same claim is refused. */
  lemma LongClaimAloneIsRefused()
    ensures PA.ErrorOf(PS.PerformAll(PS.START, CREATED), CLAIM_LONG) == Some(Storage)
  {
    hide PS.PerformAll, PS.ServerInv, Claimable, PA.Refused, PA.ErrorOf, ClaimRun, PA.NextToken;
    var y := PS.PerformAll(PS.START, CREATED);
    TwoCreated();
    PS.Reachable(CREATED);
    var row := PS.TrackedRow(y, "r");
    Claims(row.run, STEP_A, 0);
    FirstOfTwo(row.run, STEP_A, STEP_B, 0);
    PA.RefusedExactly(y, CLAIM_LONG);
    PA.RefusedIff(y, CLAIM_LONG);
  }

  lemma LongLeaseBlocks()
    ensures var y := PS.PerformAll(PS.START, LONG);
            && "r" in y.table && PA.Blocked(y.table["r"].payload, 20)
            && PA.Refused(y, RECOVER) && PA.Refused(y, COMPLETE_A)
  {
    hide PS.PerformAll, PS.ServerInv, Commits, PA.Refused;
    LongClaimed();
    PS.Reachable(LONG);
    var y := PS.PerformAll(PS.START, LONG);
    var run := y.table["r"].payload;
    assert Expired(run.steps["a"], 20) && PA.StillLeased(run.steps["b"], 20);
    PA.RefusedExactly(y, RECOVER);
    LongBlocksCompletion(y);
    PA.RefusedExactly(y, COMPLETE_A);
  }

  lemma LongBlocksCompletion(y: PS.Server)
    requires "r" in y.table && BothLeased(PS.TrackedRow(y, "r"))
    ensures PA.NoRoom(y, COMPLETE_A)
  {
    hide HoldsLease, CompletionMatches;
    var run := y.table["r"].payload;
    assert PA.LeaseOut((run.steps - {"a"})["b"]);
  }

  /** From there recovery is starved for as long as nobody touches the run: whatever else happens, each
      recovery is a storage error and changes nothing, although a lease has long expired. */
  lemma RecoveryIsStarved(ops: seq<Op>)
    requires forall op :: op in ops ==> PT.Ignores(op, "r", 20)
    ensures var y := PS.PerformAll(PS.PerformAll(PS.START, LONG), ops);
            && PA.ErrorOf(y, RECOVER) == Some(Storage) && PS.Perform(y, RECOVER) == y
            && "r" in y.table && "a" in y.table["r"].payload.steps && Expired(y.table["r"].payload.steps["a"], 20)
  {
    hide PS.PerformAll, PS.Perform, PS.ServerInv, PA.Blocked, PA.ErrorOf, Commits;
    var x := PS.PerformAll(PS.START, LONG);
    LongClaimed();
    LongLeaseBlocks();
    PS.Reachable(LONG);
    PT.Starves(x, ops, "r", 20);
    PT.StarvesOnce(PS.PerformAll(x, ops), RECOVER, "r", 20);
  }

  /** And the repositories, in step so far, part there: at recovery, and at the completion of the
      leased step. */
  lemma RepositoriesPart()
    ensures InStepAfter(LONG)
    ensures !InStepAfter(LONG + [RECOVER]) && !InStepAfter(LONG + [COMPLETE_A])
  {
    hide MS.PerformAll, PS.PerformAll, MS.Perform, PS.Perform, InStep, PA.Refused;
    TwoCreated();
    ShortClaimed();
    LongClaimed();
    LongLeaseBlocks();
    StartInStep();
    NoOps();
    assert [] + [CREATE_TWO] == CREATED && CREATED + [CLAIM_A] == SHORT && SHORT + [CLAIM_LONG] == LONG;
    NextInStep([], CREATE_TWO);
    NextInStep(CREATED, CLAIM_A);
    NextInStep(SHORT, CLAIM_LONG);
    NextInStep(LONG, RECOVER);
    NextInStep(LONG, COMPLETE_A);
  }

  lemma NoOps()
    ensures MS.PerformAll(MS.START, []) == MS.START && PS.PerformAll(PS.START, []) == PS.START
  {
  }
}
