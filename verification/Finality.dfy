/** Which outcomes are final. Finishing judges a run whatever its status is, so a terminal status may
    still change; this module says exactly when it cannot. */
module Finality {
  import opened Types
  import opened Workflows
  import opened Evaluation
  import opened Transitions
  import opened StepInvariant
  import opened RunInvariant
  import opened RunTheorems
  import opened RunMachine
  import opened Operations
  import LS = LockstepSystem
  import MS = MemorySystem
  import MT = MemoryTheorems
  import PS = PostgresSystem
  import PA = PostgresAnswers

  /** Cancelled with neither a failed step nor success throughout, failed with a failed step, or
      succeeded without gates. */
  predicate Final(run: RunRecord) {
    || Settled(run)
    || (run.status.RunFailed? && HasFailed(run))
    || (run.status.RunSucceeded? && run.manifest.gates == [])
  }

  /** The status a terminal run gets from its steps and the gates. */
  lemma VerdictOf(run: RunRecord, claims: Claims, metrics: seq<Metric>)
    requires RunInv(run, claims) && Terminal(run.status)
    ensures FinishRun(run, metrics).status
         == if HasFailed(run) then RunFailed
            else if !AllSucceeded(run) then run.status
            else if AllPassed(EvaluateGates(run.manifest.gates, metrics)) then RunSucceeded else RunFailed
    ensures run.status.RunSucceeded? ==> AllSucceeded(run)
    ensures run.status.RunFailed? && !HasFailed(run) ==> AllSucceeded(run)
    ensures AllSucceeded(run) ==> !HasFailed(run)
  {
    hide StepsOk, LogOk, ManifestCovers, ValidSteps, EvaluateGates, AllPassed, DecisionsOk;
  }

  /** No metrics change the status of a terminal run exactly if it is final. */
  lemma FinalIff(run: RunRecord, claims: Claims)
    requires RunInv(run, claims) && Terminal(run.status)
    ensures (forall metrics :: FinishRun(run, metrics).status == run.status) <==> Final(run)
  {
    hide RunInv, FinishRun, EvaluateGates, AllPassed, HasFailed, AllSucceeded;
    var gates := run.manifest.gates;
    forall metrics ensures FinishRun(run, metrics).status
                        == if HasFailed(run) then RunFailed
                           else if !AllSucceeded(run) then run.status
                           else if AllPassed(EvaluateGates(gates, metrics)) then RunSucceeded else RunFailed
    {
      VerdictOf(run, claims, metrics);
    }
    VerdictOf(run, claims, []);
    GatesCanPass(gates);
    GatesCanFail(gates);
    if gates == [] {
      NoGatesPass();
    }
    if !Final(run) {
      assert FinishRun(run, []).status != run.status || FinishRun(run, Meeting(gates)).status != run.status;
    }
  }

  lemma NoGatesPass()
    ensures forall metrics :: AllPassed(EvaluateGates([], metrics))
  {
  }

  // Final for every move.

  lemma AllSettled(x: Tracked, m: Move)
    requires Inv(x) && Legal(x, m) && AllSucceeded(x.run) && !x.run.status.RunRunning?
    ensures Next(x, m).run.steps == x.run.steps && (m.Finish? || Next(x, m).run.status == x.run.status)
    ensures SameConstants(x.run, Next(x, m).run)
  {
    hide RunInv, CompletionMatches, RecoverSteps, Claimable, EvaluateGates, HasFailed, SameConstants;
    forall id | id in x.run.steps ensures x.run.steps[id].lease.None? {
      LeaseMeansRunning(x, id);
    }
    if m.Recover? {
      RecoveryEndsExpired(x.run, x.claims, m.last, m.now);
      RecoverFrame(x, m);
    }
    MT.MoveConstants(x, m);
  }

  lemma FailureStays(x: Tracked, m: Move)
    requires Inv(x) && Legal(x, m) && HasFailed(x.run) && x.run.status.RunFailed?
    ensures HasFailed(Next(x, m).run) && Next(x, m).run.status.RunFailed?
  {
    hide RunInv, CompletionMatches, RecoverSteps, Claimable, EvaluateGates, EventValid;
    var id :| id in x.run.steps && x.run.steps[id].status.Failed?;
    QuietStep(x, m, id);
    assert Next(x, m).run.steps[id].status.Failed?;
    if m.Recover? {
      RecoverFrame(x, m);
    }
    if m.Finish? {
      assert x.run.steps[id].status.Failed?;
    }
  }

  /** No move changes a final outcome. */
  lemma FinalStays(x: Tracked, m: Move)
    requires Inv(x) && Legal(x, m) && Final(x.run)
    ensures Final(Next(x, m).run) && Next(x, m).run.status == x.run.status
  {
    hide RunInv, Legal, Next, HasFailed, AllSucceeded, FinishRun;
    if Settled(x.run) {
      SettledStays(x, m);
    } else if x.run.status.RunFailed? {
      FailureStays(x, m);
    } else {
      VerdictOf(x.run, x.claims, []);
      SuccessStays(x, m);
    }
  }

  lemma SuccessStays(x: Tracked, m: Move)
    requires Inv(x) && Legal(x, m) && x.run.status.RunSucceeded? && AllSucceeded(x.run) && x.run.manifest.gates == []
    ensures Next(x, m).run.status.RunSucceeded? && Next(x, m).run.manifest.gates == []
  {
    hide RunInv, EventValid, CompletionMatches, RecoverSteps, Claimable, EvaluateGates;
    AllSettled(x, m);
    if m.Finish? {
      NoGatesPass();
      VerdictOf(x.run, x.claims, m.metrics);
    }
  }

  // Final for every history.

  lemma {:induction false} FinalForGood(x: MS.System, ops: seq<Op>, id: RunId)
    requires MS.SystemInv(x) && id in x.store.runs && Final(x.store.runs[id])
    ensures MS.SystemInv(MS.PerformAll(x, ops)) && id in MS.PerformAll(x, ops).store.runs
    ensures Final(MS.PerformAll(x, ops).store.runs[id])
    ensures MS.PerformAll(x, ops).store.runs[id].status == x.store.runs[id].status
  {
    hide MS.SystemInv, MS.Perform, Final, Legal, Next, RunInv;
    if ops != [] {
      var init, last := ops[..|ops| - 1], ops[|ops| - 1];
      FinalForGood(x, init, id);
      var y := MS.PerformAll(x, init);
      MS.PerformKeeps(y, last);
      MT.RunInOrder(y, id);
      var m := MS.Refines(y, last, id);
      FinalStays(MS.TrackedRun(y, id), m);
    }
  }

  /** The status of a terminal run after further operations, if the run is still stored. */
  ghost predicate KeepsStatus(x: MS.System, ops: seq<Op>, id: RunId)
    requires id in x.store.runs
  {
    id in MS.PerformAll(x, ops).store.runs && MS.PerformAll(x, ops).store.runs[id].status == x.store.runs[id].status
  }

  /** In every state clients can reach, a terminal outcome survives whatever they do exactly if it is
      final; otherwise a single finish changes it. */
  lemma OutcomeIsFinalIff(x: MS.System, id: RunId)
    requires MS.SystemInv(x) && id in x.store.runs && Terminal(x.store.runs[id].status)
    ensures (forall ops :: KeepsStatus(x, ops, id)) <==> Final(x.store.runs[id])
    ensures (forall metrics :: KeepsStatus(x, [OpFinish(id, metrics)], id)) <==> Final(x.store.runs[id])
  {
    hide MS.SystemInv, MS.PerformAll, MS.Perform, RunInv, FinishRun, Final;
    var run := x.store.runs[id];
    MT.RunInOrder(x, id);
    FinalIff(run, x.issued[id]);
    if Final(run) {
      forall ops ensures KeepsStatus(x, ops, id) {
        FinalForGood(x, ops, id);
      }
    } else {
      var metrics :| FinishRun(run, metrics).status != run.status;
      FinishOnce(x, id, metrics);
      assert !KeepsStatus(x, [OpFinish(id, metrics)], id);
    }
  }

  lemma FinishOnce(x: MS.System, id: RunId, metrics: seq<Metric>)
    requires id in x.store.runs
    ensures var y := MS.PerformAll(x, [OpFinish(id, metrics)]);
            id in y.store.runs && y.store.runs[id].status == FinishRun(x.store.runs[id], metrics).status
  {
    hide FinishRun, MS.Perform;
    var op := OpFinish(id, metrics);
    assert [op][..0] == [];
    assert MS.PerformAll(x, []) == x;
    LS.StoredFinish(x, op, id);
  }

  // Which records are final.

  /** Terminal, with no lease out. */
  ghost predicate Quiet(run: RunRecord) {
    Terminal(run.status) && forall step :: step in run.steps ==> run.steps[step].lease.None?
  }

  /** No move touches the records of such a run. */
  lemma QuietStays(x: Tracked, m: Move)
    requires Inv(x) && Legal(x, m) && Quiet(x.run)
    ensures Quiet(Next(x, m).run) && Next(x, m).run.steps == x.run.steps
  {
    hide RunInv, CompletionMatches, RecoverSteps, Claimable, EvaluateGates, HasFailed, AllSucceeded, EventValid;
    TerminalStays(x, m);
    if m.Recover? {
      RecoveryEndsExpired(x.run, x.claims, m.last, m.now);
    }
  }

  lemma {:induction false} QuietForGood(x: MS.System, ops: seq<Op>, id: RunId)
    requires MS.SystemInv(x) && id in x.store.runs && Quiet(x.store.runs[id])
    ensures MS.SystemInv(MS.PerformAll(x, ops)) && id in MS.PerformAll(x, ops).store.runs
    ensures Quiet(MS.PerformAll(x, ops).store.runs[id])
    ensures MS.PerformAll(x, ops).store.runs[id].steps == x.store.runs[id].steps
  {
    hide MS.SystemInv, MS.Perform, Quiet, Legal, Next, RunInv;
    if ops != [] {
      var init, last := ops[..|ops| - 1], ops[|ops| - 1];
      QuietForGood(x, init, id);
      var y := MS.PerformAll(x, init);
      MS.PerformKeeps(y, last);
      MT.RunInOrder(y, id);
      var m := MS.Refines(y, last, id);
      QuietStays(MS.TrackedRun(y, id), m);
    }
  }

  ghost predicate KeepsRecords(x: MS.System, ops: seq<Op>, id: RunId)
    requires id in x.store.runs
  {
    id in MS.PerformAll(x, ops).store.runs && MS.PerformAll(x, ops).store.runs[id].steps == x.store.runs[id].steps
  }

  /** The records of a terminal run survive whatever clients do exactly if no lease is out. */
  lemma RecordsAreFinalIff(x: MS.System, id: RunId)
    requires MS.SystemInv(x) && id in x.store.runs && Terminal(x.store.runs[id].status)
    ensures (forall ops :: KeepsRecords(x, ops, id)) <==> Quiet(x.store.runs[id])
  {
    hide MS.SystemInv, MS.PerformAll, MS.Perform, RunInv, Quiet;
    if Quiet(x.store.runs[id]) {
      forall ops ensures KeepsRecords(x, ops, id) {
        QuietForGood(x, ops, id);
      }
    } else {
      var step := LeasedStep(x.store.runs[id]);
      var now := x.store.runs[id].steps[step].lease.value.expiresAt;
      RecoveredOnce(x, id, step, now);
      assert !KeepsRecords(x, [OpRecover(now)], id);
    }
  }

  lemma LeasedStep(run: RunRecord) returns (step: StepId)
    requires Terminal(run.status) && !Quiet(run)
    ensures step in run.steps && run.steps[step].lease.Some?
  {
    step :| step in run.steps && run.steps[step].lease.Some?;
  }

  lemma RecoveredOnce(x: MS.System, id: RunId, step: StepId, now: nat)
    requires MS.SystemInv(x) && id in x.store.runs && step in x.store.runs[id].steps
    requires Expired(x.store.runs[id].steps[step], now)
    ensures var y := MS.PerformAll(x, [OpRecover(now)]);
            id in y.store.runs && y.store.runs[id].steps != x.store.runs[id].steps
  {
    hide MS.SystemInv, MS.Perform, RunInv, RecoverSteps, Expired;
    var op := OpRecover(now);
    assert [op][..0] == [];
    assert MS.PerformAll(x, []) == x;
    var last := LS.StoredRecover(x, op, id);
    MT.RunInOrder(x, id);
    RecoveredSomewhere(MS.TrackedRun(x, id), last, now, step);
  }

  lemma RecoveredSomewhere(x: Tracked, last: nat, now: nat, step: StepId)
    requires Inv(x) && step in x.run.steps && Expired(x.run.steps[step], now) && LogUpTo(x.run, last)
    ensures RecoverSteps(x.run, x.run.workflow.steps, last, now).0.steps != x.run.steps
  {
    hide RunInv, RecoverSteps, Expired, LogUpTo;
    RecoveryEndsExpired(x.run, x.claims, last, now);
  }

  // The same for the rows of PostgreSQL.

  lemma {:induction false} RowFinalForGood(x: PS.Server, ops: seq<Op>, id: RunId)
    requires PS.ServerInv(x) && id in x.table && Final(x.table[id].payload)
    ensures PS.ServerInv(PS.PerformAll(x, ops)) && id in PS.PerformAll(x, ops).table
    ensures Final(PS.PerformAll(x, ops).table[id].payload)
    ensures PS.PerformAll(x, ops).table[id].payload.status == x.table[id].payload.status
  {
    hide PS.ServerInv, PS.Perform, Final, Legal, Next, RunInv;
    if ops != [] {
      var init, last := ops[..|ops| - 1], ops[|ops| - 1];
      RowFinalForGood(x, init, id);
      var y := PS.PerformAll(x, init);
      PS.PerformKeeps(y, last);
      PS.RowFacts(y, id);
      var m := PS.Refines(y, last, id);
      FinalStays(PS.TrackedRow(y, id), m);
      RevisionIsNoVerdict(Next(PS.TrackedRow(y, id), m).run, PS.Perform(y, last).table[id].payload);
    }
  }

  lemma RevisionIsNoVerdict(a: RunRecord, b: RunRecord)
    requires PS.SameButRevision(b, a)
    ensures Final(a) == Final(b)
  {
    StatusFrame(a, b);
  }

  ghost predicate RowKeepsStatus(x: PS.Server, ops: seq<Op>, id: RunId)
    requires id in x.table
  {
    && id in PS.PerformAll(x, ops).table
    && PS.PerformAll(x, ops).table[id].payload.status == x.table[id].payload.status
  }

  lemma RowOutcomeIsFinalIff(x: PS.Server, id: RunId)
    requires PS.ServerInv(x) && id in x.table && Terminal(x.table[id].payload.status)
    ensures (forall ops :: RowKeepsStatus(x, ops, id)) <==> Final(x.table[id].payload)
    ensures (forall metrics :: RowKeepsStatus(x, [OpFinish(id, metrics)], id)) <==> Final(x.table[id].payload)
  {
    hide PS.ServerInv, PS.PerformAll, PS.Perform, RunInv, FinishRun, Final, PS.TableInv;
    var run := x.table[id].payload;
    PS.RowFacts(x, id);
    FinalIff(run, ClaimsOf(x.issued, id));
    if Final(run) {
      forall ops ensures RowKeepsStatus(x, ops, id) {
        RowFinalForGood(x, ops, id);
      }
    } else {
      var metrics :| FinishRun(run, metrics).status != run.status;
      FinishRowOnce(x, id, metrics);
      assert !RowKeepsStatus(x, [OpFinish(id, metrics)], id);
    }
  }

  lemma FinishRowOnce(x: PS.Server, id: RunId, metrics: seq<Metric>)
    requires PS.ServerInv(x) && id in x.table
    ensures var y := PS.PerformAll(x, [OpFinish(id, metrics)]);
            id in y.table && y.table[id].payload.status == FinishRun(x.table[id].payload, metrics).status
  {
    hide PS.ServerInv, PS.Perform, FinishRun, PA.Refused, PA.Unwritable;
    var op := OpFinish(id, metrics);
    assert [op][..0] == [];
    assert PS.PerformAll(x, []) == x;
    PA.RefusedExactly(x, op);
    NotRefused(x, op);
    PA.RowWritten(x, op);
  }

  lemma NotRefused(x: PS.Server, op: Op)
    requires OneRun(op)
    requires !PA.Refused(x, op)
    ensures PA.Intended(x, op).Some? ==> !PA.Unwritable(PA.Intended(x, op).value)
  {
    hide PA.Unwritable, PA.Intended;
  }
}
