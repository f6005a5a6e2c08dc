/** What is stored when leases may expire: workers crash, attempts are repeated by others, and still
    every stored success is what the task answered in the attempt that the record names. If the tasks
    answer the same in every attempt the outputs are again those of the in-process executor. */
module StoredAnswers {
  import opened Types
  import opened Workflows
  import opened Evaluation
  import opened Policy
  import opened Transitions
  import opened StepInvariant
  import opened RunInvariant
  import opened RunTheorems
  import opened RunMachine
  import opened Operations
  import opened StepLoop
  import opened Durable
  import opened LoopRefinement
  import opened Scheduler
  import opened Executor
  import opened WholeRuns
  import MS = MemorySystem
  import MT = MemoryTheorems

  /** The answer of the recorded task in the recorded attempt, on the outputs of the dependencies. */
  function AnswerOf(run: RunRecord, oracle: Oracle, s: StepSpec): TaskResult
    requires s.id in run.steps
  {
    var r := run.steps[s.id];
    oracle(s.id, r.task, r.attempts, StepInput(run, s))
  }

  predicate Answered(run: RunRecord, oracle: Oracle, s: StepSpec)
    requires s.id in run.steps
  {
    var r := run.steps[s.id];
    r.status.Succeeded? ==> r.output.Some? && AnswerOf(run, oracle, s) == Ok(r.output.value)
  }

  ghost predicate AllAnswered(run: RunRecord, oracle: Oracle) {
    forall s :: s in run.workflow.steps && s.id in run.steps ==> Answered(run, oracle, s)
  }

  // One move.

  /** A step succeeds only by the completion of a claim of it, and a success stays as it is. */
  lemma SucceedsByCompletion(x: Tracked, m: Move, id: StepId)
    requires Inv(x) && Legal(x, m) && id in Next(x, m).run.steps && Next(x, m).run.steps[id].status.Succeeded?
    ensures id in x.run.steps
    ensures || (x.run.steps[id].status.Succeeded? && Next(x, m).run.steps[id] == x.run.steps[id])
            || (m.Complete? && m.claim.step.id == id && m.completion.status.Succeeded?)
  {
    hide RunInv, CompletionMatches, EventValid, RecoverSteps, SupportsTask, DependenciesDone, EvaluateGates;
    if m.Recover? {
      RecoveredNotSucceeded(x, m, id);
    } else if id in x.run.steps {
      LeaseMeansRunning(x, id);
    }
  }

  lemma RecoveredNotSucceeded(x: Tracked, m: Move, id: StepId)
    requires Inv(x) && Legal(x, m) && m.Recover? && id in Next(x, m).run.steps
    ensures id in x.run.steps
    ensures Next(x, m).run.steps[id].status.Succeeded? ==> Next(x, m).run.steps[id] == x.run.steps[id]
  {
    hide RunInv, RecoverSteps;
    var steps := x.run.workflow.steps;
    assert steps[..|steps|] == steps;
    RecoverPrefix(x.run, x.claims, |steps|, m.last, m.now);
    if id in Ids(steps) {
      var s :| s in steps && s.id == id;
    }
  }

  lemma StepAnswered(x: Tracked, m: Move, oracle: Oracle, s: StepSpec)
    requires Inv(x) && Legal(x, m) && Truthful(m, oracle) && AllAnswered(x.run, oracle)
    requires s in x.run.workflow.steps && s.id in Next(x, m).run.steps
    ensures Answered(Next(x, m).run, oracle, s)
  {
    hide RunInv, Legal, Next, Truthful;
    if Next(x, m).run.steps[s.id].status.Succeeded? {
      SucceedsByCompletion(x, m, s.id);
      StepDone(x, s);
      InputStays(x, m, s);
      assert StepInput(Next(x, m).run, s) == StepInput(x.run, s);
      if m.Complete? && m.claim.step.id == s.id && m.completion.status.Succeeded? {
        CompletedAnswered(x, m, oracle, s);
      } else {
        assert Answered(x.run, oracle, s);
      }
    }
  }

  lemma CompletedAnswered(x: Tracked, m: Move, oracle: Oracle, s: StepSpec)
    requires Inv(x) && Legal(x, m) && Truthful(m, oracle) && m.Complete? && m.claim.step.id == s.id
    requires s in x.run.workflow.steps && s.id in x.run.steps && m.completion.status.Succeeded?
    ensures s.id in Next(x, m).run.steps
    ensures var r := Next(x, m).run.steps[s.id];
            r.output.Some? && oracle(s.id, r.task, r.attempts, StepInput(x.run, s)) == Ok(r.output.value)
  {
    hide RunInv, CompletionMatches, Fresh, CloseAttempt;
    LiveClaim(x, m.claim, s, m.now);
  }

  /** Every truthful move keeps every stored success the task's answer. */
  lemma MoveAnswered(x: Tracked, m: Move, oracle: Oracle)
    requires Inv(x) && Legal(x, m) && Truthful(m, oracle) && AllAnswered(x.run, oracle)
    ensures AllAnswered(Next(x, m).run, oracle)
  {
    hide RunInv, Answered, Legal, Next, Truthful;
    MT.MoveConstants(x, m);
    forall s | s in Next(x, m).run.workflow.steps && s.id in Next(x, m).run.steps
      ensures Answered(Next(x, m).run, oracle, s)
    {
      StepAnswered(x, m, oracle, s);
    }
  }

  // Histories.

  ghost predicate TruthfulHistory(ops: seq<Op>, id: RunId, oracle: Oracle) {
    forall n: nat :: n < |ops| ==> TruthfulOp(ops[n], id, MS.PerformAll(MS.START, ops[..n]).issued, oracle)
  }

  /** In every history whose reports are true, with any interleaving, any clocks and any number of
      expired leases, each stored success is what the task answered in the attempt the record names, on
      the stored outputs of its dependencies. */
  lemma {:induction false} HistoryAnswered(ops: seq<Op>, id: RunId, oracle: Oracle)
    requires TruthfulHistory(ops, id, oracle)
    ensures var x := MS.PerformAll(MS.START, ops);
            && MS.SystemInv(x)
            && (id in x.store.runs ==> Inv(MS.TrackedRun(x, id)) && AllAnswered(x.store.runs[id], oracle))
  {
    hide MS.SystemInv, MS.Perform, RunInv, AllAnswered, TruthfulOp;
    MS.Reachable(ops);
    if ops != [] {
      var n := |ops| - 1;
      var init := ops[..n];
      forall k: nat | k < n ensures init[..k] == ops[..k] {}
      HistoryAnswered(init, id, oracle);
      OpAnswered(MS.PerformAll(MS.START, init), ops[n], id, oracle);
    }
    if id in MS.PerformAll(MS.START, ops).store.runs {
      MT.RunInOrder(MS.PerformAll(MS.START, ops), id);
    }
  }

  lemma OpAnswered(x: MS.System, op: Op, id: RunId, oracle: Oracle)
    requires MS.SystemInv(x) && TruthfulOp(op, id, x.issued, oracle)
    requires id in x.store.runs ==> AllAnswered(x.store.runs[id], oracle)
    ensures id in MS.Perform(x, op).store.runs ==> AllAnswered(MS.Perform(x, op).store.runs[id], oracle)
  {
    hide MS.SystemInv, MS.Perform, RunInv, TruthfulOp, Legal, Next, Truthful, Answered;
    if id in x.store.runs {
      MT.RunInOrder(x, id);
      var m := MS.Refines(x, op, id);
      TruthfulMove(op, id, x.issued, oracle, m);
      MoveAnswered(MS.TrackedRun(x, id), m, oracle);
    } else if id in MS.Perform(x, op).store.runs {
      CreatedEmpty(x, op, id);
    }
  }

  // Tasks that answer the same in every attempt.

  ghost predicate Steady(oracle: Oracle) {
    forall step, task, a, b, input :: oracle(step, task, a, input) == oracle(step, task, b, input)
  }

  /** If the fallback was chosen, the primary task answers an error or the very same output: crashes of
      its workers have not replaced its answer by another. */
  predicate Harmless(run: RunRecord, oracle: Oracle, s: StepSpec)
    requires s.id in run.steps
  {
    var primary := oracle(s.id, s.task, 1, StepInput(run, s));
    run.steps[s.id].fallbackUsed && primary.Ok? ==> run.steps[s.id].output == Some(primary.value)
  }

  ghost predicate FallbacksHarmless(run: RunRecord, oracle: Oracle) {
    forall s :: s in run.workflow.steps && s.id in run.steps ==> Harmless(run, oracle, s)
  }

  /** The loop goes on to the fallback if the primary task fails in every attempt. */
  lemma {:induction false} LoopReachesFallback(site: Site, oracle: Oracle, st: Loop)
    requires Steady(oracle) && site.step.policy.fallbackTask.Some? && st.task == site.step.task
    requires !st.usedFallback && !st.fallbackAttempted && st.attempts < Budget(site.step)
    requires site.step.task in site.tasks && site.step.policy.fallbackTask.value in site.tasks
    requires oracle(site.step.id, site.step.task, 1, site.input).Err?
    requires oracle(site.step.id, site.step.policy.fallbackTask.value, 1, site.input).Ok?
    ensures var r := LoopResult(site, oracle, st).record;
            && r.status.Succeeded?
            && r.output == Some(oracle(site.step.id, site.step.policy.fallbackTask.value, 1, site.input).value)
    decreases Budget(site.step) - st.attempts
  {
    assert oracle(site.step.id, site.step.task, st.attempts + 1, site.input)
        == oracle(site.step.id, site.step.task, 1, site.input);
    var next := LoopTurn(site, oracle, st).next;
    assert LoopResult(site, oracle, st) == LoopResult(site, oracle, next);
    if next.usedFallback {
      assert oracle(site.step.id, next.task, next.attempts + 1, site.input)
          == oracle(site.step.id, next.task, 1, site.input);
      assert LoopTurn(site, oracle, next).Stop?;
    } else {
      LoopReachesFallback(site, oracle, next);
    }
  }

  /** The in-process loop then succeeds with the stored output, exactly in this case. */
  lemma LoopAnswersAlike(x: Tracked, oracle: Oracle, s: StepSpec)
    requires Inv(x) && s in x.run.workflow.steps && s.id in x.run.steps && Answered(x.run, oracle, s)
    requires Steady(oracle) && x.run.steps[s.id].status.Succeeded?
    ensures var r := Expected(Place(x.run, s), oracle);
            r.status.Succeeded? && (r.output == x.run.steps[s.id].output <==> Harmless(x.run, oracle, s))
  {
    hide LogOk, StatusOk, ValidSteps, StepInput, BudgetOk, ViewOk, ClaimsOk, HistoryOk, StepsOk;
    RecordOf(x.run, x.claims, s);
    PlaceEquipped(x, s);
    var site, r := Place(x.run, s), x.run.steps[s.id];
    assert oracle(s.id, r.task, 1, site.input) == oracle(s.id, r.task, r.attempts, site.input);
    if r.fallbackUsed && oracle(s.id, s.task, 1, site.input).Err? {
      LoopReachesFallback(site, oracle, Begin(s));
    } else {
      assert LoopTurn(site, oracle, Begin(s)).Stop?;
    }
  }

  /** The step succeeds in the evaluation of the graph, with the stored output. */
  ghost predicate SameOutput(run: RunRecord, oracle: Oracle, s: StepSpec)
    requires Acyclic(run.workflow.steps) && s.id in run.steps
  {
    var m := Solution(JobOf(run, oracle));
    s.id in m && m[s.id].status.Succeeded? && m[s.id].output == run.steps[s.id].output
  }

  lemma OutputAgrees(x: Tracked, oracle: Oracle, s: StepSpec)
    requires Inv(x) && Acyclic(x.run.workflow.steps) && AllSucceeded(x.run)
    requires AllAnswered(x.run, oracle) && Steady(oracle) && s in x.run.workflow.steps && s.id in x.run.steps
    requires forall t :: t in x.run.workflow.steps && t.id in x.run.steps && t.id in s.dependsOn ==>
               SameOutput(x.run, oracle, t)
    ensures SameOutput(x.run, oracle, s) <==> Harmless(x.run, oracle, s)
  {
    hide RunInv, Solution, Acyclic, Run, Answered, Steady, Harmless;
    var run, job := x.run, JobOf(x.run, oracle);
    var m := Solution(job);
    StepDone(x, s);
    forall d | d in s.dependsOn
      ensures d in m && d in run.steps && m[d].status.Succeeded? && m[d].output == run.steps[d].output
    {
      var t := SpecOf(x, d);
    }
    assert DependencyOutputs(m, s.dependsOn) == DependencyOutputs(run.steps, s.dependsOn);
    assert Solves(job, m);
    assert m[s.id] == ResultOf(job, s, m).record;
    LoopAnswersAlike(x, oracle, s);
  }

  lemma {:induction false} OutputsAgree(x: Tracked, oracle: Oracle, order: seq<StepId>, n: nat)
    requires Inv(x) && AllSucceeded(x.run) && AllAnswered(x.run, oracle)
    requires Steady(oracle) && FallbacksHarmless(x.run, oracle)
    requires TopologicalOrder(x.run.workflow.steps, order) && n <= |order|
    ensures Acyclic(x.run.workflow.steps)
    ensures forall s :: s in x.run.workflow.steps && s.id in x.run.steps && s.id in order[..n] ==>
              SameOutput(x.run, oracle, s)
  {
    hide RunInv, SameOutput, AllAnswered, NoDuplicates, Steady, AllSucceeded, Harmless;
    if n > 0 {
      OutputsAgree(x, oracle, order, n - 1);
      var id := order[n - 1];
      assert order[..n] == order[..n - 1] + [id];
      forall s | s in x.run.workflow.steps && s.id in x.run.steps && s.id in order[..n]
        ensures SameOutput(x.run, oracle, s)
      {
        if s.id == id {
          forall d | d in s.dependsOn ensures d in order[..n - 1] {}
          OutputAgrees(x, oracle, s);
        }
      }
    }
  }

  ghost predicate AllSameOutput(run: RunRecord, oracle: Oracle)
    requires Acyclic(run.workflow.steps)
  {
    forall s :: s in run.workflow.steps && s.id in run.steps ==> SameOutput(run, oracle, s)
  }

  /** If the tasks answer alike in every attempt, a run whose steps all succeeded holds the outputs of
      the recursive evaluation exactly if its fallbacks are harmless. */
  lemma OutputsAgreeIff(x: Tracked, oracle: Oracle)
    requires Inv(x) && AllSucceeded(x.run) && AllAnswered(x.run, oracle) && Steady(oracle)
    ensures Acyclic(x.run.workflow.steps)
    ensures AllSameOutput(x.run, oracle) <==> FallbacksHarmless(x.run, oracle)
  {
    hide StepsOk, LogOk, StatusOk, ManifestCovers, AllAnswered, SameOutput, Steady, AllSucceeded, Harmless;
    var order :| TopologicalOrder(x.run.workflow.steps, order);
    assert order[..|order|] == order;
    if FallbacksHarmless(x.run, oracle) {
      OutputsAgree(x, oracle, order, |order|);
    }
    hide TopologicalOrder;
    if AllSameOutput(x.run, oracle) {
      forall s | s in x.run.workflow.steps && s.id in x.run.steps ensures Harmless(x.run, oracle, s) {
        OutputAgrees(x, oracle, s);
      }
    }
  }

  lemma SameOutputMeansSolved(x: Tracked, oracle: Oracle)
    requires Inv(x) && AllSucceeded(x.run) && Acyclic(x.run.workflow.steps) && AllSameOutput(x.run, oracle)
    ensures var m := Solution(JobOf(x.run, oracle));
            && !Fails(m) && m.Keys == x.run.steps.Keys
            && forall id :: id in m ==> m[id].output == x.run.steps[id].output
  {
    hide RunInv, Solution, Acyclic, AllSucceeded;
    var m := Solution(JobOf(x.run, oracle));
    assert Solves(JobOf(x.run, oracle), m);
    AllRecorded(x);
    forall id | id in x.run.steps
      ensures id in m && m[id].status.Succeeded? && m[id].output == x.run.steps[id].output
    {
      var s := SpecOf(x, id);
      assert SameOutput(x.run, oracle, s);
    }
  }

  /** It then has the verdict, the decisions and the outputs the in-process executor gives the same job. */
  lemma SameOutputRunAgrees(x: Tracked, oracle: Oracle, local: RunRecord)
    requires Inv(x) && AllSucceeded(x.run) && Acyclic(x.run.workflow.steps) && AllSameOutput(x.run, oracle)
    requires x.run.manifest.gates == x.run.workflow.gates && (x.run.status.RunSucceeded? || x.run.status.RunFailed?)
    requires Outcome(JobOf(x.run, oracle), x.run.metrics, local)
    ensures local.status == x.run.status && local.gateDecisions == x.run.gateDecisions
    ensures local.steps.Keys == x.run.steps.Keys
    ensures forall id :: id in local.steps ==> local.steps[id].output == x.run.steps[id].output
  {
    hide StepsOk, LogOk, ManifestCovers, Solution, AllSameOutput, Logged, FailedBy, EvaluateGates, AllPassed,
      AllSucceeded, HasFailed, TopologicalOrder;
    NotBoth(x.run);
    SameOutputMeansSolved(x, oracle);
  }

  /** Hence expired leases do not show in the outputs: in any history with true reports, however many
      workers crash, a run of steady tasks that went through holds the in-process outputs, and gets the
      in-process verdict, exactly unless crashes have replaced a primary answer by another one. */
  lemma ExpiriesAreInvisibleIff(ops: seq<Op>, id: RunId, oracle: Oracle)
    requires TruthfulHistory(ops, id, oracle) && Steady(oracle) && id in MS.PerformAll(MS.START, ops).store.runs
    requires AllSucceeded(MS.PerformAll(MS.START, ops).store.runs[id])
    ensures var run := MS.PerformAll(MS.START, ops).store.runs[id];
            && Acyclic(run.workflow.steps)
            && (AllSameOutput(run, oracle) <==> FallbacksHarmless(run, oracle))
  {
    hide MS.PerformAll, MS.SystemInv, RunInv, AllAnswered, TruthfulHistory, Acyclic, AllSucceeded, Steady,
      AllSameOutput, FallbacksHarmless;
    HistoryAnswered(ops, id, oracle);
    OutputsAgreeIff(MS.TrackedRun(MS.PerformAll(MS.START, ops), id), oracle);
  }

  lemma CrashedWorkersAgreeWithExecutor(ops: seq<Op>, id: RunId, oracle: Oracle, local: RunRecord)
    requires TruthfulHistory(ops, id, oracle) && Steady(oracle) && id in MS.PerformAll(MS.START, ops).store.runs
    requires var run := MS.PerformAll(MS.START, ops).store.runs[id];
             && AllSucceeded(run) && FallbacksHarmless(run, oracle) && run.manifest.gates == run.workflow.gates
             && (run.status.RunSucceeded? || run.status.RunFailed?)
             && Acyclic(run.workflow.steps) && Outcome(JobOf(run, oracle), run.metrics, local)
    ensures var run := MS.PerformAll(MS.START, ops).store.runs[id];
            && local.status == run.status && local.gateDecisions == run.gateDecisions
            && local.steps.Keys == run.steps.Keys
            && forall step :: step in run.steps ==> local.steps[step].output == run.steps[step].output
  {
    hide MS.PerformAll, MS.SystemInv, RunInv, AllAnswered, TruthfulHistory, Acyclic, Outcome, AllSucceeded, Steady,
      AllSameOutput, FallbacksHarmless;
    ExpiriesAreInvisibleIff(ops, id, oracle);
    HistoryAnswered(ops, id, oracle);
    SameOutputRunAgrees(MS.TrackedRun(MS.PerformAll(MS.START, ops), id), oracle, local);
  }
}
