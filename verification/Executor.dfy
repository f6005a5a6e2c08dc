/** `execute_with_metrics` of the process-local executor (src/runtime.rs). */
module Executor {
  import opened Types
  import opened Workflows
  import opened Policy
  import opened Evaluation
  import opened Transitions
  import opened StepLoop
  import opened Durable
  import opened Scheduler

  ghost predicate Served(worker: WorkerProfile, registry: Registry, s: StepSpec) {
    && Registered(registry, s) && registry[s.task].id == s.task
    && Able(worker, s, registry[s.task])
    && (s.policy.fallbackTask.Some? ==> Able(worker, s, registry[s.policy.fallbackTask.value]))
  }

  predicate PrimaryServed(worker: WorkerProfile, registry: Registry, s: StepSpec) {
    s.task in registry && Able(worker, s, registry[s.task]) && registry[s.task].id == s.task
  }

  /** Why a step is not served: first the worker's resources count, then the primary task, then the
      fallback. */
  ghost predicate TrueReason(worker: WorkerProfile, registry: Registry, s: StepSpec, error: WorkflowError) {
    var fallback := s.policy.fallbackTask;
    match error
    case UnregisteredTask(t) =>
      Equips(worker, s) && t !in registry
      && (t == s.task || (PrimaryServed(worker, registry, s) && fallback == Some(t)))
    case TaskIdMismatch(step, t) =>
      step == s.id && t == s.task && t in registry && Able(worker, s, registry[t]) && registry[t].id != t
    case UnsatisfiedPolicy(step) =>
      step == s.id
      && (|| !Equips(worker, s)
          || (s.task in registry && !Able(worker, s, registry[s.task]))
          || (&& PrimaryServed(worker, registry, s) && fallback.Some? && fallback.value in registry
              && !Able(worker, s, registry[fallback.value])))
    case _ => false
  }

  /** The error is about the first step that is not served. */
  ghost predicate FirstUnserved(worker: WorkerProfile, steps: seq<StepSpec>, registry: Registry, error: WorkflowError)
  {
    exists i :: && 0 <= i < |steps| && !Served(worker, registry, steps[i])
                && TrueReason(worker, registry, steps[i], error)
                && forall j :: 0 <= j < i ==> Served(worker, registry, steps[j])
  }

  /** The first step the worker or the registry cannot serve, and why. */
  function ValidateTasks(worker: WorkerProfile, steps: seq<StepSpec>, registry: Registry): (r: Option<WorkflowError>)
    ensures r.None? <==> forall s :: s in steps ==> Served(worker, registry, s)
    ensures r.Some? ==> FirstUnserved(worker, steps, registry, r.value)
  {
    if steps == [] then None
    else
      var s := steps[0];
      assert s in steps;
      if !Supports(worker, s.policy) then Some(UnsatisfiedPolicy(s.id))
      else if s.task !in registry then Some(UnregisteredTask(s.task))
      else if !SupportsTask(worker, registry[s.task], s.policy) then Some(UnsatisfiedPolicy(s.id))
      else if registry[s.task].id != s.task then Some(TaskIdMismatch(s.id, s.task))
      else if s.policy.fallbackTask.Some? && s.policy.fallbackTask.value !in registry then
        Some(UnregisteredTask(s.policy.fallbackTask.value))
      else if s.policy.fallbackTask.Some? && !SupportsTask(worker, registry[s.policy.fallbackTask.value], s.policy) then
        Some(UnsatisfiedPolicy(s.id))
      else ValidateTasks(worker, steps[1..], registry)
  }

  lemma {:induction false} ReadyDistinct(steps: seq<StepSpec>, records: Records)
    requires DistinctIds(steps)
    ensures DistinctIds(ReadySteps(steps, records))
  {
    if steps != [] {
      ReadyDistinct(steps[1..], records);
      var rest := ReadySteps(steps[1..], records);
      forall i | 0 <= i < |rest| ensures rest[i].id != steps[0].id {
        assert rest[i] in rest;
      }
    }
  }

  lemma ReadyIsChunk(job: Job, records: Records)
    requires Acyclic(job.workflow.steps)
    ensures Chunk(job, records, ReadySteps(job.workflow.steps, records))
  {
    hide DependenciesDone;
    var order :| TopologicalOrder(job.workflow.steps, order);
    OrderImpliesDistinct(job.workflow.steps, order);
    ReadyDistinct(job.workflow.steps, records);
  }

  lemma SliceIsChunk(job: Job, before: Records, after: Records, ready: seq<StepSpec>, i: nat, n: nat)
    requires Chunk(job, before, ready) && i + n <= |ready| && PartOf(before, after)
    requires after.Keys == before.Keys + Ids(ready[..i])
    ensures Chunk(job, after, ready[i..i + n])
  {
    forall s | s in ready[i..i + n] ensures s in ready && s.id !in after {
      var k :| i <= k < i + n && ready[k] == s;
      assert s.id !in Ids(ready[..i]);
    }
  }

  /** The order of the record map: character by character, a prefix first. */
  predicate AtMostId(a: StepId, b: StepId) {
    a == "" || (b != "" && (a[0] < b[0] || (a[0] == b[0] && AtMostId(a[1..], b[1..]))))
  }

  lemma {:induction false} IdsAreOrdered(a: StepId, b: StepId, c: StepId)
    ensures AtMostId(a, a)
    ensures AtMostId(a, b) || AtMostId(b, a)
    ensures AtMostId(a, b) && AtMostId(b, c) ==> AtMostId(a, c)
  {
    if a != "" {
      IdsAreOrdered(a[1..], if b == "" then "" else b[1..], if c == "" then "" else c[1..]);
    }
  }

  /** Up to some point both read the same; there the first one ends or has the smaller character. */
  lemma {:induction false} AtMostIff(a: StepId, b: StepId)
    ensures AtMostId(a, b) <==>
            exists k: nat :: k <= |a| && k <= |b| && a[..k] == b[..k] && (k == |a| || (k < |b| && a[k] < b[k]))
  {
    if a == "" {
      assert a[..0] == b[..0];
    } else if b != "" && a[0] == b[0] {
      AtMostIff(a[1..], b[1..]);
      if AtMostId(a, b) {
        var k: nat :| k <= |a[1..]| && k <= |b[1..]| && a[1..][..k] == b[1..][..k]
                      && (k == |a[1..]| || (k < |b[1..]| && a[1..][k] < b[1..][k]));
        assert a[..k + 1] == [a[0]] + a[1..][..k] && b[..k + 1] == [b[0]] + b[1..][..k];
      } else {
        forall k: nat | 0 < k <= |a| && k <= |b| && a[..k] == b[..k] ensures k < |a| && !(k < |b| && a[k] < b[k]) {
          assert a[..k][1..] == a[1..][..k - 1] && b[..k][1..] == b[1..][..k - 1];
        }
        assert a[..0] == b[..0];
      }
    } else if b != "" && a[0] < b[0] {
      assert a[..0] == b[..0];
    } else {
      forall k: nat | 0 < k <= |a| && k <= |b| ensures a[..k] != b[..k] {
        assert a[..k][0] == a[0] && b[..k][0] == b[0];
      }
    }
  }

  /** Id names the first failed step in the order of ids. */
  predicate FirstFailed(records: Records, id: StepId) {
    && id in records && records[id].status.Failed?
    && forall other <- records :: records[other].status.Failed? ==> AtMostId(id, other)
  }

  /** The run carries the error of its first failed step. */
  ghost predicate FailedBy(run: RunRecord, records: Records) {
    exists id :: FirstFailed(records, id) && records[id].error.Some? && run.error == records[id].error
  }

  lemma ErrorsAreFailures(job: Job, records: Records)
    requires Acyclic(job.workflow.steps) && PartOf(records, Solution(job))
    ensures forall id :: id in records ==> (records[id].status.Failed? <==> records[id].error.Some?)
  {
    hide Solution, Acyclic;
    forall id | id in records ensures records[id].status.Failed? <==> records[id].error.Some? {
      SolutionEnds(job, id);
    }
  }

  /** The first recorded error in the order of ids; all of them come from failed steps. */
  method PickError(job: Job, run: RunRecord) returns (error: Option<string>)
    requires Acyclic(job.workflow.steps) && PartOf(run.steps, Solution(job)) && Fails(run.steps)
    ensures FailedBy(run.(error := error), run.steps)
  {
    hide Solution, Acyclic, AtMostId, PartOf;
    ErrorsAreFailures(job, run.steps);
    var first :| first in run.steps && run.steps[first].error.Some?;
    IdsAreOrdered(first, first, first);
    var todo := run.steps.Keys - {first};
    while todo != {}
      invariant todo <= run.steps.Keys && first in run.steps && run.steps[first].error.Some?
      invariant forall id :: id in run.steps && id !in todo && run.steps[id].error.Some? ==> AtMostId(first, id)
    {
      var id :| id in todo;
      todo := todo - {id};
      IdsAreOrdered(id, first, first);
      if run.steps[id].error.Some? && AtMostId(id, first) {
        forall other | other in run.steps && other !in todo && run.steps[other].error.Some?
          ensures AtMostId(id, other)
        {
          IdsAreOrdered(id, first, other);
        }
        first := id;
      }
    }
    assert FirstFailed(run.steps, first);
    error := run.steps[first].error;
  }

  /** A chunk inserted after the first steps. */
  lemma InsertedChunk(job: Job, run: RunRecord, ready: seq<StepSpec>, a: RunRecord, i: nat, b: RunRecord, n: nat)
    requires Acyclic(job.workflow.steps) && i + n <= |ready|
    requires Inserted(job, run, ready, a, i) && Inserted(job, a, ready[i..i + n], b, n)
    ensures Inserted(job, run, ready, b, i + n)
  {
    hide Solution, Acyclic, Logged, Ids, ResultOf;
    assert ready[i..i + n][..n] == ready[i..i + n];
    assert ready[..i + n] == ready[..i] + ready[i..i + n];
    IdsConcat(ready, i, n);
    EventsConcat(job, ready[..i], ready[i..i + n]);
    PartTrans(run.steps, a.steps, b.steps);
  }

  lemma InsertedFrame(job: Job, run: RunRecord, chunk: seq<StepSpec>, r: RunRecord, n: nat)
    requires Acyclic(job.workflow.steps) && n <= |chunk| && Inserted(job, run, chunk, r, n)
    ensures SameRun(run, r) && Logged(job, r) && PartOf(run.steps, r.steps)
    ensures r.steps.Keys == run.steps.Keys + Ids(chunk[..n]) && r.error == run.error && r.status == run.status
  {
  }

  /** The first n ready steps were run, one after the other; all of them, or up to the end of the chunk
      in which the first one failed. */
  ghost predicate RanReady(job: Job, run: RunRecord, ready: seq<StepSpec>, r: RunRecord, n: nat, maxParallel: nat)
    requires Acyclic(job.workflow.steps) && n <= |ready|
  {
    && Inserted(job, run, ready, r.(status := run.status, error := run.error), n)
    && (r.status.RunRunning? ==> n == |ready| && !Fails(r.steps) && r.error == run.error)
    && (!r.status.RunRunning? ==>
          && r.status.RunFailed? && Fails(r.steps) && FailedBy(r, r.steps)
          && (forall k :: 0 <= k < n - maxParallel && ready[k].id in r.steps ==>
                !r.steps[ready[k].id].status.Failed?)
          && (forall id :: id in run.steps && id in r.steps ==> !r.steps[id].status.Failed?))
  }

  /** Runs all ready steps in chunks, stopping after a chunk with a failure. */
  method RunReady(job: Job, run: RunRecord, ready: seq<StepSpec>, maxParallel: nat)
    returns (r: RunRecord, ghost n: nat)
    requires maxParallel >= 1 && Acyclic(job.workflow.steps) && Runs(job, run) && Logged(job, run)
    requires Chunk(job, run.steps, ready) && run.status.RunRunning? && !Fails(run.steps)
    ensures n <= |ready| && RanReady(job, run, ready, r, n, maxParallel)
  {
    hide Solution, Acyclic, Logged, Chunk, Ids, Fails, PartOf, FailedBy, Inserted, RanReady, SameRun;
    r := run;
    var i := 0;
    NothingInserted(job, run, ready);
    while i < |ready|
      invariant 0 <= i <= |ready|
      invariant Inserted(job, run, ready, r, i) && r.status.RunRunning? && !Fails(r.steps)
    {
      var size := Min(maxParallel, |ready| - i);
      var chunk := ready[i..i + size];
      InsertedFrame(job, run, ready, r, i);
      SameRunRuns(job, run, r);
      SliceIsChunk(job, run.steps, r.steps, ready, i, size);
      ghost var before := r;
      r := RunChunk(job, r, chunk);
      InsertedChunk(job, run, ready, before, i, r, size);
      InsertedFrame(job, run, ready, r, i + size);
      if Fails(r.steps) {
        LoggedPart(job, r);
        var error := PickError(job, r);
        ghost var ran := r;
        FailedByFrame(r.(error := error), r.steps);
        r := r.(status := RunFailed, error := error);
        n := i + size;
        InsertedFrame(job, before, chunk, ran, size);
        StoppedAt(job, run, ready, before, i, ran, r, size, maxParallel);
        return;
      }
      i := i + size;
    }
    n := i;
    RanAll(job, run, ready, r, maxParallel);
  }

  lemma SameRunRuns(job: Job, a: RunRecord, b: RunRecord)
    requires Runs(job, a) && SameRun(a, b)
    ensures Runs(job, b)
  {
  }

  lemma RanAll(job: Job, run: RunRecord, ready: seq<StepSpec>, r: RunRecord, maxParallel: nat)
    requires Acyclic(job.workflow.steps) && Inserted(job, run, ready, r, |ready|)
    requires run.status.RunRunning? && !Fails(r.steps)
    ensures RanReady(job, run, ready, r, |ready|, maxParallel)
  {
    hide Solution, Acyclic, Logged, ResultOf, Ids;
    assert r.(status := run.status, error := run.error) == r;
  }

  lemma StoppedAt(job: Job, run: RunRecord, ready: seq<StepSpec>, before: RunRecord, i: nat, ran: RunRecord,
                  r: RunRecord, size: nat, maxParallel: nat)
    requires Acyclic(job.workflow.steps) && i + size <= |ready| && size <= maxParallel
    requires Inserted(job, run, ready, before, i) && !Fails(before.steps) && Inserted(job, run, ready, ran, i + size)
    requires PartOf(before.steps, ran.steps) && Fails(ran.steps)
    requires r == ran.(status := RunFailed, error := r.error) && FailedBy(r, ran.steps)
    ensures RanReady(job, run, ready, r, i + size, maxParallel)
  {
    hide Solution, Acyclic, Logged, ResultOf, FailedBy;
    assert r.(status := run.status, error := run.error) == ran;
    forall id | id in before.steps ensures id in r.steps && !r.steps[id].status.Failed? {
      assert before.steps[id] == ran.steps[id];
    }
    forall k | 0 <= k < i ensures ready[k].id in before.steps {
      assert ready[..i][k] == ready[k] && ready[k] in ready[..i];
    }
  }

  lemma NoIds()
    ensures Ids([]) == {}
  {
  }

  lemma SelfPart(a: Records)
    ensures PartOf(a, a)
  {
  }

  lemma PartTrans(a: Records, b: Records, c: Records)
    requires PartOf(a, b) && PartOf(b, c)
    ensures PartOf(a, c)
  {
  }

  lemma IdsConcat(ready: seq<StepSpec>, i: nat, n: nat)
    requires i + n <= |ready|
    ensures Ids(ready[..i + n]) == Ids(ready[..i]) + Ids(ready[i..i + n])
  {
    assert ready[..i + n] == ready[..i] + ready[i..i + n];
  }

  lemma LoggedStatus(job: Job, a: RunRecord, b: RunRecord)
    requires Acyclic(job.workflow.steps) && a.steps == b.steps && a.events == b.events
    ensures Logged(job, a) == Logged(job, b)
  {
    hide Solution, Acyclic, OfStep, ResultOf;
  }

  lemma FailedByFrame(run: RunRecord, records: Records)
    ensures forall r: RunRecord :: r.error == run.error ==> FailedBy(r, records) == FailedBy(run, records)
  {
  }

  /** What the run holds when the loop over ready steps is done: the first steps of the rounds were run,
      in their order, all of them or up to the end of the chunk with the first failure. */
  ghost predicate Evaluated(job: Job, run: RunRecord)
    requires Acyclic(job.workflow.steps)
  {
    && Logged(job, run)
    && (run.status.RunFailed? ==> Fails(run.steps) && FailedBy(run, run.steps))
    && (run.status.RunRunning? ==>
          run.steps == Solution(job) && run.steps.Keys == Ids(job.workflow.steps) && !Fails(run.steps))
    && (run.status.RunFailed? || run.status.RunRunning?)
  }

  /** So many steps of the rounds were run, and their events stand in this order after the given ones. */
  ghost predicate InRounds(job: Job, run: RunRecord, before: seq<Event>, ran: seq<StepSpec>)
    requires Acyclic(job.workflow.steps)
  {
    && ran <= Rounds(job.workflow.steps, {})
    && run.steps.Keys == Ids(ran) && |run.steps| == |ran|
    && run.events == before + EventsOf(job, ran)
  }

  /** No step before the last few has failed. */
  predicate LateFailure(run: RunRecord, ran: seq<StepSpec>, last: nat) {
    forall k :: 0 <= k < |ran| - last && ran[k].id in run.steps ==> !run.steps[ran[k].id].status.Failed?
  }

  /** The rounds so far and those still to come make up all of them. */
  ghost predicate Upcoming(job: Job, run: RunRecord, before: seq<Event>, ran: seq<StepSpec>)
    requires Acyclic(job.workflow.steps)
  {
    && Rounds(job.workflow.steps, {}) == ran + Rounds(job.workflow.steps, run.steps.Keys)
    && run.steps.Keys == Ids(ran) && |run.steps| == |ran|
    && run.events == before + EventsOf(job, ran)
  }

  /** The scheduling loop; it always finds a ready step until all have run or one failed. */
  method Schedule(job: Job, run: RunRecord, maxParallel: nat) returns (r: RunRecord, ghost ran: seq<StepSpec>)
    requires maxParallel >= 1 && ValidSteps(job.workflow.steps) && Runs(job, run)
    requires run.status.RunRunning? && run.steps == map[] && Logged(job, run)
    ensures SameRun(run, r) && Evaluated(job, r)
    ensures r.status.RunRunning? ==> r.error == run.error
    ensures InRounds(job, r, run.events, ran) && LateFailure(r, ran, maxParallel)
  {
    hide Solution, Acyclic, Logged, Ids, Fails, Chunk, FailedBy, Upcoming, InRounds, LateFailure, RanReady, SameRun;
    r, ran := run, [];
    NothingFails();
    NoRounds(job, run);
    while |r.steps| < |job.workflow.steps|
      invariant SameRun(run, r) && Logged(job, r) && r.status.RunRunning? && !Fails(r.steps)
      invariant r.error == run.error && Upcoming(job, r, run.events, ran)
      decreases |job.workflow.steps| - |r.steps|
    {
      var ready := ReadySteps(job.workflow.steps, r.steps);
      LoggedPart(job, r);
      ProgressPossible(job, r.steps);
      ReadyIsChunk(job, r.steps);
      SameRunRuns(job, run, r);
      ghost var before, n := r, 0;
      r, n := RunReady(job, r, ready, maxParallel);
      RanFacts(job, run, before, ready, r, n, maxParallel);
      ghost var earlier := ran;
      ran := ran + ready[..n];
      if r.status.RunFailed? {
        RoundCutShort(job, before, run.events, earlier, ready, r, n, maxParallel);
        return;
      }
      MoreRecords(job, before.steps, r.steps, ready);
      NextRound(job, before, run.events, earlier, ready, r, maxParallel);
    }
    CompleteIsSolution(job, r);
    RoundsOver(job, r, run.events, ran, maxParallel);
  }

  lemma NoRounds(job: Job, run: RunRecord)
    requires Acyclic(job.workflow.steps) && run.steps == map[]
    ensures Upcoming(job, run, run.events, []) && SameRun(run, run)
  {
    hide Acyclic, ResultOf, Solution;
    assert [] + Rounds(job.workflow.steps, {}) == Rounds(job.workflow.steps, {});
    assert run.steps.Keys == {} && Ids([]) == {};
  }

  lemma RanFacts(job: Job, start: RunRecord, run: RunRecord, ready: seq<StepSpec>, r: RunRecord, n: nat,
                 maxParallel: nat)
    requires Acyclic(job.workflow.steps) && n <= |ready| && RanReady(job, run, ready, r, n, maxParallel)
    requires run.status.RunRunning? && SameRun(start, run)
    ensures SameRun(start, r) && Logged(job, r)
    ensures r.status.RunRunning? || (r.status.RunFailed? && Fails(r.steps) && FailedBy(r, r.steps))
    ensures r.status.RunRunning? ==>
              n == |ready| && !Fails(r.steps) && r.error == run.error && r.steps.Keys == run.steps.Keys + Ids(ready)
  {
    hide Solution, Acyclic, Logged, ResultOf, Ids, FailedBy, Fails;
    LoggedStatus(job, r.(status := run.status, error := run.error), r);
    assert ready[..|ready|] == ready;
  }

  /** In a run without failures the ready steps are those of the next round. */
  lemma ReadyIsRound(job: Job, run: RunRecord)
    requires Acyclic(job.workflow.steps) && PartOf(run.steps, Solution(job)) && !Fails(run.steps)
    ensures ReadySteps(job.workflow.steps, run.steps) == ReadyAfter(job.workflow.steps, run.steps.Keys)
  {
    hide Acyclic, Solution;
    forall id | id in run.steps ensures run.steps[id].status.Succeeded? {
      SolutionEnds(job, id);
    }
    ReadyAgrees(job.workflow.steps, run.steps);
  }

  lemma IdsAppend(a: seq<StepSpec>, b: seq<StepSpec>)
    ensures Ids(a + b) == Ids(a) + Ids(b)
  {
    forall id | id in Ids(a) + Ids(b) ensures id in Ids(a + b) {
      var s :| (s in a || s in b) && s.id == id;
      assert s in a + b;
    }
  }

  lemma DisjointCount(a: set<StepId>, b: set<StepId>)
    requires a !! b
    ensures |a + b| == |a| + |b|
  {
  }

  /** What running part of the ready steps adds. */
  lemma RanKeys(job: Job, run: RunRecord, ready: seq<StepSpec>, r: RunRecord, n: nat, maxParallel: nat)
    requires Acyclic(job.workflow.steps) && Chunk(job, run.steps, ready)
    requires n <= |ready| && RanReady(job, run, ready, r, n, maxParallel)
    ensures r.steps.Keys == run.steps.Keys + Ids(ready[..n]) && |r.steps| == |run.steps| + n
    ensures r.events == run.events + EventsOf(job, ready[..n])
  {
    hide Acyclic, Solution, ResultOf, Logged, FailedBy, Fails, DependenciesDone, EventsOf, OfStep;
    IdCount(ready[..n]);
    forall s | s in ready[..n] ensures s.id !in run.steps {
      assert s in ready;
    }
    DisjointCount(run.steps.Keys, Ids(ready[..n]));
  }

  lemma RoundAdds(job: Job, run: RunRecord, before: seq<Event>, ran: seq<StepSpec>, more: seq<StepSpec>, r: RunRecord)
    requires Acyclic(job.workflow.steps) && Upcoming(job, run, before, ran)
    requires r.steps.Keys == run.steps.Keys + Ids(more) && |r.steps| == |run.steps| + |more|
    requires r.events == run.events + EventsOf(job, more)
    ensures r.steps.Keys == Ids(ran + more) && |r.steps| == |ran + more|
    ensures r.events == before + EventsOf(job, ran + more)
  {
    hide Acyclic, Solution, ResultOf, Rounds, EventsOf, Ids;
    IdsAppend(ran, more);
    EventsAppend(job, before, ran, more);
  }

  lemma EventsAppend(job: Job, before: seq<Event>, ran: seq<StepSpec>, more: seq<StepSpec>)
    requires Acyclic(job.workflow.steps)
    ensures before + EventsOf(job, ran) + EventsOf(job, more) == before + EventsOf(job, ran + more)
  {
    hide Acyclic, EventsOf;
    EventsConcat(job, ran, more);
  }

  lemma CutAt(a: seq<StepSpec>, b: seq<StepSpec>, n: nat, c: seq<StepSpec>)
    requires n <= |b|
    ensures a + b[..n] <= a + (b + c)
  {
  }

  lemma RoundsUnfold(steps: seq<StepSpec>, done: set<StepId>)
    ensures var ready := ReadyAfter(steps, done);
            Rounds(steps, done) == if ready == [] then [] else ready + Rounds(steps, done + Ids(ready))
  {
  }

  lemma NextRound(job: Job, run: RunRecord, before: seq<Event>, ran: seq<StepSpec>, ready: seq<StepSpec>,
                  r: RunRecord, maxParallel: nat)
    requires Acyclic(job.workflow.steps) && Upcoming(job, run, before, ran)
    requires ready == ReadySteps(job.workflow.steps, run.steps) && ready != [] && Chunk(job, run.steps, ready)
    requires PartOf(run.steps, Solution(job)) && !Fails(run.steps)
    requires RanReady(job, run, ready, r, |ready|, maxParallel)
    ensures Upcoming(job, r, before, ran + ready[..|ready|])
  {
    hide Acyclic, Solution, ResultOf, Fails, Chunk, RanReady, Rounds, ReadyAfter, EventsOf, Ids, ReadySteps, PartOf;
    assert ready[..|ready|] == ready;
    ReadyIsRound(job, run);
    RoundsUnfold(job.workflow.steps, run.steps.Keys);
    RanKeys(job, run, ready, r, |ready|, maxParallel);
    RoundAdds(job, run, before, ran, ready, r);
    var rest := Rounds(job.workflow.steps, run.steps.Keys + Ids(ready));
    assert ran + (ready + rest) == ran + ready + rest;
  }

  lemma RoundCutShort(job: Job, run: RunRecord, before: seq<Event>, ran: seq<StepSpec>, ready: seq<StepSpec>,
                      r: RunRecord, n: nat, maxParallel: nat)
    requires Acyclic(job.workflow.steps) && Upcoming(job, run, before, ran)
    requires ready == ReadySteps(job.workflow.steps, run.steps) && ready != [] && Chunk(job, run.steps, ready)
    requires PartOf(run.steps, Solution(job)) && !Fails(run.steps)
    requires n <= |ready| && RanReady(job, run, ready, r, n, maxParallel) && r.status.RunFailed?
    ensures InRounds(job, r, before, ran + ready[..n]) && LateFailure(r, ran + ready[..n], maxParallel)
  {
    hide Acyclic, Solution, ResultOf, Fails, Chunk, RanReady, Rounds, ReadyAfter, EventsOf, Ids, ReadySteps, PartOf,
      LateFailure;
    ReadyIsRound(job, run);
    RoundsUnfold(job.workflow.steps, run.steps.Keys);
    RanKeys(job, run, ready, r, n, maxParallel);
    RoundAdds(job, run, before, ran, ready[..n], r);
    var rest := Rounds(job.workflow.steps, run.steps.Keys + Ids(ready));
    CutAt(ran, ready, n, rest);
    FailureIsLate(job, run, ran, ready, r, n, maxParallel);
  }

  lemma FailureIsLate(job: Job, run: RunRecord, ran: seq<StepSpec>, ready: seq<StepSpec>, r: RunRecord, n: nat,
                      maxParallel: nat)
    requires Acyclic(job.workflow.steps) && run.steps.Keys == Ids(ran)
    requires n <= |ready| && RanReady(job, run, ready, r, n, maxParallel) && r.status.RunFailed?
    ensures LateFailure(r, ran + ready[..n], maxParallel)
  {
    hide Acyclic, Solution, ResultOf, Inserted, FailedBy, Fails;
    var all := ran + ready[..n];
    forall k | 0 <= k < |all| - maxParallel && all[k].id in r.steps ensures !r.steps[all[k].id].status.Failed? {
      if k < |ran| {
        assert ran[k] in ran && ran[k].id in Ids(ran);
      } else {
        assert all[k] == ready[k - |ran|];
      }
    }
  }

  lemma {:induction false} NothingReady(steps: seq<StepSpec>, done: set<StepId>)
    requires forall s :: s in steps ==> s.id in done
    ensures ReadyAfter(steps, done) == []
  {
    if steps != [] {
      assert steps[0] in steps;
      NothingReady(steps[1..], done);
    }
  }

  lemma RoundsOver(job: Job, run: RunRecord, before: seq<Event>, ran: seq<StepSpec>, last: nat)
    requires Acyclic(job.workflow.steps) && Upcoming(job, run, before, ran)
    requires run.steps.Keys == Ids(job.workflow.steps) && !Fails(run.steps)
    ensures InRounds(job, run, before, ran) && LateFailure(run, ran, last)
    ensures ran == Rounds(job.workflow.steps, {})
  {
    hide Acyclic, Solution, ResultOf, EventsOf;
    var steps := job.workflow.steps;
    forall s | s in steps ensures s.id in run.steps.Keys {}
    NothingReady(steps, run.steps.Keys);
    assert ran + [] == ran;
  }

  lemma NothingFails()
    ensures !Fails(map[])
  {
  }

  lemma MoreRecords(job: Job, before: Records, after: Records, ready: seq<StepSpec>)
    requires Chunk(job, before, ready) && ready != [] && after.Keys == before.Keys + Ids(ready)
    ensures |after| > |before|
  {
    assert ready[0] in ready;
    SubsetCount(before.Keys + {ready[0].id}, after.Keys);
  }

  lemma CompleteIsSolution(job: Job, run: RunRecord)
    requires Acyclic(job.workflow.steps) && Logged(job, run) && |run.steps| >= |job.workflow.steps|
    ensures run.steps == Solution(job) && run.steps.Keys == Ids(job.workflow.steps)
  {
    hide Acyclic, OfStep, ResultOf, Solution, DependenciesDone;
    var m := Solution(job);
    assert Solves(job, m);
    IdCount(job.workflow.steps);
    SubsetCount(run.steps.Keys, m.Keys);
    SubsetCount(m.Keys, Ids(job.workflow.steps));
  }

  /** What a caller gets, in terms of the recursive evaluation and the gates alone. */
  ghost predicate Outcome(job: Job, metrics: seq<Metric>, run: RunRecord)
    requires Acyclic(job.workflow.steps)
  {
    var m, decisions := Solution(job), EvaluateGates(job.workflow.gates, metrics);
    && Logged(job, run) && Computed(job, run.steps, m)
    && (Fails(m) ==> run.status.RunFailed? && Fails(run.steps) && FailedBy(run, run.steps))
    && (!Fails(m) ==>
          && run.steps == m && run.steps.Keys == Ids(job.workflow.steps)
          && run.status == (if AllPassed(decisions) then RunSucceeded else RunFailed)
          && run.error == (if AllPassed(decisions) then None else Some(GATES_FAILED)))
    && run.metrics == metrics && run.gateDecisions == decisions
    && Narrated(job, run)
  }

  /** The log tells the start, the steps that were run, round by round and in workflow order within a
      round, one after the other, and the finish; nothing else. */
  ghost predicate Narrated(job: Job, run: RunRecord)
    requires Acyclic(job.workflow.steps)
  {
    var order, n := Rounds(job.workflow.steps, {}), |run.steps|;
    && n <= |order| && run.steps.Keys == Ids(order[..n])
    && run.events == [RunStarted(job.run, job.workflow.id)] + EventsOf(job, order[..n])
                     + [RunFinished(job.run, run.status)]
  }

  lemma RoundsNarrate(job: Job, run: RunRecord, ran: seq<StepSpec>, done: RunRecord)
    requires Acyclic(job.workflow.steps)
    requires InRounds(job, run, [RunStarted(job.run, job.workflow.id)], ran)
    requires done.steps == run.steps && done.events == run.events + [RunFinished(job.run, done.status)]
    ensures Narrated(job, done) && ran == Rounds(job.workflow.steps, {})[..|done.steps|]
  {
    hide Acyclic, EventsOf, Rounds;
  }

  lemma PartFails(a: Records, b: Records)
    requires PartOf(a, b) && Fails(a)
    ensures Fails(b)
  {
  }

  lemma QuietEvent(job: Job, a: RunRecord, b: RunRecord, e: Event)
    requires Acyclic(job.workflow.steps) && Logged(job, a) && b.steps == a.steps && b.events == a.events + [e]
    requires e.RunStarted? || e.RunFinished?
    ensures Logged(job, b)
  {
    hide Solution, Acyclic, ResultOf;
    forall s | s in job.workflow.steps ensures OfStep(b.events, s.id) == OfStep(a.events, s.id) {
      assert b.events[..|a.events|] == a.events;
    }
  }

  lemma NothingLogged(job: Job, run: RunRecord)
    requires Acyclic(job.workflow.steps) && run.steps == map[] && run.events == []
    ensures Logged(job, run)
  {
  }

  /** Runs a workflow to its end. The result does not depend on how many steps run in parallel: it is
      the recursive evaluation of the graph judged by the gates, or, if a step of that evaluation
      fails, a failed run holding part of it. */
  method ExecuteWithMetrics(job: Job, worker: WorkerProfile, metrics: seq<Metric>, parallel: nat)
    returns (r: Result<RunRecord, WorkflowError>)
    ensures r.Ok? <==> ValidSteps(job.workflow.steps)
                       && forall s :: s in job.workflow.steps ==> Served(worker, job.registry, s)
    ensures r.Err? && ValidSteps(job.workflow.steps) ==>
              ValidateTasks(worker, job.workflow.steps, job.registry) == Some(r.error)
    ensures r.Err? && !ValidSteps(job.workflow.steps) ==>
              r.error.Empty? || r.error.UnknownDependency? || r.error.DependencyCycle?
    ensures r.Ok? ==>
              && Acyclic(job.workflow.steps) && Outcome(job, metrics, r.value)
              && LateFailure(r.value, Rounds(job.workflow.steps, {})[..|r.value.steps|], Max(parallel, 1))
  {
    hide Solution, Acyclic, Logged, Ids, Fails, FailedBy, ValidateTasks, Computed, Solves, PartOf, InRounds, Narrated,
      Rounds, LateFailure;
    var maxParallel := Max(parallel, 1);
    var checked, underflow := Validate(job.workflow.steps);
    if checked.Err? {
      return Err(checked.error);
    }
    var refused := ValidateTasks(worker, job.workflow.steps, job.registry);
    if refused.Some? {
      return Err(refused.value);
    }
    TasksAreRegistered(worker, job.workflow.steps, job.registry);
    var manifest := BuildManifest(job.workflow, job.registry);
    assert manifest.Ok?;  // every task was just found
    var initial := RunRecord(job.run, job.workflow, manifest.value, job.input, RunRunning,
                           map[], [], [], [], map[], None, None, 0);
    NothingLogged(job, initial);
    var run := EmitAll(initial, [RunStarted(job.run, job.workflow.id)]);
    QuietEvent(job, initial, run, RunStarted(job.run, job.workflow.id));
    assert run.events == [RunStarted(job.run, job.workflow.id)];
    ghost var ran;
    run, ran := Schedule(job, run, maxParallel);
    var judged := run.(metrics := metrics, gateDecisions := EvaluateGates(run.manifest.gates, metrics));
    if !judged.status.RunFailed? && !AllPassed(judged.gateDecisions) {
      judged := judged.(status := RunFailed, error := Some(GATES_FAILED));
    }
    if !judged.status.RunFailed? {
      judged := judged.(status := RunSucceeded);
    }
    var done := EmitAll(judged, [RunFinished(job.run, judged.status)]);
    RoundsNarrate(job, run, ran, done);
    SameRecordsLate(run, done, ran, maxParallel);
    LoggedStatus(job, judged, run);
    QuietEvent(job, judged, done, RunFinished(job.run, judged.status));
    LoggedPart(job, run);
    EvaluationComputes(job, run.steps, Solution(job));
    if run.status.RunFailed? {
      PartFails(run.steps, Solution(job));
      FailedByFrame(run, run.steps);
    }
    return Ok(done);
  }

  lemma SameRecordsLate(a: RunRecord, b: RunRecord, ran: seq<StepSpec>, last: nat)
    requires a.steps == b.steps && LateFailure(a, ran, last)
    ensures LateFailure(b, ran, last)
  {
  }

  /** Two executions of the same job, with whatever degrees of parallelism, end alike; without a failure
      even their logs are the same. */
  lemma ParallelismIsInvisible(job: Job, metrics: seq<Metric>, a: RunRecord, b: RunRecord)
    requires Acyclic(job.workflow.steps) && Outcome(job, metrics, a) && Outcome(job, metrics, b)
    ensures a.status == b.status && a.gateDecisions == b.gateDecisions
    ensures !Fails(Solution(job)) ==> a.steps == b.steps && a.error == b.error && a.events == b.events
    ensures forall id :: id in a.steps && id in b.steps ==> a.steps[id] == b.steps[id]
  {
    hide Acyclic, Solution, OfStep, ResultOf, EventsOf, Rounds, Computed, EvaluateGates, AllPassed, FailedBy, Ids;
  }

  lemma TasksAreRegistered(worker: WorkerProfile, steps: seq<StepSpec>, registry: Registry)
    requires ValidateTasks(worker, steps, registry).None?
    ensures forall s :: s in steps ==> Registered(registry, s)
  {
  }
}
