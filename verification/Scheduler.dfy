/** The process-local executor (src/runtime.rs): scheduling in ready chunks computes the recursive
    evaluation of the dependency graph, whatever the degree of parallelism. */
module Scheduler {
  import opened Types
  import opened Workflows
  import opened Policy
  import opened Evaluation
  import opened Transitions
  import opened Effects
  import opened StepLoop
  import opened Durable

  /** What is executed: a workflow on an input with registered tasks. */
  datatype Job = Job(run: RunId, workflow: Workflow, input: Value, registry: Registry, oracle: Oracle)

  type Records = map<StepId, StepRecord>

  function ResultOf(job: Job, s: StepSpec, records: Records): StepRunResult {
    var input := BuildStepInput(job.input, DependencyOutputs(records, s.dependsOn));
    RunStep(job.run, s, job.registry.Keys, job.oracle, input)
  }

  ghost function StepNamed(steps: seq<StepSpec>, id: StepId): (s: StepSpec)
    requires id in Ids(steps)
    ensures s in steps && s.id == id
  {
    assert exists s :: s in steps && s.id == id;
    var s :| s in steps && s.id == id;
    s
  }

  // Recursive evaluation.

  /** The equations of the evaluation: a step has a record exactly if its dependencies succeeded, and
      then it is the result of running it on their outputs. */
  ghost predicate Solves(job: Job, m: Records) {
    && m.Keys <= Ids(job.workflow.steps)
    && (forall s :: s in job.workflow.steps ==> (s.id in m <==> DependenciesDone(m, s)))
    && (forall s :: s in job.workflow.steps && s.id in m ==> m[s.id] == ResultOf(job, s, m).record)
  }

  /** Each record is what its step makes of the run's input and of the outputs its dependencies have in
      `m`, each under its own name. */
  ghost predicate Computed(job: Job, records: Records, m: Records) {
    forall s :: s in job.workflow.steps && s.id in records ==>
      exists input ::
        && CarriesInput(input, job.input, s.dependsOn, m)
        && records[s.id] == RunStep(job.run, s, job.registry.Keys, job.oracle, input).record
  }

  /** So is every record of the evaluation, and of any part of it. */
  lemma EvaluationComputes(job: Job, part: Records, m: Records)
    requires Solves(job, m) && PartOf(part, m)
    ensures Computed(job, part, m)
  {
    hide RunStep, DependenciesDone, CarriesInput;
    forall s | s in job.workflow.steps && s.id in part
      ensures exists input :: && CarriesInput(input, job.input, s.dependsOn, m)
                              && part[s.id] == RunStep(job.run, s, job.registry.Keys, job.oracle, input).record
    {
      InputCarries(job.input, s.dependsOn, m);
      assert m[s.id] == ResultOf(job, s, m).record;
    }
  }

  lemma OutputsFrame(a: Records, b: Records, s: StepSpec)
    requires forall d :: d in s.dependsOn ==> (d in a <==> d in b) && (d in a ==> a[d] == b[d])
    ensures DependenciesDone(a, s) == DependenciesDone(b, s)
    ensures DependencyOutputs(a, s.dependsOn) == DependencyOutputs(b, s.dependsOn)
  {
  }

  lemma SolvedAlike(job: Job, a: Records, b: Records, s: StepSpec)
    requires Solves(job, a) && Solves(job, b) && s in job.workflow.steps
    requires forall d :: d in s.dependsOn ==> (d in a <==> d in b) && (d in a ==> a[d] == b[d])
    ensures (s.id in a <==> s.id in b) && (s.id in a ==> a[s.id] == b[s.id])
  {
    hide RunStep, DependencyOutputs, DependenciesDone;
    OutputsFrame(a, b, s);
  }

  lemma {:induction false} SolutionsAgree(job: Job, a: Records, b: Records, order: seq<StepId>, n: nat)
    requires Solves(job, a) && Solves(job, b) && TopologicalOrder(job.workflow.steps, order) && n <= |order|
    ensures forall id :: id in order[..n] ==> (id in a <==> id in b) && (id in a ==> a[id] == b[id])
  {
    hide Solves, NoDuplicates;
    if n > 0 {
      SolutionsAgree(job, a, b, order, n - 1);
      var id := order[n - 1];
      assert id in order && order[..n] == order[..n - 1] + [id];
      var s :| s in job.workflow.steps && s.id == id;
      forall d | d in s.dependsOn ensures d in order[..n - 1] {}
      SolvedAlike(job, a, b, s);
    }
  }

  /** The evaluation is unique. */
  lemma SolutionUnique(job: Job, a: Records, b: Records)
    requires Acyclic(job.workflow.steps) && Solves(job, a) && Solves(job, b)
    ensures a == b
  {
    hide RunStep, DependencyOutputs;
    var order :| TopologicalOrder(job.workflow.steps, order);
    SolutionsAgree(job, a, b, order, |order|);
    assert order[..|order|] == order;
  }

  /** Evaluation along an order. */
  ghost function Evaluate(job: Job, order: seq<StepId>): Records
    requires forall id :: id in order ==> id in Ids(job.workflow.steps)
  {
    if order == [] then map[]
    else
      var id := order[|order| - 1];
      var m := Evaluate(job, order[..|order| - 1]);
      assert id in order;
      var s := StepNamed(job.workflow.steps, id);
      if DependenciesDone(m, s) then m[id := ResultOf(job, s, m).record] else m
  }

  ghost predicate SolvesUpTo(job: Job, m: Records, order: seq<StepId>) {
    && (forall id :: id in m ==> id in order)
    && (forall s :: s in job.workflow.steps && s.id in order ==> (s.id in m <==> DependenciesDone(m, s)))
    && (forall s :: s in job.workflow.steps && s.id in m ==> m[s.id] == ResultOf(job, s, m).record)
  }

  lemma {:induction false} EvaluateSolves(job: Job, order: seq<StepId>, n: nat)
    requires TopologicalOrder(job.workflow.steps, order) && n <= |order|
    requires forall id :: id in order[..n] ==> id in Ids(job.workflow.steps)
    ensures SolvesUpTo(job, Evaluate(job, order[..n]), order[..n])
  {
    hide RunStep, DependencyOutputs, SolvesUpTo, DependenciesDone, TopologicalOrder;
    if n == 0 {
      NothingSolved(job);
      assert order[..0] == [];
    } else {
      var id := order[n - 1];
      assert order[..n][..n - 1] == order[..n - 1] && order[..n] == order[..n - 1] + [id];
      EvaluateSolves(job, order, n - 1);
      var m := Evaluate(job, order[..n - 1]);
      assert id in order[..n];
      ExtendSolution(job, m, order, n - 1, StepNamed(job.workflow.steps, id));
    }
  }

  lemma NothingSolved(job: Job)
    ensures SolvesUpTo(job, map[], [])
  {
  }

  lemma ExtendSolution(job: Job, m: Records, order: seq<StepId>, n: nat, s: StepSpec)
    requires TopologicalOrder(job.workflow.steps, order) && n < |order| && SolvesUpTo(job, m, order[..n])
    requires s in job.workflow.steps && s.id == order[n]
    ensures SolvesUpTo(job, if DependenciesDone(m, s) then m[s.id := ResultOf(job, s, m).record] else m,
            order[..n] + [s.id])
  {
    hide RunStep, DependencyOutputs, DependenciesDone;
    var m2 := if DependenciesDone(m, s) then m[s.id := ResultOf(job, s, m).record] else m;
    OrderImpliesDistinct(job.workflow.steps, order);
    forall t | t in job.workflow.steps && t.id in order[..n] + [s.id]
      ensures DependenciesDone(m2, t) == DependenciesDone(m, t)
      ensures DependencyOutputs(m2, t.dependsOn) == DependencyOutputs(m, t.dependsOn)
    {
      DependencyBefore(job.workflow.steps, order, n, t);
      OutputsFrame(m, m2, t);
    }
    forall t | t in job.workflow.steps && t.id == s.id ensures t == s {
      SameIdSameStep(job.workflow.steps, s, t);
    }
    assert s.id !in order[..n];
  }

  lemma DependencyBefore(steps: seq<StepSpec>, order: seq<StepId>, n: nat, t: StepSpec)
    requires TopologicalOrder(steps, order) && n < |order| && t in steps && t.id in order[..n + 1]
    ensures forall d :: d in t.dependsOn ==> d in order[..n] && d != order[n]
  {
    var i :| 0 <= i < n + 1 && order[i] == t.id;
    forall d | d in t.dependsOn ensures d in order[..n] {
      assert d in order[..i];
    }
  }

  /** The evaluation of a job. */
  ghost function Solution(job: Job): (m: Records)
    requires Acyclic(job.workflow.steps)
    ensures Solves(job, m)
  {
    var order :| TopologicalOrder(job.workflow.steps, order);
    var m := Evaluate(job, order);
    SolutionExists(job, order);
    m
  }

  lemma SolutionExists(job: Job, order: seq<StepId>)
    requires TopologicalOrder(job.workflow.steps, order)
    ensures forall id :: id in order ==> id in Ids(job.workflow.steps)
    ensures Solves(job, Evaluate(job, order))
  {
    hide RunStep, DependencyOutputs, DependenciesDone;
    assert order[..|order|] == order;
    EvaluateSolves(job, order, |order|);
    forall s | s in job.workflow.steps ensures s.id in order {
      assert s.id in Ids(job.workflow.steps);
    }
  }

  /** Some step of the evaluation fails. */
  predicate Fails(m: Records) {
    exists id <- m :: m[id].status.Failed?
  }

  // The scheduler.

  function ReadySteps(steps: seq<StepSpec>, records: Records): (ready: seq<StepSpec>)
    ensures forall s :: s in ready <==> s in steps && s.id !in records && DependenciesDone(records, s)
  {
    if steps == [] then []
    else if steps[0].id !in records && DependenciesDone(records, steps[0]) then
      [steps[0]] + ReadySteps(steps[1..], records)
    else ReadySteps(steps[1..], records)
  }

  // The order in which steps are run.

  /** The steps not done whose dependencies are done, in workflow order. */
  ghost function ReadyAfter(steps: seq<StepSpec>, done: set<StepId>): (ready: seq<StepSpec>)
    ensures forall s :: s in ready <==> s in steps && s.id !in done && forall d :: d in s.dependsOn ==> d in done
  {
    if steps == [] then []
    else
      (if steps[0].id !in done && forall d :: d in steps[0].dependsOn ==> d in done then [steps[0]] else [])
      + ReadyAfter(steps[1..], done)
  }

  /** Round after round of ready steps. */
  ghost function Rounds(steps: seq<StepSpec>, done: set<StepId>): seq<StepSpec>
    decreases |Ids(steps) - done|
  {
    var ready := ReadyAfter(steps, done);
    if ready == [] then []
    else
      assert ready[0] in ready && ready[0].id in Ids(ready);
      SubsetCount(Ids(steps) - (done + Ids(ready)), Ids(steps) - done - {ready[0].id});
      ready + Rounds(steps, done + Ids(ready))
  }

  lemma {:induction false} ReadyAgrees(steps: seq<StepSpec>, records: Records)
    requires forall id :: id in records ==> records[id].status.Succeeded?
    ensures ReadySteps(steps, records) == ReadyAfter(steps, records.Keys)
  {
    if steps != [] {
      ReadyAgrees(steps[1..], records);
    }
  }

  /** The events of steps run one after the other, as the evaluation has them. */
  ghost function EventsOf(job: Job, ran: seq<StepSpec>): seq<Event>
    requires Acyclic(job.workflow.steps)
  {
    if ran == [] then []
    else EventsOf(job, ran[..|ran| - 1]) + ResultOf(job, ran[|ran| - 1], Solution(job)).events
  }

  lemma {:induction false} EventsConcat(job: Job, a: seq<StepSpec>, b: seq<StepSpec>)
    requires Acyclic(job.workflow.steps)
    ensures EventsOf(job, a + b) == EventsOf(job, a) + EventsOf(job, b)
  {
    hide ResultOf, Acyclic, Solution;
    if b == [] {
      assert a + b == a;
    } else {
      var init, last := b[..|b| - 1], b[|b| - 1];
      EventsConcat(job, a, init);
      assert (a + b)[..|a + b| - 1] == a + init;
    }
  }

  /** The records so far are part of the evaluation, none of them failed. */
  ghost predicate OnTrack(job: Job, records: Records)
    requires Acyclic(job.workflow.steps)
  {
    PartOf(records, Solution(job)) && !Fails(records)
  }

  predicate PartOf(a: Records, b: Records) {
    forall id <- a :: id in b && a[id] == b[id]
  }

  /** A ready step's result on the records so far is its result in the evaluation. */
  lemma ReadyResult(job: Job, records: Records, s: StepSpec)
    requires Acyclic(job.workflow.steps) && PartOf(records, Solution(job))
    requires s in job.workflow.steps && DependenciesDone(records, s)
    ensures s.id in Solution(job) && ResultOf(job, s, records).record == Solution(job)[s.id]
  {
    hide RunStep, DependencyOutputs, Solution, Acyclic;
    OutputsFrame(records, Solution(job), s);
  }

  /** As long as nothing failed and steps are missing, some step is ready. */
  lemma ProgressPossible(job: Job, records: Records)
    requires Acyclic(job.workflow.steps) && OnTrack(job, records) && |records| < |job.workflow.steps|
    ensures ReadySteps(job.workflow.steps, records) != []
  {
    hide RunStep, DependencyOutputs, Solution;
    var steps := job.workflow.steps;
    var order :| TopologicalOrder(steps, order);
    var i := FirstMissing(order, records);
    if i == |order| {
      DistinctCount(order);
      assert Elements(order) <= records.Keys;
      SubsetCount(Elements(order), records.Keys);
      assert false;
    } else {
      assert order[i] in order;
      var s :| s in steps && s.id == order[i];
      forall d | d in s.dependsOn ensures d in records && records[d].status.Succeeded? {
        assert d in order[..i];
        SolutionEnds(job, d);
      }
      assert s in ReadySteps(steps, records);
    }
  }

  lemma FirstMissing(order: seq<StepId>, records: Records) returns (i: nat)
    ensures i <= |order| && (forall j :: 0 <= j < i ==> order[j] in records)
    ensures i < |order| ==> order[i] !in records
  {
    i := 0;
    while i < |order| && order[i] in records
      invariant i <= |order| && forall j :: 0 <= j < i ==> order[j] in records
    {
      i := i + 1;
    }
  }

  lemma SolutionEnds(job: Job, id: StepId)
    requires Acyclic(job.workflow.steps) && id in Solution(job)
    ensures Solution(job)[id].status.Succeeded? || Solution(job)[id].status.Failed?
    ensures Solution(job)[id].status.Failed? <==> Solution(job)[id].error.Some?
  {
    hide RunStep, DependencyOutputs, Solution, DependenciesDone, Acyclic;
    var s :| s in job.workflow.steps && s.id == id;
    RunStepEnds(job, s);
  }

  lemma RunStepEnds(job: Job, s: StepSpec)
    ensures forall m :: var r := ResultOf(job, s, m).record;
              (r.status.Succeeded? || r.status.Failed?) && (r.status.Failed? <==> r.error.Some?)
  {
    hide Run;
  }

  // The executor's methods.

  function Emitted(run: RunRecord, events: seq<Event>): RunRecord {
    run.(events := run.events + events, revision := run.revision + |events|)
  }

  method EmitAll(run: RunRecord, events: seq<Event>) returns (r: RunRecord)
    ensures r == Emitted(run, events)
  {
    r := run;
    for i := 0 to |events|
      invariant r == Emitted(run, events[..i])
    {
      r := r.(events := r.events + [events[i]], revision := r.revision + 1);
      assert r.events == run.events + events[..i + 1];
    }
    assert events[..|events|] == events;
  }

  /** The identity and inputs of the run being executed do not change. */
  predicate SameRun(a: RunRecord, b: RunRecord) {
    a.runId == b.runId && a.workflow == b.workflow && a.manifest == b.manifest && a.input == b.input
    && a.eventLog == b.eventLog && a.idempotencyKey == b.idempotencyKey
  }

  ghost predicate Runs(job: Job, run: RunRecord) {
    run.runId == job.run && run.workflow == job.workflow && run.input == job.input
  }

  // Events of one step.

  predicate About(e: Event, id: StepId) {
    !e.RunStarted? && !e.RunFinished? && e.step == id
  }

  function OfStep(events: seq<Event>, id: StepId): seq<Event> {
    if events == [] then []
    else OfStep(events[..|events| - 1], id) + (if About(events[|events| - 1], id) then [events[|events| - 1]] else [])
  }

  lemma {:induction false} OfStepConcat(a: seq<Event>, b: seq<Event>, id: StepId)
    ensures OfStep(a + b, id) == OfStep(a, id) + OfStep(b, id)
  {
    if b == [] {
      assert a + b == a;
    } else {
      var n := |b| - 1;
      OfStepConcat(a, b[..n], id);
      assert (a + b)[..|a + b| - 1] == a + b[..n];
    }
  }

  lemma {:induction false} OfStepAll(events: seq<Event>, own: StepId, id: StepId)
    requires forall e :: e in events ==> About(e, own)
    ensures OfStep(events, id) == if id == own then events else []
  {
    if events != [] {
      var n := |events| - 1;
      OfStepAll(events[..n], own, id);
      assert events == events[..n] + [events[n]] && About(events[n], own);
    }
  }

  lemma {:induction false} LoopEventsOwn(run: RunId, step: StepSpec, registry: set<TaskId>, oracle: Oracle,
      input: Value, st: Loop)
    requires forall e :: e in st.events ==> About(e, step.id)
    ensures forall e :: e in Run(run, step, registry, oracle, input, st).events ==> About(e, step.id)
    decreases AttemptsLeft(step, st)
  {
    hide AttemptsLeft, Exhausted;
    var t := TurnOf(run, step, registry, oracle, input, st);
    if t.Continue? {
      LoopEventsOwn(run, step, registry, oracle, input, t.next);
    }
  }

  /** Records and events so far are those of the evaluation; nothing is logged for missing steps. */
  ghost predicate Logged(job: Job, run: RunRecord)
    requires Acyclic(job.workflow.steps)
  {
    && PartOf(run.steps, Solution(job))
    && (forall s :: s in job.workflow.steps ==>
          OfStep(run.events, s.id) == if s.id in run.steps then ResultOf(job, s, Solution(job)).events else [])
  }

  lemma ResultEventsOwn(job: Job, s: StepSpec, records: Records)
    ensures forall e :: e in ResultOf(job, s, records).events ==> About(e, s.id)
  {
    hide Run;
    LoopEventsOwn(job.run, s, job.registry.Keys, job.oracle,
                  BuildStepInput(job.input, DependencyOutputs(records, s.dependsOn)), Begin(s));
  }

  lemma InsertStepLog(job: Job, events: seq<Event>, before: seq<Event>, s: StepSpec, t: StepSpec, result: StepRunResult)
    requires forall e :: e in result.events ==> About(e, s.id)
    requires OfStep(events, t.id) == before
    ensures OfStep(events + result.events, t.id) == if t.id == s.id then before + result.events else before
  {
    OfStepConcat(events, result.events, t.id);
    OfStepAll(result.events, s.id, t.id);
  }

  /** Inserting the result of a ready step and emitting its events keeps the run logged. */
  lemma InsertLogged(job: Job, run: RunRecord, s: StepSpec, records: Records)
    requires Acyclic(job.workflow.steps) && Logged(job, run)
    requires s in job.workflow.steps && s.id !in run.steps
    requires PartOf(records, Solution(job)) && DependenciesDone(records, s)
    ensures var result := ResultOf(job, s, records);
            Logged(job, Emitted(run, result.events).(steps := run.steps[s.id := result.record]))
  {
    hide Solution, Acyclic, ResultOf, DependenciesDone, OfStep, About;
    var result := ResultOf(job, s, records);
    ReadyResult(job, records, s);
    ResultEventsOwn(job, s, records);
    SameEvents(job, s, records);
    forall t | t in job.workflow.steps
      ensures OfStep(run.events + result.events, t.id)
           == if t.id in run.steps || t.id == s.id then ResultOf(job, t, Solution(job)).events else []
    {
      InsertStepLog(job, run.events, OfStep(run.events, t.id), s, t, result);
      if t.id == s.id {
        AcyclicSame(job, s, t);
      }
    }
  }

  lemma AcyclicSame(job: Job, s: StepSpec, t: StepSpec)
    requires Acyclic(job.workflow.steps) && s in job.workflow.steps && t in job.workflow.steps && s.id == t.id
    ensures s == t
  {
    var order :| TopologicalOrder(job.workflow.steps, order);
    OrderImpliesDistinct(job.workflow.steps, order);
    SameIdSameStep(job.workflow.steps, s, t);
  }

  lemma SameEvents(job: Job, s: StepSpec, records: Records)
    requires Acyclic(job.workflow.steps) && PartOf(records, Solution(job))
    requires s in job.workflow.steps && DependenciesDone(records, s)
    ensures ResultOf(job, s, records) == ResultOf(job, s, Solution(job))
  {
    hide RunStep, DependencyOutputs, Solution, Acyclic;
    OutputsFrame(records, Solution(job), s);
  }

  /** A chunk of ready steps with ids of their own. */
  ghost predicate Chunk(job: Job, records: Records, chunk: seq<StepSpec>) {
    && DistinctIds(chunk)
    && forall s :: s in chunk ==> s in job.workflow.steps && s.id !in records && DependenciesDone(records, s)
  }

  /** The results of a chunk on the records at its start. */
  method RunAll(job: Job, run: RunRecord, chunk: seq<StepSpec>) returns (results: seq<StepRunResult>)
    requires Runs(job, run)
    ensures |results| == |chunk|
    ensures forall k :: 0 <= k < |chunk| ==> results[k] == ResultOf(job, chunk[k], run.steps)
  {
    hide RunStep, DependencyOutputs;
    results := [];
    for i := 0 to |chunk|
      invariant |results| == i && forall k :: 0 <= k < i ==> results[k] == ResultOf(job, chunk[k], run.steps)
    {
      var result := ExecuteStep(job.run, chunk[i], job.registry.Keys, job.oracle,
                                BuildStepInput(run.input, DependencyOutputs(run.steps, chunk[i].dependsOn)));
      results := results + [result];
    }
  }

  /** The first steps of the chunk are inserted, their events emitted in this order. */
  ghost predicate Inserted(job: Job, run: RunRecord, chunk: seq<StepSpec>, r: RunRecord, n: nat)
    requires Acyclic(job.workflow.steps) && n <= |chunk|
  {
    && SameRun(run, r) && r.status == run.status && r.error == run.error
    && Logged(job, r) && PartOf(run.steps, r.steps)
    && r.steps.Keys == run.steps.Keys + Ids(chunk[..n])
    && r.events == run.events + EventsOf(job, chunk[..n])
  }

  lemma NothingInserted(job: Job, run: RunRecord, chunk: seq<StepSpec>)
    requires Acyclic(job.workflow.steps) && Logged(job, run)
    ensures Inserted(job, run, chunk, run, 0)
  {
    hide Solution, Acyclic, Logged, ResultOf;
    assert chunk[..0] == [];
  }

  lemma InsertNext(job: Job, run: RunRecord, chunk: seq<StepSpec>, r: RunRecord, n: nat)
    requires Acyclic(job.workflow.steps) && Logged(job, run) && Chunk(job, run.steps, chunk) && n < |chunk|
    requires Inserted(job, run, chunk, r, n)
    ensures var result := ResultOf(job, chunk[n], run.steps);
            Inserted(job, run, chunk, Emitted(r, result.events).(steps := r.steps[chunk[n].id := result.record]), n + 1)
  {
    hide Solution, Acyclic, Logged, ResultOf, DependenciesDone, Ids, DistinctIds;
    assert chunk[n] in chunk;
    LoggedPart(job, run);
    NotYetInserted(chunk, n);
    InsertLogged(job, r, chunk[n], run.steps);
    SameEvents(job, chunk[n], run.steps);
    IdsSnoc(chunk, n);
    ResultNamesStep(job, chunk[n], run.steps);
    assert chunk[..n + 1][..n] == chunk[..n];
  }

  /** Runs a chunk on the records at its start, then emits and inserts the results in order. */
  method RunChunk(job: Job, run: RunRecord, chunk: seq<StepSpec>) returns (r: RunRecord)
    requires Acyclic(job.workflow.steps) && Runs(job, run) && Logged(job, run) && Chunk(job, run.steps, chunk)
    ensures Inserted(job, run, chunk, r, |chunk|)
  {
    hide Solution, Acyclic, Logged, Chunk, ResultOf, Inserted;
    var results := RunAll(job, run, chunk);
    r := run;
    NothingInserted(job, run, chunk);
    for i := 0 to |chunk|
      invariant Inserted(job, run, chunk, r, i)
    {
      InsertNext(job, run, chunk, r, i);
      var emitted := EmitAll(r, results[i].events);
      r := emitted.(steps := r.steps[chunk[i].id := results[i].record]);
    }
  }

  lemma LoggedPart(job: Job, run: RunRecord)
    requires Acyclic(job.workflow.steps) && Logged(job, run)
    ensures PartOf(run.steps, Solution(job))
  {
  }

  lemma NotYetInserted(chunk: seq<StepSpec>, i: nat)
    requires DistinctIds(chunk) && i < |chunk|
    ensures chunk[i].id !in Ids(chunk[..i])
  {
  }

  lemma IdsSnoc(chunk: seq<StepSpec>, i: nat)
    requires i < |chunk|
    ensures Ids(chunk[..i + 1]) == Ids(chunk[..i]) + {chunk[i].id}
  {
    assert chunk[..i + 1] == chunk[..i] + [chunk[i]];
  }

  lemma ResultNamesStep(job: Job, s: StepSpec, records: Records)
    ensures ResultOf(job, s, records).record.id == s.id
  {
  }
}
