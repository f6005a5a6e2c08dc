/** Driving a step attempt by attempt is a behaviour of the run machine: every claim, start report
    and completion on the way is one the repository accepts. */
module DriveBehaviour {
  import opened Types
  import opened Workflows
  import opened Policy
  import opened Transitions
  import opened StepInvariant
  import opened RunInvariant
  import opened RunTheorems
  import opened RunMachine
  import opened MemoryStore
  import opened MemoryTheorems
  import opened Durable
  import opened StepLoop
  import opened LoopRefinement

  function SiteOf(run: RunRecord, step: StepSpec, worker: WorkerProfile, leaseMs: nat, clear: bool): Site {
    Site(run.runId, run.workflow.id, run.manifest.tasks, step, StepInput(run, step), worker.id, leaseMs, clear)
  }

  function ProgressOf(run: RunRecord, step: StepSpec): Progress {
    Progress(Find(run.steps, step.id), run.events)
  }

  ghost predicate CanRun(run: RunRecord, step: StepSpec, worker: WorkerProfile) {
    forall t :: t in run.manifest.tasks && (t == step.task || Some(t) == step.policy.fallbackTask) ==>
      SupportsTask(worker, run.manifest.tasks[t], step.policy)
  }

  ghost function NextSequence(run: RunRecord): nat {
    MaxOf(Sequences(run)) + 1
  }

  lemma NextSequenceFresh(run: RunRecord)
    ensures Fresh(run, NextSequence(run))
  {
    forall v | v in run.eventLog ensures v.sequence <= MaxOf(Sequences(run)) {
      assert v.sequence in Sequences(run);
    }
  }

  /** The step may be driven on this run by this worker. */
  ghost predicate Drivable(x: Tracked, step: StepSpec, worker: WorkerProfile) {
    && Inv(x) && x.run.status.RunRunning? && step in x.run.workflow.steps
    && DependenciesDone(x.run.steps, step) && CanRun(x.run, step, worker)
  }

  lemma OfferedIsClaimable(x: Tracked, step: StepSpec, worker: WorkerProfile, now: nat)
    requires Drivable(x, step, worker) && Available(Find(x.run.steps, step.id), step, now)
    ensures CurrentTask(Find(x.run.steps, step.id), step) in x.run.manifest.tasks
    ensures Claimable(x.run, worker, step, now)
  {
    hide LogOk, StatusOk, StepsOk, ValidSteps, StepInput, HistoryOk, ClaimsOk, BudgetOk, ViewOk, SupportsTask,
      DependenciesDone;
    if step.id in x.run.steps {
      RecordOf(x.run, x.claims, step);
    }
  }

  /** The claim: legal, and its start report would be accepted. */
  lemma ClaimPhase(x: Tracked, step: StepSpec, worker: WorkerProfile, leaseMs: nat, clear: bool, token: nat)
    returns (m: Move)
    requires Drivable(x, step, worker) && token > 0 && TokensUpTo(x.run, token - 1)
    requires var p := ProgressOf(x.run, step); Available(p.record, step, Due(p)) && Due(p) < U64_MAX
    ensures CurrentTask(Find(x.run.steps, step.id), step) in x.run.manifest.tasks
    ensures Legal(x, m)
    ensures var site, p := SiteOf(x.run, step, worker, leaseMs, clear), ProgressOf(x.run, step);
            var claim, y := ClaimMade(site, p, token), Next(x, m);
            && Inv(y) && Issued(y.claims, claim) && EventValid(y.run, StartOf(claim))
            && HoldsLease(y.run, claim, Due(p))
            && SameConstants(x.run, y.run) && y.run.status.RunRunning? && y.run.events == x.run.events
            && y.run.steps == x.run.steps[step.id := LeasedRecord(site, p, token)]
  {
    hide RunInv, EventValid, Claimable, StepInput, TokensUpTo;
    var p := ProgressOf(x.run, step);
    OfferedIsClaimable(x, step, worker, Due(p));
    m := Claim(worker, step, token, leaseMs, Due(p), clear);
    MoveKeeps(x, m);
    StartIsAccepted(x, m);
  }

  /** Start report and completion of a live claim: both legal, one record changed, two events logged. */
  lemma ReportPhase(x: Tracked, claim: StepClaim, result: TaskResult, now: nat) returns (m2: Move, m3: Move)
    requires Inv(x) && Issued(x.claims, claim) && EventValid(x.run, StartOf(claim)) && HoldsLease(x.run, claim, now)
    ensures Legal(x, m2) && Legal(Next(x, m2), m3)
    ensures var y, c := Next(Next(x, m2), m3), CompletionFor(claim, result);
            && Inv(y) && SameConstants(x.run, y.run) && y.run.status == x.run.status
            && y.run.events == x.run.events + [StartOf(claim), c.event]
            && y.run.steps == x.run.steps[claim.step.id := CompleteRecord(x.run.steps[claim.step.id], c, now)]
  {
    hide RunInv, EventValid, CompletionMatches, CompletionFor, CloseAttempt, Fresh;
    NextSequenceFresh(x.run);
    m2 := Record(StartOf(claim), NextSequence(x.run));
    var x2 := Next(x, m2);
    MoveKeeps(x, m2);
    NextSequenceFresh(x2.run);
    var s := IssuedStep(x.run, x.claims, claim);
    CoveredFallback(x.run, x.claims, s);
    ReportFits(claim, result, x.run.manifest);
    m3 := Complete(claim, CompletionFor(claim, result), NextSequence(x2.run), now);
    MoveKeeps(x2, m3);
  }

  /** One attempt is three legal moves: claim, start report, completion. */
  lemma AttemptIsLegal(x: Tracked, step: StepSpec, worker: WorkerProfile, leaseMs: nat, clear: bool,
                       token: nat, oracle: Oracle)
    returns (moves: seq<Move>)
    requires Drivable(x, step, worker) && token > 0 && TokensUpTo(x.run, token - 1)
    requires var p := ProgressOf(x.run, step); Available(p.record, step, Due(p)) && Due(p) < U64_MAX
    ensures var site, p := SiteOf(x.run, step, worker, leaseMs, clear), ProgressOf(x.run, step);
            && CurrentTask(p.record, step) in site.tasks
            && LegalAll(x, moves)
            && var y := NextAll(x, moves);
               && Inv(y) && SameConstants(x.run, y.run) && y.run.status.RunRunning?
               && ProgressOf(y.run, step) == DurableAttempt(site, p, token, oracle)
               && y.run.steps == x.run.steps[step.id := DurableAttempt(site, p, token, oracle).record.value]
               && TokensUpTo(y.run, token)
  {
    hide Inv, CompletionFor, EventValid, StepInput, LegalAll, NextAll, TokensUpTo, Legal, Next, Drivable,
      ClaimRecord, CompleteRecord, Issued, HoldsLease, Due, Available;
    var p, site := ProgressOf(x.run, step), SiteOf(x.run, step, worker, leaseMs, clear);
    var m1 := ClaimPhase(x, step, worker, leaseMs, clear, token);
    var x1 := Next(x, m1);
    var claim := ClaimMade(site, p, token);
    var result := oracle(step.id, claim.task.id, claim.attempt, claim.input);
    var m2, m3 := ReportPhase(x1, claim, result, Due(p));
    moves := [m1, m2, m3];
    PathOfThree(x, m1, m2, m3);
    var y := Next(Next(x1, m2), m3);
    assert y.run.steps == x.run.steps[step.id := DurableAttempt(site, p, token, oracle).record.value];
    TokensAfter(x.run, y.run, step, worker.id, token, leaseMs, Due(p), clear, ReportMade(site, p, token, oracle));
  }

  lemma PathOfThree(x: Tracked, m1: Move, m2: Move, m3: Move)
    requires Legal(x, m1) && Legal(Next(x, m1), m2) && Legal(Next(Next(x, m1), m2), m3)
    ensures LegalAll(x, [m1, m2, m3])
    ensures NextAll(x, [m1, m2, m3]) == Next(Next(Next(x, m1), m2), m3)
  {
    hide Legal, Next;
    var x1 := Next(x, m1);
    var x2 := Next(x1, m2);
    assert [m1, m2, m3][1..] == [m2, m3] && [m2, m3][1..] == [m3] && [m3][1..] == [];
    assert LegalAll(Next(x2, m3), []);
    assert LegalAll(x2, [m3]);
    assert LegalAll(x1, [m2, m3]);
    assert NextAll(x2, [m3]) == Next(x2, m3);
    assert NextAll(x1, [m2, m3]) == NextAll(x2, [m3]);
  }

  lemma TokensAfter(run: RunRecord, run2: RunRecord, step: StepSpec, worker: WorkerId, token: nat, leaseMs: nat,
                    now: nat, clear: bool, c: StepCompletion)
    requires token > 0 && TokensUpTo(run, token - 1)
    requires run2.steps == run.steps[step.id :=
               CompleteRecord(ClaimRecord(Find(run.steps, step.id), step, worker, token, leaseMs, now, clear), c, now)]
    ensures TokensUpTo(run2, token)
  {
  }

  function LongestDelay(step: StepSpec): nat {
    Max(step.policy.retry.delay.maxMs, step.policy.retry.delay.initialMs)
  }

  lemma AttemptDue(site: Site, p: Progress, token: nat, oracle: Oracle)
    requires CurrentTask(p.record, site.step) in site.tasks
    ensures Due(DurableAttempt(site, p, token, oracle)) <= Due(p) + LongestDelay(site.step)
    ensures Attempts(DurableAttempt(site, p, token, oracle)) == Attempts(p) + 1
  {
    hide CloseAttempt;
  }

  /** Driving a step on a stored run follows legal moves to the end: the record and the events the
      repository holds then are those of the drive. */
  lemma {:induction false} DriveIsBehaviour(x: Tracked, step: StepSpec, worker: WorkerProfile, leaseMs: nat,
                                           clear: bool, tokens: nat -> nat, oracle: Oracle)
    returns (moves: seq<Move>)
    requires Drivable(x, step, worker)
    requires forall a: nat :: tokens(a) < tokens(a + 1)
    requires var p := ProgressOf(x.run, step);
             && tokens(Attempts(p)) > 0 && TokensUpTo(x.run, tokens(Attempts(p)) - 1)
             && Due(p) + (if Attempts(p) <= Budget(step) then Budget(step) + 1 - Attempts(p) else 0)
                         * LongestDelay(step) < U64_MAX
    ensures LegalAll(x, moves) && Inv(NextAll(x, moves))
    ensures ProgressOf(NextAll(x, moves).run, step)
         == Drive(SiteOf(x.run, step, worker, leaseMs, clear), ProgressOf(x.run, step), tokens, oracle)
    decreases Budget(step) + 1 - Attempts(ProgressOf(x.run, step))
  {
    hide Inv, LegalAll, NextAll, CanRun, DependenciesDone, DurableAttempt, TokensUpTo, Due, LongestDelay, StepInput,
      RunInv;
    var p, site := ProgressOf(x.run, step), SiteOf(x.run, step, worker, leaseMs, clear);
    DriveOnce(site, p, tokens, oracle);
    if Available(p.record, step, Due(p)) {
      var left := Budget(step) + 1 - Attempts(p);
      var first := AttemptIsLegal(x, step, worker, leaseMs, clear, tokens(Attempts(p)), oracle);
      var y := NextAll(x, first);
      AttemptDue(site, p, tokens(Attempts(p)), oracle);
      assert left * LongestDelay(step) == (left - 1) * LongestDelay(step) + LongestDelay(step);
      DrivableAfter(x, y, step, worker, leaseMs, clear, tokens(Attempts(p)));
      RoomGrows(y.run, tokens(Attempts(p)), tokens(Attempts(p) + 1) - 1);
      var rest := DriveIsBehaviour(y, step, worker, leaseMs, clear, tokens, oracle);
      moves := first + rest;
      MovesConcatenate(x, first, rest);
    } else {
      moves := [];
      NoMoves(x);
    }
  }

  lemma NoMoves(x: Tracked)
    ensures LegalAll(x, []) && NextAll(x, []) == x
  {
  }

  lemma RoomGrows(run: RunRecord, a: nat, b: nat)
    requires TokensUpTo(run, a) && a <= b
    ensures TokensUpTo(run, b)
  {
  }

  lemma DrivableAfter(x: Tracked, y: Tracked, step: StepSpec, worker: WorkerProfile, leaseMs: nat, clear: bool,
                      token: nat)
    requires Drivable(x, step, worker) && Inv(y) && SameConstants(x.run, y.run) && y.run.status.RunRunning?
    requires step.id in y.run.steps && y.run.steps == x.run.steps[step.id := y.run.steps[step.id]]
    requires step.id in x.run.steps ==> !x.run.steps[step.id].status.Succeeded?
    ensures Drivable(y, step, worker)
    ensures SiteOf(y.run, step, worker, leaseMs, clear) == SiteOf(x.run, step, worker, leaseMs, clear)
  {
    hide RunInv, SupportsTask;
    InputFrame(x.run, y.run, step, step.id);
  }

  lemma AttemptShift(site: Site, p: Progress, prefix: seq<Event>, token: nat, oracle: Oracle)
    requires CurrentTask(p.record, site.step) in site.tasks
    ensures DurableAttempt(site, Progress(p.record, prefix + p.events), token, oracle)
         == Progress(DurableAttempt(site, p, token, oracle).record,
                     prefix + DurableAttempt(site, p, token, oracle).events)
  {
    hide ClaimRecord, CompleteRecord, CompletionFor;
    var q := Progress(p.record, prefix + p.events);
    assert Due(q) == Due(p);
    assert LeasedRecord(site, q, token) == LeasedRecord(site, p, token);
    assert DurableAttempt(site, q, token, oracle).events == prefix + DurableAttempt(site, p, token, oracle).events;
  }

  lemma {:induction false} DriveShift(site: Site, p: Progress, prefix: seq<Event>, tokens: nat -> nat, oracle: Oracle)
    ensures Drive(site, Progress(p.record, prefix + p.events), tokens, oracle)
         == Progress(Drive(site, p, tokens, oracle).record, prefix + Drive(site, p, tokens, oracle).events)
    decreases Budget(site.step) + 1 - Attempts(p)
  {
    hide DurableAttempt;
    var q := Progress(p.record, prefix + p.events);
    DriveOnce(site, p, tokens, oracle);
    DriveOnce(site, q, tokens, oracle);
    if Available(p.record, site.step, Due(p)) && CurrentTask(p.record, site.step) in site.tasks {
      var token := tokens(Attempts(p));
      AttemptShift(site, p, prefix, token, oracle);
      AttemptDue(site, p, token, oracle);
      DriveShift(site, DurableAttempt(site, p, token, oracle), prefix, tokens, oracle);
    }
  }

  /** The whole comparison: from any state in which a step is about to start, the repository has a
      behaviour that ends with the very outcome of the process-local loop and logs its very events,
      unless the primary gives up early. */
  lemma LoopIsBehaviour(x: Tracked, step: StepSpec, worker: WorkerProfile, leaseMs: nat, clear: bool,
                        tokens: nat -> nat, oracle: Oracle)
    returns (moves: seq<Move>)
    requires Drivable(x, step, worker) && step.id !in x.run.steps
    requires forall a: nat :: tokens(a) < tokens(a + 1)
    requires tokens(0) > 0 && TokensUpTo(x.run, tokens(0) - 1)
    requires (Budget(step) + 1) * LongestDelay(step) < U64_MAX
    requires !GivesUpEarly(SiteOf(x.run, step, worker, leaseMs, clear), oracle, 1)
    ensures LegalAll(x, moves) && Inv(NextAll(x, moves))
    ensures var loop := RunStep(x.run.runId, step, x.run.manifest.tasks.Keys, oracle, StepInput(x.run, step));
            var y := NextAll(x, moves).run;
            && y.events == x.run.events + loop.events
            && SameOutcome(loop, Progress(Find(y.steps, step.id), loop.events))
  {
    hide Inv, LegalAll, NextAll, CanRun, DependenciesDone, TokensUpTo, GivesUpEarly, Drive, RunInv, StepInput,
      SameOutcome;
    var site := SiteOf(x.run, step, worker, leaseMs, clear);
    moves := DriveIsBehaviour(x, step, worker, leaseMs, clear, tokens, oracle);
    SiteEquipped(x, step, worker, leaseMs, clear);
    LoopRefinesDurable(site, tokens, oracle);
    assert x.run.events + [] == x.run.events;
    DriveShift(site, Progress(None, []), x.run.events, tokens, oracle);
    SameEvents(RunStep(site.run, step, site.tasks.Keys, oracle, site.input),
               Drive(site, Progress(None, []), tokens, oracle));
  }

  lemma SameEvents(a: StepRunResult, p: Progress)
    requires SameOutcome(a, p)
    ensures a.events == p.events && SameOutcome(a, Progress(p.record, a.events))
  {
  }

  lemma SiteEquipped(x: Tracked, step: StepSpec, worker: WorkerProfile, leaseMs: nat, clear: bool)
    requires Inv(x) && step in x.run.workflow.steps
    ensures Equipped(SiteOf(x.run, step, worker, leaseMs, clear))
  {
    hide LogOk, StatusOk, StepsOk, ValidSteps;
  }
}
