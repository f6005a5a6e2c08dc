# Verified model of the run repository, the validator and the executors

This project models the durable core of `data-ai-orchestrator` in Dafny and proves what its design
rests on.

* **The run repository as a lease-fenced state machine.** `Transitions` holds the changes of one run
  (claim, renew, complete, record event, finish, cancel, recover, create) with lease tokens and event
  sequences as arguments. `MemoryStore` and `PostgresStore` hold the two repositories: each operation
  once as a function on values and once as a method of a class that changes its fields in place
  (`InMemoryRunStore`, `PostgresRunStore`), proved to do what the function says. The clock is an
  argument of every operation.
* **What each operation does.** `Effects` states for every change of a run when it may happen, which
  fields become what, and that nothing else changes, in terms of the records, the gates and plain times
  alone; `MemoryEffects` and `PostgresEffects` say for every call of either repository, for any caller and
  any stored data, which error comes first, which run changes and how, what is published, and what is
  answered. `WorkerBackoff` follows a retry from the task's error to the next claim.
* **The invariant of a run.** `StepLog` replays the events of a step through a small automaton,
  `StepInvariant` relates a step record to the claims issued for it and to that replay, `RunInvariant`
  lifts this to a run and proves that every transition keeps it, and `RunTheorems` draws the
  conclusions: no deadlock, the attempt budget, stable inputs, the fallback discipline, agreement of
  log and state, the run outcome, exact recovery.
* **Whole histories.** `RunMachine` states the moves of one run; `MemorySystem` and `PostgresSystem`
  prove that any operations of any clients, in any order and with any clocks, refine those moves, so
  the theorems hold in every reachable state. Workers present the claims that were handed out to them
  (named by run, step and attempt); `MemoryTraces`, `MemoryFencing` and `MemoryStream` assume nothing
  about the presented claims at all, and `PostgresSnapshots` says what restored rows do to fencing. `PostgresAnswers` says what every PostgreSQL transaction answers,
  `Lockstep` and `LockstepSystem` prove exactly when both repositories, driven by the same operations,
  hold the same runs, and `Finality` which outcomes and records nothing can change any more.
* **The workflow validator.** `Workflows` is the worklist algorithm with its indegree and dependents
  maps, proved to decide acyclicity.
* **The executors.** `StepLoop` is the retry and fallback loop, `Durable` the worker's mapping from
  task results to completions, `LoopRefinement` and `DriveBehaviour` relate the two for one step,
  `Scheduler` and `Executor` prove the chunked scheduler equal to the recursive evaluation of the
  graph, `WholeRuns` proves that runs served by durable workers get the same results, and
  `StoredAnswers` what remains of that when leases expire.
* **Witnesses.** `Witnesses` reaches, from the empty repositories, the states in which the stronger
  claims below fail.

`dafny verify dfyconfig.toml` checks everything.

## What the proofs found

Where the code and its documentation differ, the model follows the code.

* `src/policy.rs:46` says retries are for transient failures and timeouts. The loop of the in-memory
  executor also repeats a permanent error while budget remains, if no fallback is configured; the
  durable worker fails at once. `LoopRefinement.LoopRefinesDurable` says exactly when the two agree,
  `LoopRefinement.LoopRepeatsPermanentErrors` gives the input on which they do not.
* Backoff stops growing at exponent 20 (`src/policy.rs:29`), so it is below the exponential it stands
  for even where that still fits 32 bits: `Policy.BackoffStopsAtExponentTwenty`; `Policy.DelayIsIdealIff`
  is the exact condition.
* Gate decisions are keyed by metric, so of two gates on one metric only the last counts
  (`Evaluation.EarlierGateIsForgotten`). The decisions speak for all gates exactly if no gate is
  stricter than the last one on its metric: `Evaluation.DecisionsSpeakForAllGatesIff`.
* `README.md:30-33` of the repository says that transitions after restoring a snapshot preserve
  fencing. In memory tokens and sequences are indeed never drawn again: both counters dominate whatever
  was retained at any point of a history (`MemoryTraces.RetainedStaysBelow`). But a snapshot that still
  holds a retired lease revives it; a retired claim is refused throughout a history exactly if no such
  snapshot is restored in it (`MemoryFencing.RefusedThroughoutIff`), and
  `Witnesses.SomeClaimCommitsTwice` reaches a claim that commits twice. The PostgreSQL repository draws
  tokens from the retained history alone, so there a snapshot can also have a retired token drawn again:
  `PostgresSnapshots.SaveRevivesIff` and `ClaimRevivesIff` are the exact conditions,
  `RestoredRowRepeatsClaim` the claim that is handed out twice.
* `finish_run` judges a run whatever its status, so a terminal status can change:
  `Witnesses.SuccessIsRevised` reaches a success that turns into a failure. A terminal status is final
  exactly if the run is cancelled with neither a failed step nor success throughout, failed with a
  failed step, or succeeded without gates (`Finality.FinalIff`, `Finality.OutcomeIsFinalIff`); its
  records are final exactly if no lease is out (`Finality.RecordsAreFinalIff`).
* The PostgreSQL lease column is a signed 64-bit integer holding the earliest expiry of a run. A
  deadline beyond it is accepted while another lease of the run fits, and refused otherwise
  (`PostgresAnswers.ClaimGrantedIff`). Once accepted it can block the completion of the other step and
  the recovery of the row, and one blocked row makes recovery fail for every run until somebody
  touches that row: `PostgresAnswers.RefusedExactly`, `PostgresTheorems.Starves`,
  `Witnesses.RecoveryIsStarved`. The two repositories stay in step exactly while no such refusal
  happens: `LockstepSystem.AlwaysInStepIff`, `Witnesses.RepositoriesPart`.
* A multiplier of 0 lets every delay but the first vanish: `Policy.DelayBounds` and
  `Policy.DelayMonotone` say so exactly.
* The validator may decrement an indegree below zero, exactly if every set of ids that holds all steps
  it makes ready decrements some indegree more often than it allows (`Workflows.Underflows`, promised by
  `Workflows.Validate`). That needs a repeated step id, which the caller can avoid through `add_step`
  (`Workflows.DistinctNeverUnderflows`); a repeated id can do it (`Workflows.RepeatedUnderflows`) but
  need not (`Workflows.RepeatedHarmlessly`).
* An expired attempt counts against the budget, so crashes can bring in a fallback although the primary
  task works. With tasks that answer the same in every attempt this is the only way in which expired
  leases show in the outputs of a run that went through: `StoredAnswers.ExpiriesAreInvisibleIff`.

## Model

| member | source | states |
|---|---|---|
| Policy.DelayBounds | src/policy.rs:25-33 | the delay never exceeds the larger of cap and initial delay, and is at least the initial delay exactly if the multiplier is not 0 or it is the first |
| Policy.DelayMonotone | src/policy.rs:25-33 | the delay does not fall from one attempt to a later one, exactly unless the multiplier is 0 and the first delay is left behind |
| Policy.DelayIsIdealIff | src/policy.rs:25-33 | the delay equals the clamped exponential on unbounded integers exactly if the power fits 32 bits and attempt 21 is not passed (or the multiplier is at most 1), or the cap is already reached |
| Policy.ForAttemptIsClampedFactor | src/policy.rs:25-33 | the chain of saturating operations on bounded integers equals one clamped product |
| Policy.BackoffStopsAtExponentTwenty | src/policy.rs:29-31 | attempt 22 with multiplier 2 waits half as long as the exponential asks, although the power fits 32 bits |
| Policy.AbleIff | src/policy.rs:122-141 | a worker supports a task for a step exactly if it has the processor time, the memory, the graphics units and every capability the step demands, is in the region demanded if any, and lists the capability of the task or none at all |
| Evaluation.LastGateIsStored | src/evaluation.rs:56-64 | the decision stored under a metric is that of the last gate on it |
| Evaluation.StoredIsLastGate | src/evaluation.rs:56-64 | every stored decision stems from such a gate |
| Evaluation.PassIffLastGatesPass | src/evaluation.rs:35-64 | the decisions all pass exactly if the last gate on each metric passes |
| Evaluation.DecisionsSpeakForAllGatesIff | src/evaluation.rs:35-64 | the decisions pass exactly if every gate passes, for all metrics, exactly if no gate demands more than the last gate on its metric |
| Evaluation.PassIffAllGatesPass | src/evaluation.rs:35-64 | with distinct metric names, a special case, the decisions pass exactly if every gate passes |
| Evaluation.GatesCanPass | src/evaluation.rs:35-64 | every list of gates is satisfied by some metrics |
| Evaluation.GatesCanFail | src/evaluation.rs:35-64 | without metrics the decisions pass exactly if there are no gates |
| Evaluation.EarlierGateIsForgotten | src/evaluation.rs:56-64 | two gates on one metric of which the failing one goes unnoticed |
| Evaluation.EvaluateExplains | src/evaluation.rs:33-52 | a decision names its gate's metric, threshold and direction and the first value reported for the metric, and passes exactly if that value is on the right side |
| Evaluation.GatesDecide | src/evaluation.rs:54-64 | there is a decision exactly for the metrics gates ask for, each explained by the last gate on it; they all pass exactly if each of these gates is met |
| Workflows.Validate | src/workflow.rs:67-130 | accepts exactly the non-empty workflows that have a topological order; accepted ids are distinct; the unknown dependency reported is the first one; an indegree goes below zero exactly if `Underflows` holds of a non-empty workflow with known dependencies, and then the answer is a cycle |
| Workflows.Drain | src/workflow.rs:105-128 | the worklist terminates and visits as many steps as there are exactly if a topological order exists; an indegree goes below zero exactly if every set of ids closed under becoming ready overdraws some indegree |
| Workflows.Release | src/workflow.rs:106-123 | popping a step keeps degrees equal to unmet dependencies (repeats included) and the queue equal to the steps at zero; a subtraction underflows exactly if some child occurs more often than its degree, never with distinct ids |
| Workflows.AccountedDecides | src/workflow.rs:105-123 | once the worklist is empty, the indegrees left over decide whether that condition holds |
| Workflows.DistinctNeverUnderflows | src/workflow.rs:117 | it fails for distinct ids, so no indegree goes below zero |
| Workflows.RepeatedUnderflows | src/workflow.rs:117 | steps a, b after a, and b again meet it |
| Workflows.RepeatedHarmlessly | src/workflow.rs:117 | two steps a without dependencies repeat an id and do not meet it |
| Workflows.BuildDependents | src/workflow.rs:92-100 | the dependents map is the exact inverse of the dependency lists, with multiplicity |
| Workflows.Roots | src/workflow.rs:101-104 | the queue starts with exactly the steps without dependencies |
| Workflows.FindUnknown | src/workflow.rs:74-85 | finds the first dependency that names no step, or none if all are known |
| Workflows.RepeatedIdsAreInvalid | src/workflow.rs:124-129 | a repeated id is rejected although nothing checks for it |
| Workflows.ExhaustedMeansCyclic | src/workflow.rs:107-128 | an exhausted worklist with steps left over means there is no topological order |
| Workflows.OrderImpliesDistinct | src/workflow.rs:67-130 | a topological order exists only for distinct ids and known dependencies |
| Workflows.WorkflowSpec.constructor | src/workflow.rs:43-50 | a new workflow has no steps and no gates |
| Workflows.WorkflowSpec.AddStep | src/workflow.rs:56-65 | refuses a known id and changes nothing, otherwise appends; ids stay distinct |
| Workflows.WorkflowSpec.AddGate | src/workflow.rs:52-54 | appends the gate |
| StepLog.AcceptedCounts | src/store.rs:728-870 | in an accepted log the numbers of successes, failures and fallback selections of a step are 0 or 1 as its replay says |
| StepLog.AcceptedReports | src/store.rs:728-870 | every event of the step stays within the bounds the replay ends with |
| StepLog.AcceptedOrder | src/store.rs:728-870 | attempts start in increasing order and only after every attempt ended before, be it by success, failure, retry or choice of the fallback; nothing follows the end of the step |
| StepLog.BoundsWereReported | src/store.rs:728-870 | each bound of the replay was reported by an event |
| StepInvariant.ClaimKeeps | src/store.rs:1074-1119 | leasing an available step keeps record, history, issued claims and log in agreement and within budget |
| StepInvariant.LeaseNamesLastClaim | src/store.rs:1157-1166 | the token of a live lease is that of the last claim and of no other |
| StepInvariant.CompleteKeeps | src/store.rs:1198-1225 | a matching completion of the last claim keeps them in agreement |
| StepInvariant.RecoverKeeps | src/store.rs:640-700 | recovering an expired lease keeps them in agreement and moves the step on: the same task while the budget lasts, then an unused fallback, otherwise failure, told by the matching event |
| StepInvariant.CancelKeeps | src/store.rs:1340-1357 | cancelling keeps them in agreement |
| RunInvariant.ClaimKeepsRun | src/store.rs:1007-1133 | claiming keeps the run invariant |
| RunInvariant.RenewKeepsRun | src/store.rs:1135-1169 | renewing keeps it |
| RunInvariant.CompleteKeepsRun | src/store.rs:1171-1246 | completing with an issued claim keeps it |
| RunInvariant.HolderIsLast | src/store.rs:1188-1196 | an issued claim that holds its lease is the last one of its step, with its attempt number and fallback flag |
| RunInvariant.RecoverKeepsRun | src/store.rs:640-700 | recovering one step keeps it |
| RunInvariant.CancelKeepsRun | src/store.rs:1331-1374 | cancelling keeps it |
| RunInvariant.FinishKeepsRun | src/store.rs:1274-1329 | finishing keeps it, whatever the status was |
| RunInvariant.RecordKeepsRun | src/store.rs:1248-1272 | an accepted report keeps it, and only step starts and retries are ever accepted |
| RunTheorems.DeadlockFree | src/store.rs:1021-1061 | a running run has a failed step, or has succeeded throughout, or a step is leased, or every worker able to run some step gets a claim once its backoff is over |
| RunTheorems.AttemptBudget | src/store.rs:1037-1119 | attempts equal history entries equal issued claims, numbered from 1; at most the budget, plus one only for a fallback whose primary used up the whole budget |
| RunTheorems.ClaimsBounded | src/store.rs:1037-1047 | the claims ever issued are bounded by the sum of the step budgets |
| RunTheorems.StableInputs | src/store.rs:497-505 | any two claims of a step carry the same input: an object with exactly "run_input", the run's input, and "dependencies", an object with exactly the ids the step depends on, each with the output of its succeeded record |
| RunTheorems.FallbackDiscipline | src/store.rs:585-693 | a step fails only without a fallback or after its fallback ran; the fallback is chosen once and kept; each claim names the task of its phase |
| RunTheorems.LogAgrees | src/store.rs:728-870 | a step has one success, failure or fallback event exactly if its record says so, and never two |
| RunTheorems.LogReports | src/store.rs:728-870 | ends carry the record's attempt count, starts and retries an attempt already made, fallback events the configured task |
| RunTheorems.LogIsOrdered | src/store.rs:728-870 | starts increase, an attempt never starts after its end, be it by success, failure, retry or choice of the fallback; nothing of a step follows its end |
| RunTheorems.RunOutcome | src/store.rs:1286-1309 | success means every step succeeded and all decisions passed; failure without a failed step means all succeeded and a gate failed; the last finish event is the status; and finishing gives the verdict of the next row |
| RunTheorems.FinishGivesVerdict | src/store.rs:1284-1321 | finishing fails a run with a failed step, gives a run all of whose workflow steps succeeded success or failure as the last gate on each metric is met, and leaves any other status; metrics, decisions, error and log follow |
| RunTheorems.RecoverPrefix | src/store.rs:1383-1408 | after the first n steps exactly their expired leases are recovered and the invariant holds |
| RunTheorems.RecoveryIsExact | src/store.rs:1376-1413 | recovery of a run returns exactly the expired steps, each once and in workflow order, leaves no expired lease and every other record unchanged; each recovered step keeps its task while the budget lasts, then turns to an unused fallback, otherwise fails, may go on at once, and is told by one event |
| RunTheorems.RecoveryAnnounces | src/store.rs:1383-1408 | the events recovery appends tell the expired steps in workflow order, and a failed one leaves its error on the run |
| Effects.CreateStarts | src/store.rs:956-979 | a new run is as requested, running, with nothing done and its start logged |
| Effects.ClaimableIffReady | src/store.rs:1021-1047 | a step is claimable exactly if its dependencies succeeded, it is not leased, new or waiting, due, with an attempt left, and the worker is able to run its next task |
| Effects.NextIsFirstReady | src/store.rs:1021-1061 | the step claimed is the first such step in workflow order, and none is claimed exactly if there is none |
| Effects.InputCarries | src/store.rs:497-505 | the input built has exactly the run's input and the dependencies' outputs, each under its own name |
| Effects.ClaimLeases | src/store.rs:1073-1131 | the record is leased to the worker under the token until now plus the lease, its new attempt is open, the claim names it with its task and input, and nothing else changes |
| Effects.HoldsIffOwns | src/store.rs:1157-1166 | a lease is held exactly by its worker under its token before its expiry |
| Effects.RenewExtends | src/store.rs:1167-1168 | renewing changes the expiry and the revision and nothing else |
| Effects.MatchesIffPresentable | src/store.rs:563-636 | exactly four forms of completion fit a claim: success, retry within the budget, the configured fallback, failure without one |
| Effects.CompleteCommits | src/store.rs:1203-1236 | the record takes over the completion, artifacts included, its attempt is closed, its wait is commit time plus delay; a failure is the run's error; nothing else changes |
| Effects.ValidIffReportable | src/store.rs:728-870 | a report is valid exactly if it is true of the run and nothing of the same kind is logged |
| Effects.FinishJudges | src/store.rs:1284-1321 | status, error, metrics, decisions and log after finishing, from the records, the gates and the values alone, for any run |
| Effects.CancelStops | src/store.rs:1339-1366 | finished records stay, all others are cancelled with their open attempt closed; one event |
| Effects.RecoverMovesOn | src/store.rs:640-700 | which way an expired step goes, with every field of its record and the event |
| Effects.RecoverRecovers | src/store.rs:1390-1408 | recovering one step changes its record, the log and, on failure, the error of the run |
| RunMachine.MoveKeeps | src/store.rs:921-1413 | every legal move of a run keeps the invariant |
| RunMachine.SuccessIsFinal | src/store.rs:1376-1413 | a success and its output are never revised |
| RunMachine.RetiredStays | src/store.rs:1157-1166 | a claim that no longer holds its step never holds it again |
| RunMachine.CompletionRetires | src/store.rs:1188-1225 | completing retires the claim |
| RunMachine.RetryStartsWaiting | src/store.rs:1218-1220 | a retry with a delay makes the step wait until commit time plus delay |
| RunMachine.WaitingLasts | src/store.rs:1040-1042 | the wait lasts, and the next attempt is not claimed before its end |
| Finality.FinalIff | src/store.rs:1286-1309 | no metrics change a terminal status exactly if the run is cancelled with neither a failed step nor success throughout, failed with a failed step, or succeeded without gates |
| Finality.FinalStays | src/store.rs:921-1413 | no move changes such an outcome |
| Finality.FinalForGood | src/store.rs:921-1413 | no history changes it |
| Finality.OutcomeIsFinalIff | src/store.rs:1274-1329 | a terminal status survives whatever clients do exactly if it is one of these; otherwise a single finish changes it |
| Finality.RecordsAreFinalIff | src/store.rs:1171-1413 | the records of a terminal run survive whatever clients do exactly if no lease is out |
| Finality.RowOutcomeIsFinalIff | src/postgres.rs:642-695 | the same characterisation of final outcomes for the rows of PostgreSQL |
| Witnesses.SuccessIsRevised | src/store.rs:1286-1309 | a reachable success that turns into a failure when the run is finished without metrics |
| MemoryStore.ValidateRequest | src/store.rs:872-919 | accepts exactly requests with a valid workflow whose manifest matches and covers every task and fallback |
| MemoryStore.HighestHistoryToken | src/postgres.rs:194-201 | the maximum token in the retained history, 0 without one |
| MemoryStore.HighestLeaseToken | src/store.rs:360-373 | the maximum token of the live leases, which restoring a snapshot takes together with the history |
| MemoryStore.HighestSequence | src/store.rs:375-381 | the maximum sequence in the log of the snapshot |
| MemoryStore.InMemoryRunStore.AppendToRun | src/store.rs:521-539 | one envelope with the next sequence joins the run's log and the global log |
| MemoryStore.InMemoryRunStore.Create | src/store.rs:922-979 | in-place creation equals its function on the store, which `CreateDoes` spells out case by case |
| MemoryStore.InMemoryRunStore.ClaimNext | src/store.rs:1007-1133 | in-place claim equals its function on the store, which `ClaimDoes` spells out |
| MemoryStore.InMemoryRunStore.Renew | src/store.rs:1135-1169 | in-place renewal equals its function on the store, which `RenewDoes` spells out |
| MemoryStore.InMemoryRunStore.Complete | src/store.rs:1171-1246 | in-place completion equals its function on the store, which `CompleteDoes` spells out |
| MemoryStore.InMemoryRunStore.Record | src/store.rs:1248-1272 | in-place event recording equals its function on the store, which `RecordDoes` spells out |
| MemoryStore.InMemoryRunStore.Finish | src/store.rs:1274-1329 | in-place finishing equals its function on the store, which `FinishDoes` spells out |
| MemoryStore.InMemoryRunStore.Cancel | src/store.rs:1331-1374 | the loop over the steps equals cancellation of the whole run |
| MemoryStore.InMemoryRunStore.RecoverOne | src/store.rs:1390-1408 | one step is recovered and published exactly if its lease has expired, as `RecoverOneDoes` spells out |
| MemoryStore.InMemoryRunStore.RecoverOneRun | src/store.rs:1383-1408 | the inner loop over the steps equals recovery of the run |
| MemoryStore.InMemoryRunStore.RecoverExpired | src/store.rs:1376-1413 | the nested loops visit every run once, in some order, and equal recovery along that order |
| MemoryStore.InMemoryRunStore.SaveSnapshot | src/store.rs:336-384 | restoring rewrites the index and raises both counters |
| MemoryStore.InMemoryRunStore.ReadEvents | src/store.rs:1415-1433 | an unknown run is an error; otherwise the answer picks, in log order, exactly the envelopes with a higher sequence |
| MemoryEffects.CreateDoes | src/store.rs:922-979 | which answer each case of a request gets, in which order, and the whole new store |
| MemoryEffects.ClaimDoes | src/store.rs:1007-1133 | the first ready step is leased under the next token, nothing is published; otherwise nothing changes |
| MemoryEffects.RenewDoes | src/store.rs:1135-1169 | an owned lease is extended; otherwise an unknown run or a lost lease and no change |
| MemoryEffects.CompleteDoes | src/store.rs:1171-1246 | lost lease before invalid completion; otherwise the completion is committed, published and answered |
| MemoryEffects.RecordDoes | src/store.rs:1248-1272 | a true and new report is logged, published and answered, any other refused |
| MemoryEffects.FinishDoes | src/store.rs:1274-1329 | the run is judged and answered; its finish is published exactly if the status changed |
| MemoryEffects.CancelDoes | src/store.rs:1331-1374 | a running run is stopped and that is published; any other is answered unchanged |
| MemoryEffects.RecoverOneDoes | src/store.rs:1390-1408 | recovering a step changes its run alone and publishes one event |
| MemoryEffects.SaveDoes | src/store.rs:336-384 | the snapshot replaces its run, index and counters become exactly what they must |
| MemoryEffects.FinishDecides | src/store.rs:1274-1329 | after any history finishing gives every stored run its verdict |
| MemoryEffects.InputsAreExact | src/store.rs:1121-1131 | after any history every claim ever handed out carries exactly the run's input and its dependencies' outputs |
| MemoryTraces.IndexKept | src/store.rs:336-384 | any call with any claim and any snapshot keeps index and counters right |
| MemoryTraces.IndexAlways | src/store.rs:336-384 | after every history, restored snapshots included, the index is the exact inverse of the runs' keys and both counters dominate every retained token and sequence |
| MemoryTraces.CountersNeverFall | src/store.rs:360-381 | no history, restored snapshots included, lowers either counter |
| MemoryTraces.RetainedStaysBelow | src/store.rs:360-381 | a token or sequence retained at any point stays at or below the counters from then on, even if a snapshot drops it |
| MemoryTraces.KnownKeyFindsRun | src/store.rs:926-948 | a known key always leads to its stored run, and repeating a matching request returns it and changes nothing |
| MemoryFencing.AlwaysForward | src/store.rs:921-1413 | without restored snapshots no retired lease comes back, no event is lost, no run returns to running |
| MemoryFencing.RetiredIffRefused | src/store.rs:1157-1196 | a claim with a drawn token is refused at every time exactly if no lease answers to it |
| MemoryFencing.RetiredForever | src/store.rs:1157-1196 | such a claim is refused for renewal and completion for good, as long as no snapshot is restored, and the refusals change nothing |
| MemoryFencing.CallRevivesIff | src/store.rs:336-384 | of all calls exactly the restoring of a snapshot of its run that holds its lease revives it |
| MemoryFencing.SaveRevivesIff | src/store.rs:382 | restoring a snapshot lets a refused claim through exactly if the snapshot holds its lease |
| MemoryFencing.RetiredAcrossSaves | src/store.rs:336-384 | short of such a snapshot a retired claim is refused for good, however often the store is restored |
| MemoryFencing.RefusedThroughoutIff | src/store.rs:336-384 | over whole histories: the claim is refused at every point exactly if no snapshot restored on the way holds its lease |
| MemoryFencing.CommitsOnce | src/store.rs:1171-1246 | after a successful completion no call with that claim succeeds again, as long as no snapshot is restored |
| Witnesses.RestoredClaimCommitsAgain | src/store.rs:336-384 | restoring the snapshot taken before a completion always lets the same claim commit again |
| Witnesses.SomeClaimCommitsTwice | src/store.rs:336-384 | a store reached by creating a run and claiming its step in which this happens |
| MemoryFencing.TokensIncrease | src/store.rs:1074-1075 | a new claim's token is one above the counter and exceeds every token retained at any earlier point in any run, restored snapshots in between included |
| MemoryFencing.LeftRunningForGood | src/store.rs:1021-1023 | a run that left running never returns and hands out no claim, as long as no snapshot is restored |
| MemoryFencing.CreateIsIdempotent | src/store.rs:926-948 | repeating an accepted request with its key returns the same run with nothing changed, after any history whose restored snapshots of that run carry its key and payload |
| MemorySystem.Refines | src/store.rs:921-1413 | each client operation is one legal move of every stored run |
| MemorySystem.Reachable | src/store.rs:921-1413 | every state clients can reach satisfies the invariants |
| MemoryTheorems.NeverStuck | src/store.rs:1021-1061 | freedom from deadlock in every reachable state |
| MemoryTheorems.ClaimsStayBounded | src/store.rs:1037-1047 | all claims issued over any history of a run stay within the total budget |
| MemoryTheorems.InputsNeverChange | src/store.rs:1121-1131 | two claims of one step, however far apart in a history, carry the same step and input |
| MemoryTheorems.LiveOrRetired | src/store.rs:1157-1196 | every issued claim is the last one of a running step or retired: completion, recovery, cancellation and a newer claim all retire it |
| MemoryTheorems.BackoffRespected | src/store.rs:1040-1220 | after an accepted completion that asks for a delayed retry, and any operations after it, no worker gets the next attempt before commit time plus delay |
| MemoryTheorems.WaitRespected | src/store.rs:1040-1042 | a waiting step keeps its due time over any history and is not handed out earlier |
| MemoryTheorems.CancelledForGood | src/store.rs:1274-1374 | the cancelled ones among the final outcomes keep their records as well |
| MemoryTheorems.RecoveryCompletes | src/store.rs:1376-1413 | recovery of the whole store returns exactly the expired leases, each once, leaves none, moves each step on as its budget and fallback ask for, and changes no other record and no other run |
| MemoryStream.StreamAlways | src/store.rs:521-539 | each run's log is the projection of the global log, its events are the payloads, the global log is numbered from 1 without gaps; as long as no snapshot is restored |
| MemoryStream.ReadsTheRest | src/store.rs:1415-1433 | reading from the last seen sequence returns exactly the rest of the log |
| MemoryStream.ReadsExactlyOnce | src/store.rs:1415-1433 | a polling consumer receives every event exactly once, in order, whatever happens between polls short of restored snapshots |
| MemoryStream.ReadsEverything | src/store.rs:1415-1433 | so does a consumer that starts after any history without restored snapshots |
| Durable.BuildManifest | src/durable.rs:414-440 | succeeds exactly if every task and fallback is registered, and then is for the workflow and its gates and holds exactly their specifications |
| Durable.ValidateWorkflow | src/durable.rs:388-412 | passes exactly if every task is registered under its own id and every fallback is registered; otherwise the error is the first reason at the first step |
| Durable.Submit | src/durable.rs:104-128 | submits exactly valid workflows with found tasks, as a request with the manifest, input and key given; the repository then never calls the request invalid |
| Durable.CompletionReports | src/durable.rs:338-385 | an output is reported as success; a transient error or timeout within the budget as a retry after the wait of the policy; any other error as the fallback, if unused, or as failure |
| Durable.ReportsAreNeverInvalid | src/durable.rs:338-385 | for an issued claim the completion built from any task result is the one above and is committed or answered with a lost lease, never as invalid |
| Durable.StartIsAccepted | src/durable.rs:287-297 | the start report made right after a claim is accepted |
| StepLoop.TurnOf | src/runtime.rs:275-374 | each turn of the loop ends it with exactly an output or an error, or strictly uses up budget |
| StepLoop.UnregisteredFails | src/runtime.rs:276-281 | a task that is not registered ends the loop with that error |
| StepLoop.Run | src/runtime.rs:275-400 | the loop terminates with success and an output or failure and an error |
| StepLoop.ExecuteStep | src/runtime.rs:260-400 | the loop with its mutable variables equals the recursive form |
| LoopRefinement.TurnAgrees | src/runtime.rs:275-374 | one turn of the loop and one claim, report and completion of the durable path correspond, unless the error is permanent with budget left and no fallback; before a repetition the stored step waits as long as the policy says |
| LoopRefinement.RetryWaits | src/durable.rs:344-363 | after a transient error or timeout with budget left the stored step is due after the wait of the policy |
| LoopRefinement.LoopRefinesDurable | src/runtime.rs:260-400 | loop and durable path agree on status, task, attempts, fallback, output, error and events exactly if no permanent error ends the primary early without a fallback |
| LoopRefinement.LoopRepeatsPermanentErrors | src/runtime.rs:356-375 | on a permanent error with budget left and no fallback the loop makes more attempts than the durable path |
| DriveBehaviour.AttemptIsLegal | src/durable.rs:231-386 | an attempt of the durable path is a sequence of legal moves of the repository's run |
| DriveBehaviour.DriveIsBehaviour | src/durable.rs:231-284 | so is the whole execution of a step, whatever tokens are drawn |
| DriveBehaviour.LoopIsBehaviour | src/runtime.rs:260-400 | hence what the in-memory loop does to a step is a behaviour of the repository, with the same events and outcome |
| WholeRuns.MoveOnCourse | src/durable.rs:286-386 | every move of workers that report what the task answered, on any steps in any order and while no lease expires, keeps each record where the in-memory loop would have it |
| WholeRuns.StoredResultsAgree | src/runtime.rs:118-155 | so every stored success is the result of the recursive evaluation, and so is every failure but one on an early permanent error without fallback |
| WholeRuns.DurableAgreesWithLocal | src/runtime.rs:84-182 | a durable run at its verdict has the status, decisions and results the in-memory executor gives the same job |
| WholeRuns.HistoryOnCourse | src/store.rs:921-1413 | in any history of such moves, with any interleaving of workers, cancellations and other runs, the run stays on that course |
| WholeRuns.WorkersAgreeWithExecutor | src/durable.rs:231-386 | hence durable workers and the in-memory executor agree on whole runs in histories in which no lease of the run expires |
| StoredAnswers.SucceedsByCompletion | src/store.rs:921-1413 | a step succeeds only by the completion of a claim of it, and a success stays as it is |
| StoredAnswers.MoveAnswered | src/durable.rs:286-386 | a move whose report is true keeps every stored success the task's answer |
| StoredAnswers.HistoryAnswered | src/store.rs:921-1413 | in any history with true reports, expired leases included, each stored success is what the recorded task answered in the recorded attempt on the stored outputs of the dependencies |
| StoredAnswers.LoopReachesFallback | src/runtime.rs:260-400 | the in-memory loop ends with the fallback's answer if the primary task fails in every attempt |
| StoredAnswers.OutputsAgreeIff | src/runtime.rs:118-155 | with tasks that answer the same in every attempt, a run whose steps succeeded holds the outputs of the recursive evaluation exactly if each fallback chosen replaced an error or the same output |
| StoredAnswers.ExpiriesAreInvisibleIff | src/durable.rs:231-386 | so over every history with true reports, however many leases expire |
| StoredAnswers.CrashedWorkersAgreeWithExecutor | src/durable.rs:231-386 | under that condition the run has the verdict, decisions and outputs of the in-memory executor |
| Scheduler.SolutionUnique | src/runtime.rs:118-155 | the recursive equations over the dependencies have at most one solution |
| Scheduler.Solution | src/runtime.rs:118-155 | they have one for every acyclic workflow |
| Scheduler.EvaluationComputes | src/runtime.rs:442-462 | each record of the evaluation is what its step makes of an input that carries exactly the job's input and its dependencies' outputs |
| Scheduler.ReadySteps | src/runtime.rs:423-437 | exactly the steps without a record whose dependencies succeeded |
| Scheduler.ProgressPossible | src/runtime.rs:119-124 | while a step is missing and none failed some step is ready, so the no-progress branch is never taken |
| Scheduler.RunChunk | src/runtime.rs:125-141 | running a chunk of ready steps adds the records of the recursive evaluation and its events, step after step in the order of the chunk |
| Executor.ValidateTasks | src/runtime.rs:184-231 | passes exactly if every task and fallback is registered and the worker meets every demand of the steps, one by one; otherwise the error is the first reason at the first step |
| Executor.RunReady | src/runtime.rs:125-151 | chunk by chunk, either all ready steps are added in order or the run stops failed after the chunk with the first failure, with the error of its first failed step in the order of ids |
| Executor.AtMostIff | src/runtime.rs:143-150 | the order of ids is that of the record map: character by character, a prefix first |
| Executor.Schedule | src/runtime.rs:118-155 | the loop terminates with the whole recursive evaluation or with a failed step of it; the steps run are the first ones of the rounds, in workflow order within a round |
| Executor.ExecuteWithMetrics | src/runtime.rs:84-182 | refuses exactly invalid or unserved workflows; otherwise the run is the recursive evaluation judged by the gates, or failed, with the error of its first failed step, if a step of it fails; every record is what its step makes of the run's input and its dependencies' outputs; the log is the start, the events of the steps run, round by round in workflow order, and the finish; no step before the last chunk failed |
| Executor.ParallelismIsInvisible | src/runtime.rs:125-155 | two executions with any degrees of parallelism end with the same status and decisions, and without a failing step with the same records and the very same log |
| PostgresStore.FindEarliestExpiry | src/postgres.rs:140-147 | the minimum expiry over all live leases |
| PostgresStore.PostgresRunStore.PersistLocked | src/postgres.rs:165-192 | writes the row with its columns, or refuses a deadline beyond the column or a revision that is not higher |
| PostgresStore.PostgresRunStore.CreateRun | src/postgres.rs:267-359 | the transaction equals its function on the table, which `CreateDoes` spells out case by case |
| PostgresStore.PostgresRunStore.ClaimNextStep | src/postgres.rs:399-518 | the same for claiming, spelled out by `ClaimDoes` |
| PostgresStore.PostgresRunStore.RenewStep | src/postgres.rs:520-555 | the same for renewing, spelled out by `RenewDoes` |
| PostgresStore.PostgresRunStore.CompleteStep | src/postgres.rs:557-618 | the same for completing, spelled out by `CompleteDoes` |
| PostgresStore.PostgresRunStore.RecordEvent | src/postgres.rs:620-640 | the same for recording, spelled out by `RecordDoes` |
| PostgresStore.PostgresRunStore.FinishRunRow | src/postgres.rs:642-695 | the same for finishing, spelled out by `FinishDoes` |
| PostgresStore.PostgresRunStore.CancelRunRow | src/postgres.rs:697-736 | the same for cancelling, spelled out by `CancelDoes` |
| PostgresStore.PostgresRunStore.RecoverLoaded | src/postgres.rs:753-776 | the inner loop equals recovery of the loaded run, spelled out by `RecoverRowDoes` |
| PostgresStore.PostgresRunStore.RecoverExpired | src/postgres.rs:738-787 | the selected rows are recovered in some order; an error leaves the table as it was |
| PostgresStore.PostgresRunStore.Save | src/postgres.rs:212-247 | the upsert refuses a revision that is not higher and a key held by another run |
| PostgresEffects.PersistDoes | src/postgres.rs:165-192 | a run is written exactly if its leases fit the column and it raises the revision of its row |
| PostgresEffects.CreateDoes | src/postgres.rs:267-359 | which answer each case of a request gets, and the new row |
| PostgresEffects.ClaimDoes | src/postgres.rs:399-518 | the first ready step is leased under the token after the row's history, with its backoff mark cleared, or the answer is a storage error |
| PostgresEffects.RenewDoes | src/postgres.rs:520-555 | the same change and errors as in memory, or a storage error |
| PostgresEffects.CompleteDoes | src/postgres.rs:557-618 | likewise for completing, with the sequence after the row's log |
| PostgresEffects.RecordDoes | src/postgres.rs:620-640 | likewise for recording |
| PostgresEffects.FinishDoes | src/postgres.rs:642-695 | likewise for finishing; nothing is written if status, metrics and decisions are the same |
| PostgresEffects.CancelDoes | src/postgres.rs:697-736 | likewise for cancelling |
| PostgresEffects.RecoverRowDoes | src/postgres.rs:753-776 | a row without an expired lease is left alone, any other recovered and written with one more revision |
| PostgresEffects.SaveDoes | src/postgres.rs:212-247 | an upsert needs a writable run, a free key and a higher revision, and then replaces the row |
| PostgresEffects.FinishDecides | src/postgres.rs:642-695 | after any history finishing gives every stored run its verdict, if the row can be written |
| PostgresEffects.InputsAreExact | src/postgres.rs:438-518 | after any history every claim ever handed out carries exactly the run's input and its dependencies' outputs |
| PostgresSystem.PersistNeverConflicts | src/postgres.rs:165-192 | writing back a locked run with a raised revision is never a conflict and keeps the columns exact |
| PostgresAnswers.Answers | src/postgres.rs:399-736 | every operation on one run either leaves the table alone with an expected error or none, or writes exactly the row meant, or ends in a storage error with nothing changed because that row cannot be written |
| PostgresAnswers.RefusedIff | src/postgres.rs:266-787 | an operation is a storage error exactly if the row it means to write, or one recovery selects, is left with leases that all expire beyond the column; nothing changes then |
| PostgresAnswers.RefusedExactly | src/postgres.rs:140-192 | in terms of the stored rows: exactly a claim or renewal beyond the column with no other lease that fits, a completion that leaves only leases beyond it, and a recovery with a blocked row |
| PostgresAnswers.ClaimGrantedIff | src/postgres.rs:399-518 | when a step is claimable the claim is granted exactly if its deadline or another lease of the run fits the column |
| PostgresAnswers.LongLeaseBlocksCompletion | src/postgres.rs:557-618 | a matching completion by the lease holder is refused with a storage error exactly if other leases remain and all of them expire beyond the column |
| PostgresAnswers.RowsOutcome | src/postgres.rs:753-784 | the visit of the rows succeeds exactly if none of them is left, after its expired leases, with leases that all expire beyond the column |
| PostgresAnswers.RecoverAnswer | src/postgres.rs:738-787 | recovery is a storage error that changes no row exactly if some row is blocked in this way, and succeeds otherwise |
| PostgresSystem.RecoveryQueryIsExact | src/postgres.rs:738-752 | the query selects exactly the rows with an expired lease |
| PostgresSystem.Refines | src/postgres.rs:266-787 | each operation is one legal move of every stored run, up to the revision |
| PostgresSystem.UnchangedVerdict | src/postgres.rs:655-664 | when status, metrics and decisions are unchanged the judged run is the stored one, so skipping the write loses nothing |
| PostgresSystem.Reachable | src/postgres.rs:266-787 | every reachable table has exact columns, unique keys and runs in order |
| PostgresTheorems.NeverStuck | src/postgres.rs:399-518 | a running run has a failed step, or has succeeded throughout, or a lease is out, or a step is granted to any able worker exactly if the deadline asked for or another lease fits; unless a row is blocked recovery frees every expired lease |
| PostgresTheorems.RetiredForever | src/postgres.rs:520-618 | a claim that is not live is refused for good |
| PostgresTheorems.CommitsOnce | src/postgres.rs:557-618 | a claim commits at most once over any history |
| PostgresTheorems.NeverConflicts | src/postgres.rs:165-192 | no operation other than creation is ever answered with a conflict |
| PostgresTheorems.LeftRunningForGood | src/postgres.rs:399-518 | a run that left running never returns and hands out no claim |
| PostgresTheorems.BackoffRespected | src/postgres.rs:399-618 | after an accepted completion that asks for a delayed retry, and any operations after it, no worker gets the next attempt before commit time plus delay |
| WorkerBackoff.ReportAsks | src/durable.rs:344-363 | the report of a transient error or timeout asks for at least the promised wait: in closed form, at least the initial delay unless the multiplier is 0, the clamped power where no cap interferes |
| WorkerBackoff.MemoryWaits | src/durable.rs:344-363 | in memory, after such a report is accepted, no worker gets the next attempt before that wait has passed, whatever happens in between |
| WorkerBackoff.PostgresWaits | src/durable.rs:344-363 | the same in PostgreSQL |
| PostgresTheorems.WaitRespected | src/postgres.rs:399-518 | a waiting step keeps its due time over any history and is not handed out earlier |
| PostgresTheorems.RecoveryCompletes | src/postgres.rs:738-787 | recovery of visited rows is a storage error if one of them is blocked; otherwise it returns exactly their expired leases, each once, leaves none, moves each step on as its budget and fallback ask for, and changes no other record |
| PostgresTheorems.RecoveryLeavesNone | src/postgres.rs:738-787 | unless a row is blocked, afterwards no row holds an expired lease and the query would select none |
| PostgresTheorems.Starves | src/postgres.rs:738-787 | while nobody touches a blocked row every recovery, of whatever run, is a storage error and changes nothing |
| PostgresSnapshots.TurnedAwayIff | src/postgres.rs:520-618 | a claim of a stored run is refused at every time exactly if its row holds no lease of it |
| PostgresSnapshots.SaveRevivesIff | src/postgres.rs:212-247 | an accepted snapshot lets a claim of its run through exactly if it holds its lease |
| PostgresSnapshots.ClaimRevivesIff | src/postgres.rs:194-201 | after a snapshot without that lease the next claim on the row lets an old claim through exactly if it is for the same step and worker and the token after the snapshot's history is the old one |
| PostgresSnapshots.RestoredRowRepeatsClaim | src/postgres.rs:194-201 | the row as it was before a claim, restored with a raised revision, hands the same claim out again to the same worker, whatever became of it in between |
| Witnesses.RecoveryIsStarved | src/postgres.rs:738-787 | a reachable table in which recovery starves although a lease has long expired |
| Lockstep.HoldingIsOwnership | src/store.rs:1157-1166 | an issued claim holds its lease exactly if its attempt is the running one and the lease has not expired, whatever the tokens are |
| Lockstep.SimHolds | src/postgres.rs:520-540 | two runs equal up to tokens accept the same claims |
| Lockstep.SimRecoverSteps | src/postgres.rs:753-776 | recovery keeps two runs equal up to tokens, sequences and revision |
| LockstepSystem.InStepIff | src/postgres.rs:266-787 | one operation keeps the repositories in step, up to tokens, sequences, revisions and the backoff mark of steps that are not waiting, exactly if PostgreSQL does not answer it with a storage error |
| LockstepSystem.AlwaysInStepIff | src/postgres.rs:266-787 | through any operations both repositories hold the same runs and have issued the same claims exactly if none of them is answered with a storage error |
| LockstepSystem.AlwaysInStep | src/postgres.rs:266-787 | a special case for callers: with deadlines that fit the column they are always in step |
| Witnesses.RepositoriesPart | src/postgres.rs:140-192 | a history after which the repositories part, at a recovery and at a completion |
| Witnesses.LongClaimAloneIsRefused | src/postgres.rs:399-518 | a claim beyond the column that is refused because no other lease is out |
| LockstepSystem.SameFencing | src/postgres.rs:520-618 | while in step, a worker presenting its claim for renewal or completion is accepted in memory exactly if PostgreSQL accepts it or answers with a storage error |

## Left out

- Integer widths: lease tokens, event sequences, attempts and revisions are unbounded naturals; the source saturates them. Deadlines and delays do saturate here, and the signed expiry column is modelled.
- The clock: each operation reads one time; the source may read it again inside one operation for timestamps. The database clock is itself a signed 64-bit integer, so its conversion cannot fail. Event and creation timestamps and the ids of attempts and events are not kept.
- Texts: the messages of invalid requests and of storage errors are dropped; other error texts are kept.
- Provenance, schema versions and the JSON form of records are not modelled; metrics and thresholds are real numbers, without NaN.
- SQL, connection pools, migrations, `SKIP LOCKED` and the batch limit of recovery: a PostgreSQL operation is one atomic step on the table, and recovery visits every selected row in some order.
- The insert race of two concurrent creations (`src/postgres.rs:320-359`) does not arise between atomic steps; a revision is not converted to a signed integer.
- Iteration order of sorted maps is arbitrary here in two places: the order in which recovery visits runs, and the order of the first ready steps of the validator.
- MemorySystem.Reachable: histories of honest clients hold no restored snapshots, since a snapshot is arbitrary data; `MemoryTraces` and `MemoryFencing` cover them, and `PostgresSnapshots` those of PostgreSQL.
- claim_next_runnable_step, work_once, heartbeats, timeouts, sleeping and polling of the durable worker: sequences of the modelled operations with arbitrary times.
- Release: an indegree below zero stands for the wrapped value of the unsigned subtraction; the result then says so.
- ExecuteWithMetrics: the event sink and the snapshot store never fail here, and tasks are functions of step, task, attempt and input.
- DriveIsBehaviour: one worker drives one step of one run and its deadlines do not reach the largest time, at which no lease could be held; any number of workers on any steps are the subject of `WholeRuns`.
- AttemptIsLegal: likewise, for one attempt.
- LoopIsBehaviour: likewise, for the whole loop.
- WorkersAgreeWithExecutor: no lease expires, since an expired attempt is counted without the task having answered (`StoredAnswers` says what holds then); a failed run agrees if no step failed on an early permanent error without fallback, where `LoopRefinesDurable` shows the two differ.
- The invalid-event error of `append_run_event` is unreachable from its callers and has no counterpart.
- Artifacts, the task registry's lookup, typed task adapters, manifests' provenance and the control plane only forward data.
