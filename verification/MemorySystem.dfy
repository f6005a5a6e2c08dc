/** The in-memory repository driven by its clients: every reachable state refines the run machine,
    and the theorems about runs hold in it. */
module MemorySystem {
  import opened Types
  import opened Workflows
  import opened Evaluation
  import opened Policy
  import opened Transitions
  import opened StepInvariant
  import opened RunInvariant
  import opened RunTheorems
  import opened RunMachine
  import opened MemoryStore
  import opened MemoryTraces
  import opened MemoryFencing
  import opened Operations

  datatype System = System(store: Store, issued: IssuedClaims)

  const START: System := System(EMPTY, map[])

  /** Some order in which recovery visits the runs. */
  ghost function VisitOrder(ids: set<RunId>): (order: seq<RunId>)
    ensures NoDuplicates(order) && forall id :: id in order <==> id in ids
  {
    if ids == {} then []
    else
      var id :| id in ids;
      VisitOrder(ids - {id}) + [id]
  }

  /** The call an operation makes; none if the named claim was never handed out. */
  ghost function CallOf(x: System, op: Op): Option<Call> {
    match op
    case OpCreate(request) => Some(CallCreate(request))
    case OpClaim(run, worker, leaseMs, now) => Some(CallClaim(run, worker, leaseMs, now))
    case OpRenew(run, step, attempt, leaseMs, now) =>
      var claim := ClaimNamed(x.issued, run, step, attempt);
      if claim.Some? then Some(CallRenew(claim.value, leaseMs, now)) else None
    case OpComplete(run, step, attempt, c, now) =>
      var claim := ClaimNamed(x.issued, run, step, attempt);
      if claim.Some? then Some(CallComplete(claim.value, c, now)) else None
    case OpRecord(run, e) => Some(CallRecord(run, e))
    case OpFinish(run, metrics) => Some(CallFinish(run, metrics))
    case OpCancel(run, now) => Some(CallCancel(run, now))
    case OpRecover(now) => Some(CallRecover(VisitOrder(x.store.runs.Keys), now))
  }

  ghost function IssuedAfter(x: System, op: Op): IssuedClaims {
    match op
    case OpCreate(request) => if Creates(x.store, request) then x.issued[request.runId := map[]] else x.issued
    case OpClaim(run, worker, leaseMs, now) =>
      var answer := ClaimNextStep(x.store, run, worker, leaseMs, now).1;
      if answer.Ok? && answer.value.Some? then AddIssued(x.issued, run, answer.value.value) else x.issued
    case _ => x.issued
  }

  ghost function Perform(x: System, op: Op): System {
    var call := CallOf(x, op);
    System(if call.Some? then Apply(x.store, call.value) else x.store, IssuedAfter(x, op))
  }

  ghost function PerformAll(x: System, ops: seq<Op>): System {
    if ops == [] then x
    else Perform(PerformAll(x, ops[..|ops| - 1]), ops[|ops| - 1])
  }

  ghost function TrackedRun(x: System, id: RunId): Tracked
    requires id in x.store.runs
  {
    Tracked(x.store.runs[id], ClaimsOf(x.issued, id))
  }

  ghost predicate SystemInv(x: System) {
    && IndexInv(x.store)
    && x.issued.Keys == x.store.runs.Keys
    && (forall id :: id in x.store.runs ==> Inv(TrackedRun(x, id)))
    && IssuedOwn(x.issued)
  }

  /** Claims are filed under their own run and step. */
  ghost predicate IssuedOwn(issued: IssuedClaims) {
    forall id, step, c :: id in issued && step in issued[id] && c in issued[id][step] ==>
      c.runId == id && c.step.id == step
  }

  lemma Counters(x: System, id: RunId)
    requires IndexInv(x.store) && id in x.store.runs
    ensures TokensUpTo(x.store.runs[id], x.store.nextToken)
    ensures LogUpTo(x.store.runs[id], x.store.nextSequence)
    ensures Fresh(x.store.runs[id], x.store.nextSequence + 1)
    ensures x.store.runs[id].runId == id
  {
    hide KeysInverted;
    assert Within(x.store.runs[id], x.store.nextToken, x.store.nextSequence);
    StoredUnderId(x.store, id);
  }

  // Refinement.

  /** A named claim is presented to the run it was issued for. */
  lemma NamedClaimFits(x: System, run: RunId, step: StepId, attempt: nat)
    requires SystemInv(x) && ClaimNamed(x.issued, run, step, attempt).Some?
    ensures var claim := ClaimNamed(x.issued, run, step, attempt).value;
            claim.runId == run && claim.step.id == step && run in x.store.runs && Issued(ClaimsOf(x.issued, run), claim)
  {
    hide Inv, IndexInv;
  }

  ghost predicate RefinedBy(x: System, op: Op, id: RunId, m: Move)
    requires id in x.store.runs
  {
    && id in Perform(x, op).store.runs
    && Legal(TrackedRun(x, id), m)
    && TrackedRun(Perform(x, op), id) == Next(TrackedRun(x, id), m)
    && (m.Claim? ==> op.OpClaim? && op.run == id && m.now == op.now)
    && CarriedBy(op, id, x.issued, m)
  }

  /** One operation is one legal move of every stored run, and nothing else happens to it. */
  lemma Refines(x: System, op: Op, id: RunId) returns (m: Move)
    requires SystemInv(x) && id in x.store.runs
    ensures RefinedBy(x, op, id, m)
  {
    hide SystemInv, RefinedBy;
    match op {
      case OpCreate(_) => m := CreateRefines(x, op, id);
      case OpClaim(_, _, _, _) => m := ClaimRefines(x, op, id);
      case OpRenew(_, _, _, _, _) => m := RenewRefines(x, op, id);
      case OpComplete(_, _, _, _, _) => m := CompleteRefines(x, op, id);
      case OpRecover(_) => m := RecoverRefines(x, op, id);
      case OpRecord(_, _) => m := RecordRefines(x, op, id);
      case OpFinish(_, _) => m := FinishRefines(x, op, id);
      case OpCancel(_, _) => m := CancelRefines(x, op, id);
    }
  }

  lemma CreateRefines(x: System, op: Op, id: RunId) returns (m: Move)
    requires SystemInv(x) && id in x.store.runs && op.OpCreate?
    ensures RefinedBy(x, op, id, m)
  {
    hide Inv, IndexInv, CreateRun, Creates;
    CreateOtherRuns(x.store, op.request, id);
    m := Stay;
  }

  lemma ClaimRefines(x: System, op: Op, id: RunId) returns (m: Move)
    requires SystemInv(x) && id in x.store.runs && op.OpClaim?
    ensures RefinedBy(x, op, id, m)
  {
    hide Inv, IndexInv, Claimable, TokensUpTo, ClaimRun, LogUpTo, Fresh;
    Counters(x, id);
    m := Stay;
    if op.run == id && ClaimNextStep(x.store, id, op.worker, op.leaseMs, op.now).0 != x.store {
      var step := FirstClaimable(x.store.runs[id], op.worker, x.store.runs[id].workflow.steps, op.now).value;
      m := Claim(op.worker, step, x.store.nextToken + 1, op.leaseMs, op.now, false);
    }
  }

  lemma RenewRefines(x: System, op: Op, id: RunId) returns (m: Move)
    requires SystemInv(x) && id in x.store.runs && op.OpRenew?
    ensures RefinedBy(x, op, id, m)
  {
    hide Inv, IndexInv;
    var claim := ClaimNamed(x.issued, op.run, op.step, op.attempt);
    m := Stay;
    if claim.Some? {
      NamedClaimFits(x, op.run, op.step, op.attempt);
      if op.run == id && HoldsLease(x.store.runs[id], claim.value, op.now) {
        m := Renew(claim.value, op.leaseMs, op.now);
      }
    }
  }

  lemma CompleteRefines(x: System, op: Op, id: RunId) returns (m: Move)
    requires SystemInv(x) && id in x.store.runs && op.OpComplete?
    ensures RefinedBy(x, op, id, m)
  {
    hide Inv, IndexInv, CompletionMatches, Fresh;
    Counters(x, id);
    var claim := ClaimNamed(x.issued, op.run, op.step, op.attempt);
    m := Stay;
    if claim.Some? {
      NamedClaimFits(x, op.run, op.step, op.attempt);
      if op.run == id && CompleteStep(x.store, claim.value, op.completion, op.now).1.Ok? {
        m := Complete(claim.value, op.completion, x.store.nextSequence + 1, op.now);
      }
    }
  }

  lemma RecoverRefines(x: System, op: Op, id: RunId) returns (m: Move)
    requires SystemInv(x) && id in x.store.runs && op.OpRecover?
    ensures RefinedBy(x, op, id, m)
  {
    hide Inv, IndexInv, RecoverRuns, RecoverSteps, LogUpTo, NoDuplicates, IssuedOwn;
    var order := VisitOrder(x.store.runs.Keys);
    var last := RecoverVisits(x.store, order, id, op.now);
    m := Recover(last, op.now);
  }

  lemma RecordRefines(x: System, op: Op, id: RunId) returns (m: Move)
    requires SystemInv(x) && id in x.store.runs && op.OpRecord?
    ensures RefinedBy(x, op, id, m)
  {
    hide Inv, IndexInv, EventValid, Fresh;
    Counters(x, id);
    m := Stay;
    if op.run == id && RecordEvent(x.store, id, op.event).1.Ok? {
      m := Record(op.event, x.store.nextSequence + 1);
    }
  }

  lemma FinishRefines(x: System, op: Op, id: RunId) returns (m: Move)
    requires SystemInv(x) && id in x.store.runs && op.OpFinish?
    ensures RefinedBy(x, op, id, m)
  {
    hide Inv, IndexInv, Fresh, EvaluateGates, HasFailed, AllSucceeded, AllPassed, TokensUpTo, LogUpTo;
    Counters(x, id);
    m := if op.run == id then Finish(op.metrics, x.store.nextSequence + 1) else Stay;
  }

  lemma CancelRefines(x: System, op: Op, id: RunId) returns (m: Move)
    requires SystemInv(x) && id in x.store.runs && op.OpCancel?
    ensures RefinedBy(x, op, id, m)
  {
    hide Inv, IndexInv, Fresh, CancelRun, TokensUpTo, LogUpTo;
    Counters(x, id);
    m := if op.run == id && !Terminal(x.store.runs[id].status) then Cancel(x.store.nextSequence + 1, op.now) else Stay;
  }

  lemma CreateOtherRuns(s: Store, request: RunRequest, id: RunId)
    requires id in s.runs
    ensures id in CreateRun(s, request).0.runs && CreateRun(s, request).0.runs[id] == s.runs[id]
    ensures Creates(s, request) ==> request.runId != id
  {
    hide ValidRequest;
  }

  /** Recovery visits a run once, whatever it did to other runs before. */
  lemma {:induction false} RecoverVisits(s: Store, order: seq<RunId>, id: RunId, now: nat) returns (last: nat)
    requires IndexInv(s) && NoDuplicates(order) && id in s.runs
    ensures LogUpTo(s.runs[id], last)
    ensures RecoverRuns(s, order, now).0.runs.Keys == s.runs.Keys
    ensures id in order ==>
              RecoverRuns(s, order, now).0.runs[id] == RecoverSteps(s.runs[id], s.runs[id].workflow.steps, last, now).0
    ensures id !in order ==> RecoverRuns(s, order, now).0.runs[id] == s.runs[id]
  {
    hide IndexInv, RecoverSteps, LogUpTo;
    if order == [] {
      Counters(System(s, map[]), id);
      last := s.nextSequence;
    } else {
      var n := |order| - 1;
      var init := order[..n];
      last := RecoverVisits(s, init, id, now);
      var t := RecoverRuns(s, init, now).0;
      if order[n] == id {
        assert id !in init;
        last := t.nextSequence;
        RecoverRunsKeepIndex(s, init, now);
        Counters(System(t, map[]), id);
      } else {
        assert id in order <==> id in init;
      }
    }
  }

  lemma {:induction false} RecoverKeepsKeys(s: Store, order: seq<RunId>, now: nat)
    ensures RecoverRuns(s, order, now).0.runs.Keys == s.runs.Keys
  {
    if order != [] {
      RecoverKeepsKeys(s, order[..|order| - 1], now);
    }
  }

  /** Only creation adds a run, and it starts in order. */
  lemma RunsAfter(x: System, op: Op, id: RunId)
    requires SystemInv(x) && id in Perform(x, op).store.runs && id !in x.store.runs
    ensures op.OpCreate? && Creates(x.store, op.request) && id == op.request.runId
    ensures Inv(TrackedRun(Perform(x, op), id))
  {
    hide Inv, IndexInv, RecoverRuns, CompletionMatches, EventValid, Claimable, CreateAndLog, ValidRequest;
    if op.OpRecover? {
      RecoverKeepsKeys(x.store, VisitOrder(x.store.runs.Keys), op.now);
    }
    if op.OpCreate? {
      if Creates(x.store, op.request) {
        NewRunInOrder(x, op.request);
      } else {
        CreateOtherwise(x.store, op.request);
      }
    }
  }

  lemma NewRunInOrder(x: System, request: RunRequest)
    requires Creates(x.store, request)
    ensures var t := CreateRun(x.store, request).0;
            && request.runId in t.runs && t.runs.Keys == x.store.runs.Keys + {request.runId}
            && t.runs[request.runId] == CreateAndLog(request, x.store.nextSequence + 1)
            && Inv(Tracked(t.runs[request.runId], map[]))
  {
    hide RunInv, ValidRequest;
    CreateKeeps(request, x.store.nextSequence + 1);
  }

  lemma IssuedFit(x: System, op: Op)
    requires SystemInv(x)
    ensures IssuedOwn(IssuedAfter(x, op))
  {
    hide Inv, IndexInv, Claimable, ValidRequest;
    if op.OpClaim? && op.run in x.store.runs {
      Counters(x, op.run);
    }
  }

  lemma SameRunsStored(x: System, op: Op)
    requires SystemInv(x) && !op.OpCreate?
    ensures Perform(x, op).store.runs.Keys == x.store.runs.Keys
  {
    hide SystemInv, Perform, RefinedBy;
    forall id | id in x.store.runs ensures id in Perform(x, op).store.runs {
      var m := Refines(x, op, id);
      StillStored(x, op, id, m);
    }
    forall id | id in Perform(x, op).store.runs ensures id in x.store.runs {
      if id !in x.store.runs {
        RunsAfter(x, op, id);
      }
    }
  }

  lemma StillStored(x: System, op: Op, id: RunId, m: Move)
    requires id in x.store.runs && RefinedBy(x, op, id, m)
    ensures id in Perform(x, op).store.runs
  {
    hide Perform, Legal, Next;
  }

  lemma IssuedKeys(x: System, op: Op)
    requires SystemInv(x)
    ensures IssuedAfter(x, op).Keys == Perform(x, op).store.runs.Keys
  {
    hide Inv, IndexInv, Claimable, ClaimRun, Creates, CreateRun, IssuedOwn;
    if op.OpCreate? {
      if Creates(x.store, op.request) {
        NewRunInOrder(x, op.request);
      } else {
        CreateOtherwise(x.store, op.request);
      }
    } else {
      hide Perform;
      SameRunsStored(x, op);
    }
  }

  lemma PerformKeeps(x: System, op: Op)
    requires SystemInv(x)
    ensures SystemInv(Perform(x, op))
  {
    hide Inv, IndexInv, Perform, CallOf, IssuedAfter, Apply;
    var y := Perform(x, op);
    PerformIndex(x, op);
    IssuedKeys(x, op);
    IssuedFit(x, op);
    assert y.issued == IssuedAfter(x, op) by { PerformIssued(x, op); }
    forall id | id in y.store.runs ensures Inv(TrackedRun(y, id)) {
      if id in x.store.runs {
        var m := Refines(x, op, id);
        assert RefinedBy(x, op, id, m);
        MoveKeeps(TrackedRun(x, id), m);
      } else {
        RunsAfter(x, op, id);
      }
    }
  }

  lemma PerformIssued(x: System, op: Op)
    ensures Perform(x, op).issued == IssuedAfter(x, op)
  {
  }

  lemma PerformIndex(x: System, op: Op)
    requires IndexInv(x.store)
    ensures IndexInv(Perform(x, op).store)
  {
    hide IndexInv, Apply, IssuedAfter;
    var call := CallOf(x, op);
    if call.Some? {
      IndexKept(x.store, call.value);
    }
  }

  /** Every state the clients can reach is in order. */
  lemma {:induction false} Reachable(ops: seq<Op>)
    ensures SystemInv(PerformAll(START, ops))
  {
    hide Perform, SystemInv;
    if ops == [] {
      StartInOrder();
    } else {
      Reachable(ops[..|ops| - 1]);
      PerformKeeps(PerformAll(START, ops[..|ops| - 1]), ops[|ops| - 1]);
    }
  }

  lemma StartInOrder()
    ensures SystemInv(START)
  {
  }
}
