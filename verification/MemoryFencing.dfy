/** Fencing over whole histories: what is retired stays retired, what is logged stays logged.
    Nothing is assumed about callers; restored snapshots may bring a lease back, and when is stated
    exactly. */
module MemoryFencing {
  import opened Types
  import opened Workflows
  import opened Evaluation
  import opened Policy
  import opened Transitions
  import opened RunInvariant
  import opened RunTheorems
  import opened MemoryStore
  import opened MemoryTraces

  /** The claim would be let through at some time, and then at time 0. */
  predicate Holds(run: RunRecord, claim: StepClaim) {
    HoldsLease(run, claim, 0)
  }

  /** How one run may move on: no retired lease comes back, no event is lost, a run that has left
      `Running` does not return to it. */
  ghost predicate RunForward(a: RunRecord, b: RunRecord, bound: nat) {
    && SameConstants(a, b) && b.idempotencyKey == a.idempotencyKey
    && a.eventLog <= b.eventLog && a.events <= b.events
    && (Terminal(a.status) ==> Terminal(b.status))
    && (forall c: StepClaim :: c.leaseToken <= bound && Holds(b, c) ==> Holds(a, c))
  }

  ghost predicate Forward(s: Store, t: Store) {
    && s.nextToken <= t.nextToken
    && s.events <= t.events
    && (forall id :: id in s.runs ==> id in t.runs && RunForward(s.runs[id], t.runs[id], s.nextToken))
    && (forall id :: id in t.runs && id !in s.runs ==>
          forall c: StepClaim :: Holds(t.runs[id], c) ==> c.leaseToken > s.nextToken)
  }

  lemma ForwardRefl(s: Store)
    ensures Forward(s, s)
  {
  }

  lemma RunForwardTrans(a: RunRecord, b: RunRecord, c: RunRecord, bound: nat, bound2: nat)
    requires RunForward(a, b, bound) && RunForward(b, c, bound2) && bound <= bound2
    ensures RunForward(a, c, bound)
  {
    hide Holds;
  }

  lemma ForwardTrans(s: Store, t: Store, u: Store)
    requires Forward(s, t) && Forward(t, u)
    ensures Forward(s, u)
  {
    hide RunForward, Holds;
    forall id | id in s.runs ensures id in u.runs && RunForward(s.runs[id], u.runs[id], s.nextToken) {
      RunForwardTrans(s.runs[id], t.runs[id], u.runs[id], s.nextToken, t.nextToken);
    }
    forall id | id in u.runs && id !in s.runs
      ensures forall c: StepClaim :: Holds(u.runs[id], c) ==> c.leaseToken > s.nextToken
    {
      if id in t.runs {
        NewTokensOnly(t.runs[id], u.runs[id], s.nextToken, t.nextToken);
      }
    }
  }

  lemma NewTokensOnly(a: RunRecord, b: RunRecord, bound: nat, bound2: nat)
    requires RunForward(a, b, bound2) && bound <= bound2
    requires forall c: StepClaim :: Holds(a, c) ==> c.leaseToken > bound
    ensures forall c: StepClaim :: Holds(b, c) ==> c.leaseToken > bound
  {
    hide Holds;
  }

  /** One run replaced, events appended. */
  lemma ReplaceForward(s: Store, t: Store, id: RunId)
    requires id in s.runs && id in t.runs && t.runs == s.runs[id := t.runs[id]]
    requires s.nextToken <= t.nextToken && s.events <= t.events
    requires RunForward(s.runs[id], t.runs[id], s.nextToken)
    ensures Forward(s, t)
  {
    hide Holds;
    forall other | other in s.runs && other != id
      ensures RunForward(s.runs[other], t.runs[other], s.nextToken)
    {
    }
  }

  lemma {:induction false} RecoverStepsForward(run: RunRecord, steps: seq<StepSpec>, last: nat, now: nat, bound: nat)
    ensures RunForward(run, RecoverSteps(run, steps, last, now).0, bound)
  {
    hide RecoverRecord;
    if steps != [] {
      var init, step := steps[..|steps| - 1], steps[|steps| - 1];
      RecoverStepsForward(run, init, last, now, bound);
      var (r, m, expired) := RecoverSteps(run, init, last, now);
      if StepExpired(r, step, now) {
        RecoverStepForward(r, step, m + 1, now, bound);
        RunForwardTrans(run, r, RecoverStep(r, step, m + 1, now), bound, bound);
      }
    }
  }

  lemma RecoverStepForward(run: RunRecord, step: StepSpec, sequence: nat, now: nat, bound: nat)
    requires step.id in run.steps
    ensures RunForward(run, RecoverStep(run, step, sequence, now), bound)
  {
  }

  lemma {:induction false} RecoverRunsForward(s: Store, order: seq<RunId>, now: nat)
    ensures Forward(s, RecoverRuns(s, order, now).0)
  {
    hide Forward, RunForward, RecoverSteps;
    if order == [] {
      ForwardRefl(s);
    } else {
      var id := order[|order| - 1];
      RecoverRunsForward(s, order[..|order| - 1], now);
      var t := RecoverRuns(s, order[..|order| - 1], now).0;
      if id in t.runs {
        var steps := t.runs[id].workflow.steps;
        RecoverStepsForward(t.runs[id], steps, t.nextSequence, now, t.nextToken);
        var u := RecoverRun(t, id, steps, now).0;
        ReplaceForward(t, u, id);
        ForwardTrans(s, t, u);
      }
    }
  }

  lemma ClaimForward(s: Store, id: RunId, worker: WorkerProfile, leaseMs: nat, now: nat)
    ensures Forward(s, ClaimNextStep(s, id, worker, leaseMs, now).0)
  {
    hide Claimable;
    var t := ClaimNextStep(s, id, worker, leaseMs, now).0;
    if t != s {
      assert RunForward(s.runs[id], t.runs[id], s.nextToken);
      ReplaceForward(s, t, id);
    } else {
      ForwardRefl(s);
    }
  }

  lemma RenewForward(s: Store, claim: StepClaim, leaseMs: nat, now: nat)
    ensures Forward(s, RenewStep(s, claim, leaseMs, now).0)
  {
    var t := RenewStep(s, claim, leaseMs, now).0;
    if t != s {
      assert RunForward(s.runs[claim.runId], t.runs[claim.runId], s.nextToken);
      ReplaceForward(s, t, claim.runId);
    } else {
      ForwardRefl(s);
    }
  }

  lemma CompleteForward(s: Store, claim: StepClaim, c: StepCompletion, now: nat)
    ensures Forward(s, CompleteStep(s, claim, c, now).0)
  {
    hide CompletionMatches, Forward;
    if CompleteStep(s, claim, c, now).1.Ok? {
      var t := CompleteStep(s, claim, c, now).0;
      assert RunForward(s.runs[claim.runId], t.runs[claim.runId], s.nextToken);
      ReplaceForward(s, t, claim.runId);
    } else {
      ForwardRefl(s);
    }
  }

  lemma RecordForward(s: Store, id: RunId, e: Event)
    ensures Forward(s, RecordEvent(s, id, e).0)
  {
    hide EventValid, Forward;
    if RecordEvent(s, id, e).1.Ok? {
      var t := RecordEvent(s, id, e).0;
      assert RunForward(s.runs[id], t.runs[id], s.nextToken);
      ReplaceForward(s, t, id);
    } else {
      ForwardRefl(s);
    }
  }

  lemma FinishForward(s: Store, id: RunId, metrics: seq<Metric>)
    ensures Forward(s, FinishStoredRun(s, id, metrics).0)
  {
    hide Forward, EvaluateGates, HasFailed, AllSucceeded;
    if id in s.runs {
      var t := FinishStoredRun(s, id, metrics).0;
      assert RunForward(s.runs[id], t.runs[id], s.nextToken);
      ReplaceForward(s, t, id);
    } else {
      ForwardRefl(s);
    }
  }

  lemma CancelForward(s: Store, id: RunId, now: nat)
    ensures Forward(s, CancelStoredRun(s, id, now).0)
  {
    hide Forward;
    if id in s.runs && !Terminal(s.runs[id].status) {
      var t := CancelStoredRun(s, id, now).0;
      assert RunForward(s.runs[id], t.runs[id], s.nextToken);
      ReplaceForward(s, t, id);
    } else {
      ForwardRefl(s);
    }
  }

  lemma CreateForward(s: Store, request: RunRequest)
    ensures Forward(s, CreateRun(s, request).0)
  {
    hide ValidRequest;
  }

  lemma CallForward(s: Store, call: Call)
    requires !call.CallSave?
    ensures Forward(s, Apply(s, call))
  {
    hide Forward;
    match call {
      case CallCreate(request) => CreateForward(s, request);
      case CallClaim(id, worker, leaseMs, now) => ClaimForward(s, id, worker, leaseMs, now);
      case CallRecover(order, now) => RecoverRunsForward(s, order, now);
      case CallSave(run) =>
      case CallRenew(claim, leaseMs, now) => RenewForward(s, claim, leaseMs, now);
      case CallComplete(claim, c, now) => CompleteForward(s, claim, c, now);
      case CallRecord(id, e) => RecordForward(s, id, e);
      case CallFinish(id, metrics) => FinishForward(s, id, metrics);
      case CallCancel(id, now) => CancelForward(s, id, now);
    }
  }

  /** Every history moves forward. */
  lemma {:induction false} AlwaysForward(s: Store, calls: seq<Call>)
    requires NoSaves(calls)
    ensures Forward(s, ApplyAll(s, calls))
  {
    hide Forward, Apply;
    if calls == [] {
      ForwardRefl(s);
    } else {
      var init, last := calls[..|calls| - 1], calls[|calls| - 1];
      AlwaysForward(s, init);
      CallForward(ApplyAll(s, init), last);
      ForwardTrans(s, ApplyAll(s, init), ApplyAll(s, calls));
    }
  }

  // Fencing.

  /** A claim that no lease answers to and whose token will not be drawn again. */
  ghost predicate Retired(s: Store, claim: StepClaim) {
    claim.leaseToken <= s.nextToken && (claim.runId in s.runs ==> !Holds(s.runs[claim.runId], claim))
  }

  /** A claim can neither renew nor complete: the answer is an error and nothing changes. */
  ghost predicate Refused(s: Store, claim: StepClaim) {
    && (forall leaseMs, now :: RenewStep(s, claim, leaseMs, now).0 == s && RenewStep(s, claim, leaseMs, now).1.Err?)
    && (forall c, now :: CompleteStep(s, claim, c, now).0 == s && CompleteStep(s, claim, c, now).1.Err?)
  }

  /** A claim with a drawn token is retired exactly if it is refused, whatever the time. */
  lemma RetiredIffRefused(s: Store, claim: StepClaim)
    requires claim.leaseToken <= s.nextToken
    ensures Retired(s, claim) <==> Refused(s, claim)
  {
    hide CompletionMatches;
    if !Retired(s, claim) {
      assert RenewStep(s, claim, 0, 0).1.Ok?;
    }
  }

  /** Once retired, a claim is refused for good, whatever happens in between. */
  lemma RetiredForever(s: Store, claim: StepClaim, calls: seq<Call>)
    requires Retired(s, claim) && NoSaves(calls)
    ensures Retired(ApplyAll(s, calls), claim) && Refused(ApplyAll(s, calls), claim)
  {
    hide ApplyAll, Refused, Holds;
    AlwaysForward(s, calls);
    RetiredIffRefused(ApplyAll(s, calls), claim);
  }

  // Restored snapshots.

  /** The call restores a snapshot of the claim's run that still holds its lease; a caller can check
      this before each save. */
  ghost predicate Revives(s: Store, call: Call, claim: StepClaim) {
    call.CallSave? && call.snapshot.runId == claim.runId && Holds(call.snapshot, claim) && Save(s, call.snapshot).1.Ok?
  }

  /** One call leaves a retired claim retired exactly if it does not revive it in this way. */
  lemma CallRevivesIff(s: Store, call: Call, claim: StepClaim)
    requires Retired(s, claim)
    ensures claim.leaseToken <= Apply(s, call).nextToken
    ensures Retired(Apply(s, call), claim) <==> !Revives(s, call, claim)
  {
    if call.CallSave? {
      hide Holds, MaxOf, HistoryTokens, LeaseTokens, Sequences;
    } else {
      hide Apply, Holds;
      CallForward(s, call);
    }
  }

  /** Hence one save lets a retired claim through again exactly if the snapshot still holds its lease. */
  lemma SaveRevivesIff(s: Store, run: RunRecord, claim: StepClaim)
    requires Retired(s, claim) && Save(s, run).1.Ok? && run.runId == claim.runId
    ensures !Refused(Save(s, run).0, claim) <==> HoldsLease(run, claim, 0)
  {
    hide Retired, Refused, Save, LeaseHeld;
    CallRevivesIff(s, CallSave(run), claim);
    RetiredIffRefused(Save(s, run).0, claim);
  }

  /** No call of the history revives the claim. */
  ghost predicate NeverRevived(s: Store, calls: seq<Call>, claim: StepClaim) {
    forall n: nat :: n < |calls| ==> !Revives(ApplyAll(s, calls[..n]), calls[n], claim)
  }

  /** The claim is refused at every point of the history. */
  ghost predicate AlwaysRefused(s: Store, calls: seq<Call>, claim: StepClaim) {
    forall n: nat :: n <= |calls| ==> Refused(ApplyAll(s, calls[..n]), claim)
  }

  lemma {:induction false} RetiredUpTo(s: Store, claim: StepClaim, calls: seq<Call>, n: nat)
    requires Retired(s, claim) && n <= |calls|
    requires forall k: nat :: k < n ==> !Revives(ApplyAll(s, calls[..k]), calls[k], claim)
    ensures Retired(ApplyAll(s, calls[..n]), claim) && Refused(ApplyAll(s, calls[..n]), claim)
  {
    hide Apply, Retired, Refused, Revives;
    if n > 0 {
      RetiredUpTo(s, claim, calls, n - 1);
      assert calls[..n][..n - 1] == calls[..n - 1];
      CallRevivesIff(ApplyAll(s, calls[..n - 1]), calls[n - 1], claim);
    } else {
      assert calls[..0] == [];
    }
    DrawnToken(ApplyAll(s, calls[..n]), claim);
    RetiredIffRefused(ApplyAll(s, calls[..n]), claim);
  }

  lemma DrawnToken(s: Store, claim: StepClaim)
    requires Retired(s, claim)
    ensures claim.leaseToken <= s.nextToken
  {
  }

  /** Short of such a snapshot a retired claim is refused for good, however often the store is restored. */
  lemma RetiredAcrossSaves(s: Store, claim: StepClaim, calls: seq<Call>)
    requires Retired(s, claim) && NeverRevived(s, calls, claim)
    ensures Retired(ApplyAll(s, calls), claim) && Refused(ApplyAll(s, calls), claim)
  {
    hide Apply, Retired, Refused, Revives;
    RetiredUpTo(s, claim, calls, |calls|);
    assert calls[..|calls|] == calls;
  }

  /** A retired claim is refused throughout a history, however often the store is restored in it,
      exactly if no snapshot restored on the way still holds its lease. */
  lemma RefusedThroughoutIff(s: Store, claim: StepClaim, calls: seq<Call>)
    requires Retired(s, claim)
    ensures AlwaysRefused(s, calls, claim) <==> NeverRevived(s, calls, claim)
  {
    hide Apply, Retired, Refused, Revives;
    if NeverRevived(s, calls, claim) {
      forall n: nat | n <= |calls| ensures Refused(ApplyAll(s, calls[..n]), claim) {
        RetiredUpTo(s, claim, calls, n);
      }
    } else {
      FirstRevival(s, claim, calls, |calls|);
    }
  }

  /** The first reviving call ends the refusals. */
  lemma {:induction false} FirstRevival(s: Store, claim: StepClaim, calls: seq<Call>, n: nat)
    requires Retired(s, claim) && n <= |calls|
    requires exists k: nat :: k < n && Revives(ApplyAll(s, calls[..k]), calls[k], claim)
    ensures exists k: nat :: k <= n && !Refused(ApplyAll(s, calls[..k]), claim)
  {
    hide Apply, Retired, Refused, Revives;
    if exists k: nat :: k < n - 1 && Revives(ApplyAll(s, calls[..k]), calls[k], claim) {
      FirstRevival(s, claim, calls, n - 1);
    } else {
      RetiredUpTo(s, claim, calls, n - 1);
      var t := ApplyAll(s, calls[..n - 1]);
      assert calls[..n][..n - 1] == calls[..n - 1];
      CallRevivesIff(t, calls[n - 1], claim);
      RetiredIffRefused(ApplyAll(s, calls[..n]), claim);
    }
  }

  /** A claim commits at most once: after a successful completion no call with it succeeds again. */
  lemma CommitsOnce(s: Store, claim: StepClaim, c: StepCompletion, now: nat, calls: seq<Call>)
    requires IndexInv(s) && CompleteStep(s, claim, c, now).1.Ok? && NoSaves(calls)
    ensures Refused(ApplyAll(CompleteStep(s, claim, c, now).0, calls), claim)
  {
    hide KeysInverted, CompletionMatches, ApplyAll, Refused;
    assert claim.leaseToken <= s.nextToken by {
      assert Within(s.runs[claim.runId], s.nextToken, s.nextSequence);
    }
    RetiredForever(CompleteStep(s, claim, c, now).0, claim, calls);
  }

  /** A new claim carries a token above every token retained now or at any earlier point, in any run,
      those dropped by restored snapshots included. */
  lemma TokensIncrease(s: Store, calls: seq<Call>, id: RunId, worker: WorkerProfile, leaseMs: nat, now: nat)
    requires IndexInv(s)
    ensures var (t, answer) := ClaimNextStep(ApplyAll(s, calls), id, worker, leaseMs, now);
            answer.Ok? && answer.value.Some? ==>
              var token := answer.value.value.leaseToken;
              && token == t.nextToken == ApplyAll(s, calls).nextToken + 1
              && forall r :: r in s.runs ==> TokensUpTo(s.runs[r], token - 1)
  {
    hide KeysInverted, Claimable, ApplyAll;
    forall r | r in s.runs ensures TokensUpTo(s.runs[r], ApplyAll(s, calls).nextToken) {
      RetainedStaysBelow(s, calls, r);
    }
  }

  /** A run that has left `Running` never returns to it and hands out no further claim. */
  lemma LeftRunningForGood(s: Store, id: RunId, calls: seq<Call>, worker: WorkerProfile, leaseMs: nat, now: nat)
    requires id in s.runs && Terminal(s.runs[id].status) && NoSaves(calls)
    ensures var t := ApplyAll(s, calls);
            && id in t.runs && Terminal(t.runs[id].status)
            && ClaimNextStep(t, id, worker, leaseMs, now) == (t, Ok(None))
  {
    hide ApplyAll, Holds;
    AlwaysForward(s, calls);
  }

  /** Restored snapshots of the run are snapshots of the run that was requested. */
  ghost predicate SnapshotsAgree(calls: seq<Call>, id: RunId, request: RunRequest) {
    forall c :: c in calls && c.CallSave? && c.snapshot.runId == id ==>
      c.snapshot.idempotencyKey == request.idempotencyKey && SamePayload(c.snapshot, request)
  }

  predicate Serves(s: Store, id: RunId, request: RunRequest) {
    id in s.runs && s.runs[id].idempotencyKey == request.idempotencyKey && SamePayload(s.runs[id], request)
  }

  lemma {:induction false} ServesForGood(s: Store, id: RunId, request: RunRequest, calls: seq<Call>)
    requires Serves(s, id, request) && SnapshotsAgree(calls, id, request)
    ensures Serves(ApplyAll(s, calls), id, request)
  {
    hide Apply, Serves;
    if calls != [] {
      var init, last := calls[..|calls| - 1], calls[|calls| - 1];
      assert last in calls;
      ServesForGood(s, id, request, init);
      ServesOnce(ApplyAll(s, init), id, request, last);
    }
  }

  lemma ServesOnce(s: Store, id: RunId, request: RunRequest, call: Call)
    requires Serves(s, id, request)
    requires call.CallSave? && call.snapshot.runId == id ==>
               call.snapshot.idempotencyKey == request.idempotencyKey && SamePayload(call.snapshot, request)
    ensures Serves(Apply(s, call), id, request)
  {
    if call.CallSave? {
      hide MaxOf, HistoryTokens, LeaseTokens, Sequences;
    } else {
      hide Apply, Holds;
      CallForward(s, call);
    }
  }

  /** Repeating a request with a key returns the run created first, after any history whose restored
      snapshots of that run agree with the request. */
  lemma CreateIsIdempotent(s: Store, request: RunRequest, calls: seq<Call>)
    requires IndexInv(s) && request.idempotencyKey.Some?
    requires CreateRun(s, request).1.Ok? && SnapshotsAgree(calls, CreateRun(s, request).1.value.runId, request)
    ensures var first := CreateRun(s, request).1.value.runId;
            var t := ApplyAll(CreateRun(s, request).0, calls);
            && first in t.runs
            && CreateRun(t, request) == (t, Ok(t.runs[first]))
            && t.runs[first].runId == first && SamePayload(t.runs[first], request)
  {
    hide ApplyAll, Within, ValidRequest, KeysInverted, CreateRun;
    var (s1, answer) := CreateRun(s, request);
    var first := answer.value.runId;
    CreateKeepsIndex(s, request);
    CreatedRunIsStored(s, request);
    ServesForGood(s1, first, request, calls);
    IndexAlwaysFrom(s1, calls);
    KeyLeadsTo(ApplyAll(s1, calls), request.idempotencyKey.value, first);
    RepeatAnswers(ApplyAll(s1, calls), request, first);
  }

  lemma RepeatAnswers(s: Store, request: RunRequest, id: RunId)
    requires ValidRequest(request) && request.idempotencyKey.Some? && Serves(s, id, request)
    requires request.idempotencyKey.value in s.idempotency && s.idempotency[request.idempotencyKey.value] == id
    ensures CreateRun(s, request) == (s, Ok(s.runs[id]))
  {
    hide ValidRequest;
  }

  lemma CreatedRunIsStored(s: Store, request: RunRequest)
    requires IndexInv(s) && CreateRun(s, request).1.Ok?
    ensures ValidRequest(request)
    ensures var (t, answer) := CreateRun(s, request);
            && answer.value.runId in t.runs && t.runs[answer.value.runId] == answer.value
            && SamePayload(answer.value, request)
            && (request.idempotencyKey.Some? ==> answer.value.idempotencyKey == request.idempotencyKey)
  {
    hide ValidRequest, Within;
  }

  lemma KeyLeadsTo(s: Store, key: IdempotencyKey, id: RunId)
    requires IndexInv(s) && id in s.runs && s.runs[id].idempotencyKey == Some(key)
    ensures key in s.idempotency && s.idempotency[key] == id && s.runs[id].runId == id
  {
    hide Within;
  }

  lemma {:induction false} IndexAlwaysFrom(s: Store, calls: seq<Call>)
    requires IndexInv(s)
    ensures IndexInv(ApplyAll(s, calls))
  {
    hide Apply, IndexInv;
    if calls != [] {
      IndexAlwaysFrom(s, calls[..|calls| - 1]);
      IndexKept(ApplyAll(s, calls[..|calls| - 1]), calls[|calls| - 1]);
    }
  }
}
