/** Reading one step back from the event log: an automaton over the events, and what its
    acceptance says about how often and in which order they occur. */
module StepLog {
  import opened Types

  datatype Outcome = Open | Done | Broken

  /** `ended`: attempts closed so far; `started`, `retried`: highest attempt reported so. */
  datatype View = Rejected | View(ended: nat, started: nat, retried: nat, fallback: Option<TaskId>, outcome: Outcome)

  const FRESH: View := View(0, 0, 0, None, Open)

  /** What one event about the step does to the view; an event out of turn is rejected. */
  function Advance(v: View, id: StepId, e: Event): View {
    if v.Rejected? || e.RunStarted? || e.RunFinished? || e.step != id then v
    else if !v.outcome.Open? then Rejected
    else
      match e
      case StepStarted(_, _, _, attempt) =>
        if attempt == v.ended + 1 && v.started < attempt then v.(started := attempt) else Rejected
      case StepRetrying(_, _, attempt, _) =>
        if attempt == v.ended + 1 then v.(ended := attempt, retried := attempt)
        else if attempt == v.ended && v.retried < attempt && v.fallback.Some? then v.(retried := attempt)
        else Rejected
      case StepFallbackSelected(_, _, task) =>
        if v.fallback.None? then v.(ended := v.ended + 1, fallback := Some(task)) else Rejected
      case StepSucceeded(_, _, attempt) =>
        if attempt == v.ended + 1 then v.(ended := attempt, outcome := Done) else Rejected
      case StepFailed(_, _, attempt, _) =>
        if attempt == v.ended + 1 then v.(ended := attempt, outcome := Broken) else Rejected
      case RunStarted(_, _) => v
      case RunFinished(_, _) => v
  }

  function Replay(events: seq<Event>, id: StepId): View {
    if events == [] then FRESH
    else Advance(Replay(events[..|events| - 1], id), id, events[|events| - 1])
  }

  lemma ReplaySnoc(events: seq<Event>, e: Event, id: StepId)
    ensures Replay(events + [e], id) == Advance(Replay(events, id), id, e)
  {
    assert (events + [e])[..|events|] == events;
  }

  /** The status of the last `RunFinished`. */
  function LastFinish(events: seq<Event>): Option<RunStatus> {
    if events == [] then None
    else
      var e := events[|events| - 1];
      if e.RunFinished? then Some(e.status) else LastFinish(events[..|events| - 1])
  }

  lemma LastFinishSnoc(events: seq<Event>, e: Event)
    ensures LastFinish(events + [e]) == if e.RunFinished? then Some(e.status) else LastFinish(events)
  {
    assert (events + [e])[..|events|] == events;
  }

  lemma {:induction false} LastFinishOccurs(events: seq<Event>)
    requires LastFinish(events).Some?
    ensures exists e :: e in events && e.RunFinished? && e.status == LastFinish(events).value
  {
    var n := |events| - 1;
    if !events[n].RunFinished? {
      LastFinishOccurs(events[..n]);
    } else {
      assert events[n] in events;
    }
  }

  // What acceptance means.

  datatype Kind = Start | Retry | Fallback | Success | Failure

  predicate Is(e: Event, id: StepId, k: Kind) {
    match e
    case StepStarted(_, step, _, _) => k.Start? && step == id
    case StepRetrying(_, step, _, _) => k.Retry? && step == id
    case StepFallbackSelected(_, step, _) => k.Fallback? && step == id
    case StepSucceeded(_, step, _) => k.Success? && step == id
    case StepFailed(_, step, _, _) => k.Failure? && step == id
    case RunStarted(_, _) => false
    case RunFinished(_, _) => false
  }

  function Count(events: seq<Event>, id: StepId, k: Kind): nat {
    if events == [] then 0
    else Count(events[..|events| - 1], id, k) + (if Is(events[|events| - 1], id, k) then 1 else 0)
  }

  /** Ending events of a step carry the attempt; a fallback selection carries none. */
  predicate Ends(e: Event, id: StepId, attempt: nat) {
    (Is(e, id, Success) || Is(e, id, Failure) || Is(e, id, Retry)) && e.attempt == attempt
  }

  /** Event i ends this attempt: it reports its end, or it selects the fallback, which ends the
      attempt then open. */
  predicate EndsAttempt(events: seq<Event>, id: StepId, i: nat, attempt: nat)
    requires i < |events|
  {
    || Ends(events[i], id, attempt)
    || (Is(events[i], id, Fallback) && var v := Replay(events[..i], id); v.View? && attempt == v.ended + 1)
  }

  /** An accepted log holds one success, failure or fallback selection exactly when the view says so. */
  lemma {:induction false} AcceptedCounts(events: seq<Event>, id: StepId)
    requires !Replay(events, id).Rejected?
    ensures Count(events, id, Success) == if Replay(events, id).outcome.Done? then 1 else 0
    ensures Count(events, id, Failure) == if Replay(events, id).outcome.Broken? then 1 else 0
    ensures Count(events, id, Fallback) == if Replay(events, id).fallback.Some? then 1 else 0
  {
    if events != [] {
      AcceptedCounts(events[..|events| - 1], id);
    }
  }

  /** The view accounts for a report. */
  predicate Within(e: Event, id: StepId, v: View)
    requires v.View?
  {
    && (Is(e, id, Start) ==> 1 <= e.attempt <= v.started)
    && (Is(e, id, Retry) ==> 1 <= e.attempt <= v.retried)
    && (Is(e, id, Success) || Is(e, id, Failure) ==> e.attempt == v.ended && !v.outcome.Open?)
    && (Is(e, id, Fallback) ==> v.fallback == Some(e.task))
  }

  predicate Bounded(v: View)
    requires v.View?
  {
    v.retried <= v.ended && v.started <= v.ended + 1
  }

  lemma AdvanceKeepsBounds(v: View, id: StepId, last: Event)
    requires v.View? && Advance(v, id, last).View? && Bounded(v)
    ensures Bounded(Advance(v, id, last))
    ensures Within(last, id, Advance(v, id, last))
  {
  }

  lemma AdvanceKeepsWithin(v: View, id: StepId, e: Event, last: Event)
    requires v.View? && Advance(v, id, last).View? && Bounded(v) && Within(e, id, v)
    ensures Within(e, id, Advance(v, id, last))
  {
  }

  /** Every report in an accepted log is within the bounds of the view. */
  lemma {:induction false} AcceptedReports(events: seq<Event>, id: StepId)
    requires !Replay(events, id).Rejected?
    ensures Bounded(Replay(events, id))
    ensures forall e :: e in events ==> Within(e, id, Replay(events, id))
  {
    if events != [] {
      var n := |events| - 1;
      AcceptedReports(events[..n], id);
      var v := Replay(events[..n], id);
      AdvanceKeepsBounds(v, id, events[n]);
      forall e | e in events ensures Within(e, id, Replay(events, id)) {
        if e in events[..n] {
          AdvanceKeepsWithin(v, id, e, events[n]);
        }
      }
    }
  }

  lemma {:induction false} BoundsWereReported(events: seq<Event>, id: StepId)
    requires !Replay(events, id).Rejected?
    ensures Replay(events, id).started > 0 ==>
              exists e :: e in events && Is(e, id, Start) && e.attempt == Replay(events, id).started
    ensures Replay(events, id).retried > 0 ==>
              exists e :: e in events && Is(e, id, Retry) && e.attempt == Replay(events, id).retried
    ensures Replay(events, id).fallback.Some? ==>
              exists e :: e in events && Is(e, id, Fallback) && e.task == Replay(events, id).fallback.value
    ensures Replay(events, id).outcome.Done? ==>
              exists e :: e in events && Is(e, id, Success) && e.attempt == Replay(events, id).ended
    ensures Replay(events, id).outcome.Broken? ==>
              exists e :: e in events && Is(e, id, Failure) && e.attempt == Replay(events, id).ended
  {
    if events != [] {
      var n := |events| - 1;
      var init, last := events[..n], events[n];
      BoundsWereReported(init, id);
      assert events == init + [last];
      assert forall e :: e in init ==> e in events;
      assert last in events;
    }
  }

  lemma {:induction false} PrefixAccepted(events: seq<Event>, id: StepId, n: nat)
    requires n <= |events| && !Replay(events, id).Rejected?
    ensures !Replay(events[..n], id).Rejected?
    decreases |events|
  {
    if n == |events| {
      assert events[..n] == events;
    } else {
      var init := events[..|events| - 1];
      PrefixAccepted(init, id, n);
      assert init[..n] == events[..n];
    }
  }

  /** Start and end reports are unique per attempt, and a start stands before its end. */
  lemma AcceptedOrder(events: seq<Event>, id: StepId, i: nat, j: nat)
    requires i < j < |events| && !Replay(events, id).Rejected?
    ensures Is(events[i], id, Start) && Is(events[j], id, Start) ==> events[i].attempt < events[j].attempt
    ensures Is(events[i], id, Retry) && Is(events[j], id, Retry) ==> events[i].attempt < events[j].attempt
    ensures Is(events[j], id, Start) ==>
              forall attempt: nat :: EndsAttempt(events, id, i, attempt) ==> attempt < events[j].attempt
    ensures Is(events[i], id, Success) || Is(events[i], id, Failure) ==>
              forall k :: !Is(events[j], id, k)
  {
    PrefixAccepted(events, id, j);
    PrefixAccepted(events, id, j + 1);
    assert events[..j + 1] == events[..j] + [events[j]];
    ReplaySnoc(events[..j], events[j], id);
    AcceptedReports(events[..j], id);
    assert events[i] in events[..j];
    ClosedBefore(events, id, i, j);
  }

  /** Attempts closed stay closed, and selecting the fallback closes one. */
  lemma {:induction false} ClosedBefore(events: seq<Event>, id: StepId, i: nat, j: nat)
    requires i < j <= |events| && !Replay(events[..j], id).Rejected?
    ensures !Replay(events[..i], id).Rejected? && Replay(events[..i], id).ended <= Replay(events[..j], id).ended
    ensures Is(events[i], id, Fallback) ==> Replay(events[..i], id).ended < Replay(events[..j], id).ended
  {
    assert events[..j] == events[..j - 1] + [events[j - 1]];
    ReplaySnoc(events[..j - 1], events[j - 1], id);
    if i < j - 1 {
      ClosedBefore(events, id, i, j - 1);
    }
  }
}
