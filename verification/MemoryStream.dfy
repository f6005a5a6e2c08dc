/** The published event stream and its incremental readers. */
module MemoryStream {
  import opened Types
  import opened Policy
  import opened Evaluation
  import opened Transitions
  import opened RunTheorems
  import opened MemoryStore
  import opened MemoryTraces
  import opened MemoryFencing

  /** The part of the global log that belongs to one run. */
  function OfRun(events: seq<Envelope>, id: RunId): seq<Envelope> {
    if events == [] then []
    else
      OfRun(events[..|events| - 1], id) + (if events[|events| - 1].event.run == id then [events[|events| - 1]] else [])
  }

  lemma OfRunSnoc(events: seq<Envelope>, v: Envelope, id: RunId)
    ensures OfRun(events + [v], id) == OfRun(events, id) + (if v.event.run == id then [v] else [])
  {
    assert (events + [v])[..|events|] == events;
  }

  lemma {:induction false} OfRunEmpty(events: seq<Envelope>, id: RunId)
    requires forall v :: v in events ==> v.event.run != id
    ensures OfRun(events, id) == []
  {
    if events != [] {
      assert events[|events| - 1] in events;
      OfRunEmpty(events[..|events| - 1], id);
    }
  }

  ghost predicate Rising(events: seq<Envelope>, last: nat) {
    && (forall i, j :: 0 <= i < j < |events| ==> events[i].sequence < events[j].sequence)
    && (forall i :: 0 <= i < |events| ==> 1 <= events[i].sequence <= last)
  }

  /** Numbered from 1 without a gap. */
  ghost predicate Numbered(events: seq<Envelope>, last: nat) {
    |events| == last && forall i :: 0 <= i < |events| ==> events[i].sequence == i + 1
  }

  ghost predicate LogMatches(s: Store, id: RunId)
    requires id in s.runs
  {
    var run := s.runs[id];
    && run.eventLog == OfRun(s.events, id)
    && |run.events| == |run.eventLog|
    && (forall i :: 0 <= i < |run.events| ==> run.eventLog[i].event == run.events[i])
  }

  /** The global log is numbered without gaps, each run's log is its projection, and the payload list of
      the run the list of its payloads. */
  ghost predicate StreamInv(s: Store) {
    && Numbered(s.events, s.nextSequence)
    && (forall v :: v in s.events ==> v.event.run in s.runs)
    && (forall id :: id in s.runs ==> s.runs[id].runId == id && LogMatches(s, id))
  }

  lemma NumberedSnoc(events: seq<Envelope>, last: nat, v: Envelope)
    requires Numbered(events, last) && v.sequence == last + 1
    ensures Numbered(events + [v], last + 1)
  {
  }

  /** Publishing one event of a run extends that run's projection and no other. */
  lemma Publish(s: Store, id: RunId, run: RunRecord, e: Event)
    requires StreamInv(s) && id in s.runs && run.runId == id && e.run == id
    requires run.eventLog == s.runs[id].eventLog && run.events == s.runs[id].events
    ensures StreamInv(Commit(s, id, AppendEvent(run, s.nextSequence + 1, e)))
  {
    hide OfRun;
    var v := Envelope(s.nextSequence + 1, e);
    var t := Commit(s, id, AppendEvent(run, s.nextSequence + 1, e));
    NumberedSnoc(s.events, s.nextSequence, v);
    forall other | other in t.runs ensures LogMatches(t, other) {
      OfRunSnoc(s.events, v, other);
      assert LogMatches(s, other);
    }
  }

  /** Replacing a run without touching its log publishes nothing. */
  lemma Silent(s: Store, t: Store, id: RunId)
    requires StreamInv(s) && id in s.runs && id in t.runs && t.runs == s.runs[id := t.runs[id]]
    requires t.events == s.events && t.nextSequence == s.nextSequence
    requires t.runs[id].runId == id
    requires t.runs[id].eventLog == s.runs[id].eventLog && t.runs[id].events == s.runs[id].events
    ensures StreamInv(t)
  {
    hide OfRun, Numbered;
    forall other | other in t.runs ensures LogMatches(t, other) {
      assert LogMatches(s, other);
    }
  }

  lemma RecoverPublishes(s: Store, id: RunId, step: StepSpec, now: nat)
    requires StreamInv(s) && id in s.runs && StepExpired(s.runs[id], step, now)
    ensures StreamInv(Commit(s, id, RecoverStep(s.runs[id], step, s.nextSequence + 1, now)))
  {
    hide StreamInv, CloseAttempt;
    var run := s.runs[id];
    var (r, e) := RecoverRecord(run.runId, step, run.steps[step.id], now);
    var mid := run.(steps := run.steps[step.id := r], error := if r.status.Failed? then r.error else run.error);
    OwnId(s, id);
    Publish(s, id, mid, e);
  }

  lemma OwnId(s: Store, id: RunId)
    requires StreamInv(s) && id in s.runs
    ensures s.runs[id].runId == id
  {
    hide Numbered, LogMatches;
  }

  lemma {:induction false} RecoverRunStream(s: Store, id: RunId, steps: seq<StepSpec>, now: nat, n: nat)
    requires StreamInv(s) && id in s.runs && n <= |steps|
    ensures StreamInv(RecoverRun(s, id, steps[..n], now).0)
  {
    hide StreamInv, RecoverRun, RecoverStep, StepExpired;
    if n == 0 {
      assert steps[..0] == [];
      RecoverRunStart(s, id, now);
    } else {
      RecoverRunStream(s, id, steps, now, n - 1);
      RecoverRunSnoc(s, id, steps, n - 1, now);
      var t := RecoverRun(s, id, steps[..n - 1], now).0;
      if StepExpired(t.runs[id], steps[n - 1], now) {
        RecoverPublishes(t, id, steps[n - 1], now);
      }
    }
  }

  lemma {:induction false} RecoverStream(s: Store, order: seq<RunId>, now: nat)
    requires StreamInv(s)
    ensures StreamInv(RecoverRuns(s, order, now).0)
  {
    hide StreamInv, RecoverRun;
    if order != [] {
      var id := order[|order| - 1];
      RecoverStream(s, order[..|order| - 1], now);
      var t := RecoverRuns(s, order[..|order| - 1], now).0;
      if id in t.runs {
        var steps := t.runs[id].workflow.steps;
        assert steps[..|steps|] == steps;
        RecoverRunStream(t, id, steps, now, |steps|);
      }
    }
  }

  lemma CreateStream(s: Store, request: RunRequest)
    requires StreamInv(s)
    ensures StreamInv(CreateRun(s, request).0)
  {
    hide OfRun, Creates, ValidRequest;
    if Creates(s, request) {
      CreatePublishes(s, request);
    } else {
      CreateOtherwise(s, request);
    }
  }

  lemma CreatePublishes(s: Store, request: RunRequest)
    requires StreamInv(s) && Creates(s, request)
    ensures StreamInv(CreateRun(s, request).0)
  {
    hide OfRun, ValidRequest, Numbered;
    var t := CreateRun(s, request).0;
    var v := Envelope(s.nextSequence + 1, RunStarted(request.runId, request.workflow.id));
    NumberedSnoc(s.events, s.nextSequence, v);
    forall other | other in t.runs ensures LogMatches(t, other) {
      OfRunSnoc(s.events, v, other);
      if other == request.runId {
        OfRunEmpty(s.events, other);
      } else {
        assert LogMatches(s, other);
      }
    }
  }

  /** Every call keeps the stream in order. */
  lemma CallStream(s: Store, call: Call)
    requires StreamInv(s) && !call.CallSave?
    ensures StreamInv(Apply(s, call))
  {
    hide StreamInv, CreateRun, RecoverRuns, EventValid, HasFailed, AllSucceeded, EvaluateGates, Claimable;
    match call {
      case CallCreate(request) => CreateStream(s, request);
      case CallClaim(id, worker, leaseMs, now) =>
        if ClaimNextStep(s, id, worker, leaseMs, now).0 != s {
          OwnId(s, id);
          Silent(s, ClaimNextStep(s, id, worker, leaseMs, now).0, id);
        }
      case CallRenew(claim, leaseMs, now) =>
        if RenewStep(s, claim, leaseMs, now).1.Ok? {
          OwnId(s, claim.runId);
          Silent(s, RenewStep(s, claim, leaseMs, now).0, claim.runId);
        }
      case CallComplete(claim, c, now) =>
        if CompleteStep(s, claim, c, now).1.Ok? {
          OwnId(s, claim.runId);
          Publish(s, claim.runId, CompleteRun(s.runs[claim.runId], claim, c, now), c.event);
        }
      case CallRecord(id, e) =>
        if RecordEvent(s, id, e).1.Ok? {
          OwnId(s, id);
          Publish(s, id, s.runs[id], e);
        }
      case CallFinish(id, metrics) =>
        if id in s.runs {
          OwnId(s, id);
          FinishStream(s, id, metrics);
        }
      case CallCancel(id, now) =>
        if id in s.runs && !Terminal(s.runs[id].status) {
          OwnId(s, id);
          Publish(s, id, CancelRun(s.runs[id], now), RunFinished(id, RunCancelled));
        }
      case CallRecover(order, now) => RecoverStream(s, order, now);
      case CallSave(_) =>
    }
  }

  lemma FinishStream(s: Store, id: RunId, metrics: seq<Metric>)
    requires StreamInv(s) && id in s.runs && s.runs[id].runId == id
    ensures StreamInv(FinishStoredRun(s, id, metrics).0)
  {
    hide StreamInv, HasFailed, AllSucceeded, EvaluateGates;
    var judged := FinishRun(s.runs[id], metrics);
    if judged.status != s.runs[id].status {
      Publish(s, id, judged, RunFinished(id, judged.status));
    } else {
      Silent(s, FinishStoredRun(s, id, metrics).0, id);
    }
  }

  /** The stream is in order after every history without restored snapshots. */
  lemma {:induction false} StreamAlways(s: Store, calls: seq<Call>)
    requires StreamInv(s) && NoSaves(calls)
    ensures StreamInv(ApplyAll(s, calls))
  {
    hide StreamInv, Apply;
    if calls != [] {
      StreamAlways(s, calls[..|calls| - 1]);
      CallStream(ApplyAll(s, calls[..|calls| - 1]), calls[|calls| - 1]);
    }
  }

  lemma StreamStarts()
    ensures StreamInv(EMPTY)
  {
  }

  // Readers.

  function LastSeen(received: seq<Envelope>): nat {
    if received == [] then 0 else received[|received| - 1].sequence
  }

  lemma {:induction false} ReadsFrom(log: seq<Envelope>, n: nat, seen: nat)
    requires n <= |log|
    requires forall i :: 0 <= i < n ==> log[i].sequence <= seen
    requires forall i :: n <= i < |log| ==> log[i].sequence > seen
    ensures EventsAfter(log, seen) == log[n..]
  {
    if log != [] {
      var m := |log| - 1;
      ReadsFrom(log[..m], Min(n, m), seen);
      if n <= m {
        assert log[n..] == log[..m][n..] + [log[m]];
      }
    }
  }

  lemma RisingAround(log: seq<Envelope>, n: nat, last: nat)
    requires Rising(log, last) && n <= |log|
    ensures forall i :: n <= i < |log| ==> log[i].sequence > if n == 0 then 0 else log[n - 1].sequence
    ensures forall i :: 0 <= i < n ==> log[i].sequence <= log[n - 1].sequence
  {
  }

  /** Reading after the last sequence seen yields exactly what came since. */
  lemma ReadsTheRest(log: seq<Envelope>, n: nat, last: nat)
    requires Rising(log, last) && n <= |log|
    ensures EventsAfter(log, LastSeen(log[..n])) == log[n..]
  {
    var seen := LastSeen(log[..n]);
    assert n > 0 ==> seen == log[n - 1].sequence;
    RisingAround(log, n, last);
    hide Rising, LastSeen;
    ReadsFrom(log, n, seen);
  }

  lemma {:induction false} ProjectionRises(events: seq<Envelope>, id: RunId, last: nat)
    requires Rising(events, last)
    ensures Rising(OfRun(events, id), last)
    ensures forall v :: v in OfRun(events, id) ==> v in events
  {
    if events != [] {
      var n := |events| - 1;
      ProjectionRises(events[..n], id, last);
      forall v | v in OfRun(events[..n], id) ensures v.sequence < events[n].sequence {
        var i :| 0 <= i < n && events[i] == v;
      }
    }
  }

  /** A reader that polls after each batch of calls, always from the last sequence it has seen. */
  ghost function Consume(s: Store, id: RunId, batches: seq<seq<Call>>): (Store, seq<Envelope>) {
    if batches == [] then (s, [])
    else
      var (t, received) := Consume(s, id, batches[..|batches| - 1]);
      var u := ApplyAll(t, batches[|batches| - 1]);
      var answer := EventsSince(u, id, LastSeen(received));
      (u, received + if answer.Ok? then answer.value else [])
  }

  /** It receives every event of the run exactly once and in order. */
  lemma {:induction false} ReadsExactlyOnce(s: Store, id: RunId, batches: seq<seq<Call>>)
    requires StreamInv(s) && id in s.runs && forall b :: b in batches ==> NoSaves(b)
    ensures var (t, received) := Consume(s, id, batches);
            && StreamInv(t) && id in t.runs
            && received <= t.runs[id].eventLog
            && (batches != [] ==> received == t.runs[id].eventLog)
  {
    hide StreamInv, ApplyAll, Forward, EventsAfter;
    if batches != [] {
      var init, last := batches[..|batches| - 1], batches[|batches| - 1];
      ReadsExactlyOnce(s, id, init);
      var (t, received) := Consume(s, id, init);
      var u := ApplyAll(t, last);
      StreamAlways(t, last);
      LogKept(t, id, last);
      LogRises(u, id);
      var log := u.runs[id].eventLog;
      assert log[..|received|] == received;
      ReadsTheRest(log, |received|, u.nextSequence);
    }
  }

  /** From any history of the repository on. */
  lemma ReadsEverything(before: seq<Call>, id: RunId, batches: seq<seq<Call>>)
    requires NoSaves(before) && id in ApplyAll(EMPTY, before).runs
    requires batches != [] && forall b :: b in batches ==> NoSaves(b)
    ensures var (t, received) := Consume(ApplyAll(EMPTY, before), id, batches);
            id in t.runs && received == t.runs[id].eventLog
  {
    hide StreamInv, ApplyAll, Consume;
    StreamStarts();
    StreamAlways(EMPTY, before);
    ReadsExactlyOnce(ApplyAll(EMPTY, before), id, batches);
  }

  lemma LogKept(s: Store, id: RunId, calls: seq<Call>)
    requires id in s.runs && NoSaves(calls)
    ensures id in ApplyAll(s, calls).runs && s.runs[id].eventLog <= ApplyAll(s, calls).runs[id].eventLog
  {
    hide ApplyAll, Holds;
    AlwaysForward(s, calls);
  }

  lemma LogRises(s: Store, id: RunId)
    requires StreamInv(s) && id in s.runs
    ensures Rising(s.runs[id].eventLog, s.nextSequence)
  {
    hide OfRun;
    assert LogMatches(s, id);
    assert Rising(s.events, s.nextSequence);
    hide Rising;
    ProjectionRises(s.events, id, s.nextSequence);
  }
}
