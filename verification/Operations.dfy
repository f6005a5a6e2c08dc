/** What clients of a repository do. A worker presents only claims that were handed out, named by
    run, step and attempt, so the same operations drive either repository. */
module Operations {
  import opened Types
  import opened RunInvariant

  type IssuedClaims = map<RunId, Claims>

  datatype Op =
    | OpCreate(request: RunRequest)
    | OpClaim(run: RunId, worker: WorkerProfile, leaseMs: nat, now: nat)
    | OpRenew(run: RunId, step: StepId, attempt: nat, leaseMs: nat, now: nat)
    | OpComplete(run: RunId, step: StepId, attempt: nat, completion: StepCompletion, now: nat)
    | OpRecord(run: RunId, event: Event)
    | OpFinish(run: RunId, metrics: seq<Metric>)
    | OpCancel(run: RunId, now: nat)
    | OpRecover(now: nat)

  /** Operations on one run that is already stored. */
  predicate OneRun(op: Op) {
    !op.OpCreate? && !op.OpRecover?
  }

  function ClaimsOf(issued: IssuedClaims, run: RunId): Claims {
    if run in issued then issued[run] else map[]
  }

  /** The claim of the given attempt, if it was ever handed out. */
  function ClaimNamed(issued: IssuedClaims, run: RunId, step: StepId, attempt: nat): (r: Option<StepClaim>)
    ensures r.Some? <==> 1 <= attempt <= |ClaimsFor(ClaimsOf(issued, run), step)|
    ensures r.Some? ==> r.value in ClaimsFor(ClaimsOf(issued, run), step)
  {
    var claims := ClaimsFor(ClaimsOf(issued, run), step);
    if 1 <= attempt <= |claims| then Some(claims[attempt - 1]) else None
  }

  function AddIssued(issued: IssuedClaims, run: RunId, claim: StepClaim): IssuedClaims {
    issued[run := AddClaim(ClaimsOf(issued, run), claim)]
  }
}
