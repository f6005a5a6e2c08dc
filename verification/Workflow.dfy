/** Workflow definitions and their validator, Kahn's algorithm (src/workflow.rs). */
module Workflows {
  import opened Types

  ghost function Ids(steps: seq<StepSpec>): set<StepId> {
    set s | s in steps :: s.id
  }

  ghost predicate DistinctIds(steps: seq<StepSpec>) {
    forall i, j :: 0 <= i < j < |steps| ==> steps[i].id != steps[j].id
  }

  ghost predicate KnownDependencies(steps: seq<StepSpec>) {
    forall s, d :: s in steps && d in s.dependsOn ==> d in Ids(steps)
  }

  ghost predicate NoDuplicates(xs: seq<StepId>) {
    forall i, j :: 0 <= i < j < |xs| ==> xs[i] != xs[j]
  }

  /** Every dependency of a step stands before the step. */
  ghost predicate Respects(steps: seq<StepSpec>, order: seq<StepId>) {
    forall s, i, d :: s in steps && 0 <= i < |order| && order[i] == s.id && d in s.dependsOn ==> d in order[..i]
  }

  /** One position for each step, dependencies first. */
  ghost predicate TopologicalOrder(steps: seq<StepSpec>, order: seq<StepId>) {
    && |order| == |steps|
    && NoDuplicates(order)
    && (forall x :: x in order <==> x in Ids(steps))
    && Respects(steps, order)
  }

  ghost predicate Acyclic(steps: seq<StepSpec>) {
    exists order :: TopologicalOrder(steps, order)
  }

  ghost predicate ValidSteps(steps: seq<StepSpec>) {
    steps != [] && Acyclic(steps)
  }

  // Counting distinct identifiers.

  ghost function Elements(xs: seq<StepId>): set<StepId> {
    set x | x in xs
  }

  lemma {:induction false} DistinctCount(xs: seq<StepId>)
    requires NoDuplicates(xs)
    ensures |Elements(xs)| == |xs|
  {
    if xs != [] {
      var init := xs[..|xs| - 1];
      DistinctCount(init);
      assert Elements(xs) == Elements(init) + {xs[|xs| - 1]};
    }
  }

  lemma SubsetCount(small: set<StepId>, big: set<StepId>)
    requires small <= big
    ensures |small| <= |big|
    ensures |small| == |big| ==> small == big
  {
    assert |big| == |small| + |big - small| by {
      assert big == small + (big - small);
    }
  }

  lemma {:induction false} IdCount(steps: seq<StepSpec>)
    ensures |Ids(steps)| <= |steps|
    ensures |Ids(steps)| == |steps| ==> DistinctIds(steps)
    ensures DistinctIds(steps) ==> |Ids(steps)| == |steps|
  {
    if steps != [] {
      var n := |steps| - 1;
      var init := steps[..n];
      IdCount(init);
      assert Ids(steps) == Ids(init) + {steps[n].id};
      if steps[n].id in Ids(init) {
        assert Ids(steps) == Ids(init);
        var s :| s in init && s.id == steps[n].id;
        var i :| 0 <= i < n && init[i] == s;
        assert steps[i].id == steps[n].id;
      } else {
        forall i | 0 <= i < n ensures steps[i].id != steps[n].id {
          assert init[i] in init;
        }
      }
    }
  }

  /** A topological order leaves no room for two steps with one id, nor for an unknown dependency. */
  lemma OrderImpliesDistinct(steps: seq<StepSpec>, order: seq<StepId>)
    requires TopologicalOrder(steps, order)
    ensures DistinctIds(steps) && KnownDependencies(steps)
  {
    DistinctCount(order);
    assert Elements(order) == Ids(steps);
    IdCount(steps);
    forall s, d | s in steps && d in s.dependsOn ensures d in Ids(steps) {
      assert s.id in Ids(steps);
      var i :| 0 <= i < |order| && order[i] == s.id;
      assert d in order[..i];
    }
  }

  lemma SameIdSameStep(steps: seq<StepSpec>, a: StepSpec, b: StepSpec)
    requires DistinctIds(steps) && a in steps && b in steps && a.id == b.id
    ensures a == b
  {
    var i :| 0 <= i < |steps| && steps[i] == a;
    var j :| 0 <= j < |steps| && steps[j] == b;
    assert i == j;
  }

  // Occurrence counts.

  ghost function Occurrences(xs: seq<StepId>, x: StepId): nat {
    if xs == [] then 0
    else Occurrences(xs[..|xs| - 1], x) + (if xs[|xs| - 1] == x then 1 else 0)
  }

  /** How many entries of a dependency list are not done yet. */
  ghost function Unmet(deps: seq<StepId>, done: set<StepId>): nat {
    if deps == [] then 0
    else Unmet(deps[..|deps| - 1], done) + (if deps[|deps| - 1] in done then 0 else 1)
  }

  lemma {:induction false} UnmetZero(deps: seq<StepId>, done: set<StepId>)
    ensures Unmet(deps, done) == 0 <==> forall d :: d in deps ==> d in done
  {
    if deps != [] {
      var n := |deps| - 1;
      UnmetZero(deps[..n], done);
      assert deps == deps[..n] + [deps[n]];
    }
  }

  lemma {:induction false} UnmetNothing(deps: seq<StepId>)
    ensures Unmet(deps, {}) == |deps|
  {
    if deps != [] {
      UnmetNothing(deps[..|deps| - 1]);
    }
  }

  lemma {:induction false} UnmetAfter(deps: seq<StepId>, done: set<StepId>, x: StepId)
    requires x !in done
    ensures Unmet(deps, done + {x}) == Unmet(deps, done) - Occurrences(deps, x)
  {
    if deps != [] {
      UnmetAfter(deps[..|deps| - 1], done, x);
    }
  }

  lemma OccurrencesSnoc(xs: seq<StepId>, y: StepId)
    ensures forall x :: Occurrences(xs + [y], x) == Occurrences(xs, x) + (if x == y then 1 else 0)
  {
    assert (xs + [y])[..|xs|] == xs;
  }

  lemma {:induction false} OccurrencesPrefix(xs: seq<StepId>, i: nat, x: StepId)
    requires i <= |xs|
    ensures Occurrences(xs[..i], x) <= Occurrences(xs, x)
    decreases |xs|
  {
    if i == |xs| {
      assert xs[..i] == xs;
    } else {
      var init := xs[..|xs| - 1];
      OccurrencesPrefix(init, i, x);
      assert init[..i] == xs[..i];
    }
  }

  /** Dependency entries naming p on steps with id c. */
  ghost function EdgeCount(steps: seq<StepSpec>, p: StepId, c: StepId): nat {
    if steps == [] then 0
    else
      var s := steps[|steps| - 1];
      EdgeCount(steps[..|steps| - 1], p, c) + (if s.id == c then Occurrences(s.dependsOn, p) else 0)
  }

  lemma {:induction false} EdgeCountAbsent(steps: seq<StepSpec>, p: StepId, c: StepId)
    requires c !in Ids(steps)
    ensures EdgeCount(steps, p, c) == 0
  {
    if steps != [] {
      var n := |steps| - 1;
      assert steps[n] in steps;
      assert forall s :: s in steps[..n] ==> s in steps;
      EdgeCountAbsent(steps[..n], p, c);
    }
  }

  lemma {:induction false} EdgeCountDistinct(steps: seq<StepSpec>, p: StepId, i: nat)
    requires DistinctIds(steps) && i < |steps|
    ensures EdgeCount(steps, p, steps[i].id) == Occurrences(steps[i].dependsOn, p)
  {
    var n := |steps| - 1;
    if i == n {
      forall s | s in steps[..n] ensures s.id != steps[n].id {
      }
      EdgeCountAbsent(steps[..n], p, steps[n].id);
    } else {
      EdgeCountDistinct(steps[..n], p, i);
    }
  }

  // The validator.

  /** The degree table as collected: the last step with an id decides. */
  function InitialDegrees(steps: seq<StepSpec>): (m: map<StepId, int>)
    ensures m.Keys == Ids(steps)
  {
    if steps == [] then map[]
    else
      var s := steps[|steps| - 1];
      assert Ids(steps) == Ids(steps[..|steps| - 1]) + {s.id};
      InitialDegrees(steps[..|steps| - 1])[s.id := |s.dependsOn|]
  }

  lemma {:induction false} InitialDegree(steps: seq<StepSpec>, i: nat)
    requires DistinctIds(steps) && i < |steps|
    ensures steps[i].id in InitialDegrees(steps)
    ensures InitialDegrees(steps)[steps[i].id] == |steps[i].dependsOn|
  {
    hide Ids;
    var n := |steps| - 1;
    if i < n {
      assert steps[i].id != steps[n].id;
      InitialDegree(steps[..n], i);
    }
  }

  // When a subtraction goes below zero.

  /** How many entries of a dependency list are done. */
  ghost function Met(deps: seq<StepId>, done: set<StepId>): nat {
    if deps == [] then 0
    else Met(deps[..|deps| - 1], done) + (if deps[|deps| - 1] in done then 1 else 0)
  }

  /** Dependency entries, on all steps with id c, that name a done id: how often finishing these ids
      decrements the degree of c. */
  ghost function Owed(steps: seq<StepSpec>, done: set<StepId>, c: StepId): nat {
    if steps == [] then 0
    else
      var s := steps[|steps| - 1];
      Owed(steps[..|steps| - 1], done, c) + (if s.id == c then Met(s.dependsOn, done) else 0)
  }

  /** Finishing these ids makes no further id ready. */
  ghost predicate Closed(steps: seq<StepSpec>, done: set<StepId>) {
    forall c :: c in Ids(steps) && InitialDegrees(steps)[c] <= Owed(steps, done, c) ==> c in done
  }

  /** Finishing these ids decrements some degree more often than it allows. */
  ghost predicate Overfull(steps: seq<StepSpec>, done: set<StepId>) {
    exists c :: c in Ids(steps) && InitialDegrees(steps)[c] < Owed(steps, done, c)
  }

  /** Whatever holds all ids that become ready decrements some degree too often. */
  ghost predicate Underflows(steps: seq<StepSpec>) {
    forall done: set<StepId> :: Closed(steps, done) ==> Overfull(steps, done)
  }

  lemma {:induction false} MetAfter(deps: seq<StepId>, done: set<StepId>, x: StepId)
    requires x !in done
    ensures Met(deps, done + {x}) == Met(deps, done) + Occurrences(deps, x)
  {
    if deps != [] {
      MetAfter(deps[..|deps| - 1], done, x);
    }
  }

  lemma {:induction false} MetGrows(deps: seq<StepId>, small: set<StepId>, big: set<StepId>)
    requires small <= big
    ensures Met(deps, small) <= Met(deps, big) <= |deps|
  {
    if deps != [] {
      MetGrows(deps[..|deps| - 1], small, big);
    }
  }

  lemma {:induction false} MetNothing(deps: seq<StepId>)
    ensures Met(deps, {}) == 0
  {
    if deps != [] {
      MetNothing(deps[..|deps| - 1]);
    }
  }

  lemma {:induction false} OwedAfter(steps: seq<StepSpec>, done: set<StepId>, x: StepId, c: StepId)
    requires x !in done
    ensures Owed(steps, done + {x}, c) == Owed(steps, done, c) + EdgeCount(steps, x, c)
  {
    if steps != [] {
      OwedAfter(steps[..|steps| - 1], done, x, c);
      MetAfter(steps[|steps| - 1].dependsOn, done, x);
    }
  }

  lemma {:induction false} OwedGrows(steps: seq<StepSpec>, small: set<StepId>, big: set<StepId>, c: StepId)
    requires small <= big
    ensures Owed(steps, small, c) <= Owed(steps, big, c)
  {
    if steps != [] {
      OwedGrows(steps[..|steps| - 1], small, big, c);
      MetGrows(steps[|steps| - 1].dependsOn, small, big);
    }
  }

  lemma {:induction false} OwedNothing(steps: seq<StepSpec>, c: StepId)
    ensures Owed(steps, {}, c) == 0
  {
    if steps != [] {
      OwedNothing(steps[..|steps| - 1], c);
      MetNothing(steps[|steps| - 1].dependsOn);
    }
  }

  lemma {:induction false} OwedAbsent(steps: seq<StepSpec>, done: set<StepId>, c: StepId)
    requires c !in Ids(steps)
    ensures Owed(steps, done, c) == 0
  {
    if steps != [] {
      var n := |steps| - 1;
      assert steps[n] in steps;
      assert forall s :: s in steps[..n] ==> s in steps;
      OwedAbsent(steps[..n], done, c);
    }
  }

  lemma {:induction false} OwedDistinct(steps: seq<StepSpec>, done: set<StepId>, i: nat)
    requires DistinctIds(steps) && i < |steps|
    ensures Owed(steps, done, steps[i].id) == Met(steps[i].dependsOn, done)
  {
    var n := |steps| - 1;
    if i == n {
      forall s | s in steps[..n] ensures s.id != steps[n].id {}
      OwedAbsent(steps[..n], done, steps[n].id);
    } else {
      OwedDistinct(steps[..n], done, i);
    }
  }

  /** With distinct ids no degree is decremented more often than it allows. */
  lemma DistinctNeverUnderflows(steps: seq<StepSpec>)
    requires DistinctIds(steps)
    ensures !Underflows(steps)
  {
    hide InitialDegrees;
    var all := Ids(steps);
    assert Closed(steps, all);
    forall c | c in all ensures InitialDegrees(steps)[c] >= Owed(steps, all, c) {
      var s :| s in steps && s.id == c;
      var i :| 0 <= i < |steps| && steps[i] == s;
      InitialDegree(steps, i);
      OwedDistinct(steps, all, i);
      MetGrows(s.dependsOn, all, all);
    }
    assert !Overfull(steps, all);
  }

  /** What the worklist keeps about its subtractions: degrees are what is left of the initial ones,
      only those that went below zero are negative, and every closed set holds the finished ids. */
  ghost predicate Accounted(steps: seq<StepSpec>, degree: map<StepId, int>, order: seq<StepId>, underflow: bool) {
    && degree.Keys == Ids(steps)
    && (forall c :: c in degree ==> degree[c] == InitialDegrees(steps)[c] - Owed(steps, Elements(order), c))
    && (underflow <==> exists c :: c in degree && degree[c] < 0)
    && (forall done :: Closed(steps, done) ==> Elements(order) <= done)
  }

  lemma AccountedStart(steps: seq<StepSpec>)
    ensures Accounted(steps, InitialDegrees(steps), [], false)
  {
    hide InitialDegrees;
    assert Elements([]) == {};
    forall c | c in Ids(steps) ensures Owed(steps, {}, c) == 0 {
      OwedNothing(steps, c);
    }
    RootsAreZero(steps);
  }

  lemma AccountedNext(steps: seq<StepSpec>, degree: map<StepId, int>, order: seq<StepId>, underflow: bool, p: StepId,
                      children: seq<StepId>, next: map<StepId, int>, below: bool)
    requires Accounted(steps, degree, order, underflow) && Tally(degree, children, next, below)
    requires p !in Elements(order) && p in degree && degree[p] <= 0
    requires forall c :: Occurrences(children, c) == EdgeCount(steps, p, c)
    ensures Accounted(steps, next, order + [p], underflow || below)
  {
    hide InitialDegrees, Owed, Ids, EdgeCount, Occurrences;
    var done, more := Elements(order), Elements(order + [p]);
    assert more == done + {p};
    forall c | c in next ensures next[c] == InitialDegrees(steps)[c] - Owed(steps, more, c) {
      OwedAfter(steps, done, p, c);
    }
    forall big | Closed(steps, big) ensures more <= big {
      OwedGrows(steps, done, big, p);
    }
    if c :| c in degree && degree[c] < 0 {
      assert next[c] < 0;
    }
    if c :| c in degree && 0 <= degree[c] < Occurrences(children, c) {
      assert next[c] < 0;
    }
  }

  /** When nothing is ready any more, something went below zero exactly under that condition. */
  lemma AccountedDecides(steps: seq<StepSpec>, degree: map<StepId, int>, order: seq<StepId>, underflow: bool)
    requires Accounted(steps, degree, order, underflow) && Frontier(degree, order)
    ensures underflow <==> Underflows(steps)
  {
    hide InitialDegrees, Owed;
    var done := Elements(order);
    assert Closed(steps, done);
    if underflow {
      var c :| c in degree && degree[c] < 0;
      forall big: set<StepId> | Closed(steps, big) ensures Overfull(steps, big) {
        OwedGrows(steps, done, big, c);
        assert InitialDegrees(steps)[c] < Owed(steps, big, c);
      }
    }
    if Underflows(steps) {
      var c :| c in Ids(steps) && InitialDegrees(steps)[c] < Owed(steps, done, c);
      assert degree[c] < 0;
    }
  }

  function Children(dependents: map<StepId, seq<StepId>>, p: StepId): seq<StepId> {
    if p in dependents then dependents[p] else []
  }

  /** Each dependency entry contributes one child entry. */
  ghost predicate Inverts(dependents: map<StepId, seq<StepId>>, steps: seq<StepSpec>) {
    forall p, c :: Occurrences(Children(dependents, p), c) == EdgeCount(steps, p, c)
  }

  ghost predicate ChildrenKnown(dependents: map<StepId, seq<StepId>>, ids: set<StepId>) {
    forall p, c :: p in dependents && c in dependents[p] ==> c in ids
  }

  /** The table for the first steps plus some dependencies of one more step. */
  ghost predicate InvertsPartly(dependents: map<StepId, seq<StepId>>, steps: seq<StepSpec>, id: StepId,
                                deps: seq<StepId>)
  {
    forall p, c :: Occurrences(Children(dependents, p), c)
                == EdgeCount(steps, p, c) + (if id == c then Occurrences(deps, p) else 0)
  }

  lemma AddChild(dependents: map<StepId, seq<StepId>>, steps: seq<StepSpec>, id: StepId, deps: seq<StepId>, d: StepId)
    requires InvertsPartly(dependents, steps, id, deps)
    ensures InvertsPartly(dependents[d := Children(dependents, d) + [id]], steps, id, deps + [d])
  {
    OccurrencesSnoc(deps, d);
    OccurrencesSnoc(Children(dependents, d), id);
  }

  method BuildDependents(steps: seq<StepSpec>) returns (dependents: map<StepId, seq<StepId>>)
    ensures Inverts(dependents, steps)
    ensures ChildrenKnown(dependents, Ids(steps))
  {
    dependents := map[];
    for i := 0 to |steps|
      invariant Inverts(dependents, steps[..i])
      invariant ChildrenKnown(dependents, Ids(steps))
    {
      var step := steps[i];
      assert step in steps && step.dependsOn[..0] == [];
      for k := 0 to |step.dependsOn|
        invariant InvertsPartly(dependents, steps[..i], step.id, step.dependsOn[..k])
        invariant ChildrenKnown(dependents, Ids(steps))
      {
        var dependency := step.dependsOn[k];
        assert step.dependsOn[..k + 1] == step.dependsOn[..k] + [dependency];
        AddChild(dependents, steps[..i], step.id, step.dependsOn[..k], dependency);
        dependents := dependents[dependency := Children(dependents, dependency) + [step.id]];
      }
      assert step.dependsOn[..|step.dependsOn|] == step.dependsOn;
      assert steps[..i + 1][..i] == steps[..i];
    }
    assert steps[..|steps|] == steps;
  }

  /** A degree counts the dependency entries that are neither done nor released. */
  ghost predicate Counted(steps: seq<StepSpec>, degree: map<StepId, int>, done: set<StepId>, released: seq<StepId>) {
    forall s :: s in steps ==> s.id in degree && degree[s.id] == Unmet(s.dependsOn, done) - Occurrences(released, s.id)
  }

  /** Exactly the ids without positive degree have been queued, each once. */
  ghost predicate Frontier(degree: map<StepId, int>, seen: seq<StepId>) {
    && NoDuplicates(seen)
    && (forall id :: id in degree ==> (id in seen <==> degree[id] <= 0))
    && (forall id :: id in seen ==> id in degree)
  }

  lemma ReleaseHasRoom(s: StepSpec, done: set<StepId>, p: StepId, children: seq<StepId>, j: nat)
    requires p !in done && j < |children| && children[j] == s.id
    requires Occurrences(children, s.id) == Occurrences(s.dependsOn, p)
    ensures Unmet(s.dependsOn, done) - Occurrences(children[..j], s.id) >= 1
  {
    UnmetAfter(s.dependsOn, done, p);
    OccurrencesPrefix(children, j + 1, s.id);
    assert children[..j + 1][..j] == children[..j];
  }

  lemma PoppedIsNew(order: seq<StepId>, p: StepId, rest: seq<StepId>)
    requires NoDuplicates(order + [p] + rest)
    ensures p !in Elements(order)
  {
    var seen := order + [p] + rest;
    forall i | 0 <= i < |order| ensures order[i] != p {
      assert seen[i] == order[i] && seen[|order|] == p;
    }
  }

  /** What the worklist keeps: `order` holds the finished ids. */
  ghost predicate Working(steps: seq<StepSpec>, degree: map<StepId, int>, order: seq<StepId>, queue: seq<StepId>) {
    && degree.Keys == Ids(steps)
    && Frontier(degree, order + queue)
    && (DistinctIds(steps) ==> Counted(steps, degree, Elements(order), []) && Respects(steps, order))
  }

  /** Some child occurs more often than its degree allows. */
  ghost predicate Exceeds(degree0: map<StepId, int>, children: seq<StepId>) {
    exists c :: c in degree0 && 0 <= degree0[c] < Occurrences(children, c)
  }

  /** The degrees after releasing the children, and whether one was released at zero. */
  ghost predicate Tally(degree0: map<StepId, int>, children: seq<StepId>, degree: map<StepId, int>, underflow: bool) {
    && degree.Keys == degree0.Keys
    && (forall c :: c in degree ==> degree[c] == degree0[c] - Occurrences(children, c))
    && (underflow <==> Exceeds(degree0, children))
  }

  lemma TallyNext(degree0: map<StepId, int>, children: seq<StepId>, degree: map<StepId, int>, underflow: bool,
                  c: StepId)
    requires Tally(degree0, children, degree, underflow) && c in degree
    ensures Tally(degree0, children + [c], degree[c := degree[c] - 1], underflow || degree[c] == 0)
  {
    OccurrencesSnoc(children, c);
    if x :| x in degree0 && 0 <= degree0[x] < Occurrences(children + [c], x) {
      assert x != c ==> degree0[x] < Occurrences(children, x);
    }
    if x :| x in degree0 && 0 <= degree0[x] < Occurrences(children, x) {
      assert degree0[x] < Occurrences(children + [c], x);
    }
    if degree[c] == 0 {
      assert degree0[c] < Occurrences(children + [c], c);
    }
  }

  lemma TallyNone(degree0: map<StepId, int>)
    ensures Tally(degree0, [], degree0, false)
  {
  }

  /** Finishes p: decrements the degree of every child and queues those that reach zero.
      Negative degrees stand for the wrapped values of an unsigned subtraction. */
  method Release(steps: seq<StepSpec>, p: StepId, children: seq<StepId>,
                 degree0: map<StepId, int>, queue0: seq<StepId>, ghost order: seq<StepId>)
    returns (degree: map<StepId, int>, queue: seq<StepId>, underflow: bool)
    requires Working(steps, degree0, order, [p] + queue0)
    requires forall c :: c in children ==> c in Ids(steps)
    requires DistinctIds(steps) ==>
               forall s :: s in steps ==> Occurrences(children, s.id) == Occurrences(s.dependsOn, p)
    ensures Working(steps, degree, order + [p], queue)
    ensures DistinctIds(steps) ==> !underflow
    ensures Tally(degree0, children, degree, underflow)
  {
    hide Tally, TopologicalOrder;
    TallyNone(degree0);
    degree, queue, underflow := degree0, queue0, false;
    assert order + ([p] + queue) == order + [p] + queue;
    PoppedIsNew(order, p, queue);
    assert children[..0] == [];
    for j := 0 to |children|
      invariant degree.Keys == Ids(steps)
      invariant Frontier(degree, order + [p] + queue)
      invariant DistinctIds(steps) ==> Counted(steps, degree, Elements(order), children[..j]) && !underflow
      invariant Tally(degree0, children[..j], degree, underflow)
    {
      var child := children[j];
      assert children[..j + 1] == children[..j] + [child];
      OccurrencesSnoc(children[..j], child);
      if DistinctIds(steps) {
        var s :| s in steps && s.id == child;
        ReleaseHasRoom(s, Elements(order), p, children, j);
      }
      TallyNext(degree0, children[..j], degree, underflow, child);
      underflow := underflow || degree[child] == 0;
      degree := degree[child := degree[child] - 1];
      ghost var seen := order + [p] + queue;
      if degree[child] == 0 {
        queue := queue + [child];
        assert order + [p] + queue == seen + [child];
      }
    }
    assert children[..|children|] == children;
    if DistinctIds(steps) {
      PopRespects(steps, degree0, order, p, queue0);
      ReleasedAll(steps, degree, order, p, children);
    }
  }

  lemma ReleasedAll(steps: seq<StepSpec>, degree: map<StepId, int>, order: seq<StepId>, p: StepId,
                    children: seq<StepId>)
    requires p !in Elements(order) && Counted(steps, degree, Elements(order), children)
    requires forall s :: s in steps ==> Occurrences(children, s.id) == Occurrences(s.dependsOn, p)
    ensures Counted(steps, degree, Elements(order + [p]), [])
  {
    assert Elements(order + [p]) == Elements(order) + {p};
    forall s | s in steps
      ensures degree[s.id] == Unmet(s.dependsOn, Elements(order + [p])) - Occurrences([], s.id)
    {
      UnmetAfter(s.dependsOn, Elements(order), p);
    }
  }

  /** A finished worklist that is too short rules out every topological order. */
  lemma ExhaustedMeansCyclic(steps: seq<StepSpec>, degree: map<StepId, int>, order: seq<StepId>)
    requires degree.Keys == Ids(steps) && Frontier(degree, order)
    requires DistinctIds(steps) ==> Counted(steps, degree, Elements(order), [])
    requires |order| != |steps|
    ensures !Acyclic(steps)
  {
    if topo :| TopologicalOrder(steps, topo) {
      OrderImpliesDistinct(steps, topo);
      TopoIsPopped(steps, degree, order, topo, |topo|);
      DistinctCount(topo);
      DistinctCount(order);
      SubsetCount(Elements(topo), Elements(order));
      SubsetCount(Elements(order), Elements(topo));
      assert false;
    }
  }

  lemma {:induction false} TopoIsPopped(steps: seq<StepSpec>, degree: map<StepId, int>, order: seq<StepId>,
                                       topo: seq<StepId>, n: nat)
    requires degree.Keys == Ids(steps) && Frontier(degree, order)
    requires Counted(steps, degree, Elements(order), [])
    requires TopologicalOrder(steps, topo) && n <= |topo|
    ensures forall x :: x in topo[..n] ==> x in order
  {
    if n > 0 {
      TopoIsPopped(steps, degree, order, topo, n - 1);
      var x := topo[n - 1];
      assert x in topo;
      var s :| s in steps && s.id == x;
      forall d | d in s.dependsOn ensures d in Elements(order) {
        assert d in topo[..n - 1];
      }
      UnmetZero(s.dependsOn, Elements(order));
      assert topo[..n] == topo[..n - 1] + [x];
    }
  }

  /** The ids without dependencies, in the order of the steps. */
  method Roots(steps: seq<StepSpec>, degree: map<StepId, int>) returns (queue: seq<StepId>)
    requires degree == InitialDegrees(steps)
    ensures Frontier(degree, queue)
  {
    queue := [];
    RootsAreZero(steps);
    for i := 0 to |steps|
      invariant NoDuplicates(queue)
      invariant forall id :: id in queue <==> id in Ids(steps[..i]) && degree[id] == 0
    {
      var id := steps[i].id;
      assert steps[..i + 1] == steps[..i] + [steps[i]];
      if degree[id] == 0 && id !in queue {
        queue := queue + [id];
      }
    }
    assert steps[..|steps|] == steps;
  }

  lemma {:induction false} RootsAreZero(steps: seq<StepSpec>)
    ensures forall id :: id in InitialDegrees(steps) ==> InitialDegrees(steps)[id] >= 0
  {
    if steps != [] {
      RootsAreZero(steps[..|steps| - 1]);
    }
  }

  /** The first unknown dependency, in source order. */
  method FindUnknown(steps: seq<StepSpec>) returns (r: Option<(StepId, StepId)>)
    ensures r.None? <==> KnownDependencies(steps)
    ensures r.Some? ==> FirstUnknown(steps, r.value.0, r.value.1)
  {
    for i := 0 to |steps|
      invariant KnownBefore(steps, i, 0)
    {
      for k := 0 to |steps[i].dependsOn|
        invariant KnownBefore(steps, i, k)
      {
        if !exists s <- steps :: s.id == steps[i].dependsOn[k] {
          assert steps[i] in steps && steps[i].dependsOn[k] in steps[i].dependsOn;
          assert UnknownAt(steps, i, k);
          return Some((steps[i].id, steps[i].dependsOn[k]));
        }
      }
    }
    return None;
  }

  ghost predicate KnownBefore(steps: seq<StepSpec>, i: nat, k: nat)
    requires i <= |steps|
  {
    && (forall s, d :: s in steps[..i] && d in s.dependsOn ==> d in Ids(steps))
    && (i < |steps| ==> forall x :: 0 <= x < k && x < |steps[i].dependsOn| ==> steps[i].dependsOn[x] in Ids(steps))
  }

  ghost predicate UnknownAt(steps: seq<StepSpec>, i: nat, k: nat) {
    && i < |steps| && k < |steps[i].dependsOn|
    && steps[i].dependsOn[k] !in Ids(steps) && KnownBefore(steps, i, k)
  }

  /** The first dependency, in workflow order, that names no step. */
  ghost predicate FirstUnknown(steps: seq<StepSpec>, step: StepId, dependency: StepId) {
    exists i: nat, k: nat :: UnknownAt(steps, i, k) && step == steps[i].id && dependency == steps[i].dependsOn[k]
  }

  /** Accepts exactly the non-empty acyclic workflows; a degree goes below zero exactly if
      `Underflows` holds, for which an id has to repeat. */
  method Validate(steps: seq<StepSpec>) returns (r: Result<(), WorkflowError>, underflow: bool)
    ensures r.Ok? <==> ValidSteps(steps)
    ensures r.Ok? ==> DistinctIds(steps)
    ensures r == Err(Empty) <==> steps == []
    ensures (r.Err? && r.error.UnknownDependency?) <==> (steps != [] && !KnownDependencies(steps))
    ensures r.Err? && r.error.UnknownDependency? ==> FirstUnknown(steps, r.error.step, r.error.dependency)
    ensures r.Err? ==> r.error.Empty? || r.error.UnknownDependency? || r.error.DependencyCycle?
    ensures underflow <==> steps != [] && KnownDependencies(steps) && Underflows(steps)
    ensures underflow ==> !DistinctIds(steps) && r == Err(DependencyCycle)
  {
    if steps == [] {
      return Err(Empty), false;
    }
    var unknown := FindUnknown(steps);
    if unknown.Some? {
      UnknownIsNotAcyclic(steps);
      return Err(UnknownDependency(unknown.value.0, unknown.value.1)), false;
    }
    var visited;
    visited, underflow := Drain(steps);
    return if visited != |steps| then Err(DependencyCycle) else Ok(()), underflow;
  }

  /** The worklist: pops ready ids and releases their children until none is left. */
  method Drain(steps: seq<StepSpec>) returns (visited: nat, underflow: bool)
    ensures visited == |steps| <==> Acyclic(steps)
    ensures visited == |steps| ==> DistinctIds(steps)
    ensures underflow <==> Underflows(steps)
    ensures underflow ==> !DistinctIds(steps)
  {
    hide Accounted, Underflows, TopologicalOrder;
    var degree := InitialDegrees(steps);
    var dependents := BuildDependents(steps);
    var ready := Roots(steps, degree);
    visited, underflow := 0, false;
    ghost var order: seq<StepId> := [];
    StartWorking(steps, degree, ready);
    AccountedStart(steps);
    while ready != []
      invariant Working(steps, degree, order, ready) && visited == |order|
      invariant DistinctIds(steps) ==> !underflow
      invariant Accounted(steps, degree, order, underflow)
      decreases |Ids(steps)| - |order|
    {
      var id := ready[0];
      assert ready == [id] + ready[1..];
      ready := ready[1..];
      WorklistBounded(steps, degree, order, [id] + ready);
      ChildrenMatch(steps, dependents, id);
      ghost var before, queued := degree, ready;
      var below;
      degree, ready, below := Release(steps, id, Children(dependents, id), degree, ready, order);
      PoppedIsReady(before, order, id, queued);
      AccountedNext(steps, before, order, underflow, id, Children(dependents, id), degree, below);
      underflow := underflow || below;
      visited := visited + 1;
      order := order + [id];
    }
    DrainedDecides(steps, degree, order);
    assert order + [] == order;
    AccountedDecides(steps, degree, order, underflow);
  }

  lemma PoppedIsReady(degree: map<StepId, int>, order: seq<StepId>, p: StepId, rest: seq<StepId>)
    requires Frontier(degree, order + ([p] + rest))
    ensures p !in Elements(order) && p in degree && degree[p] <= 0
  {
    assert order + ([p] + rest) == order + [p] + rest;
    PoppedIsNew(order, p, rest);
    assert p in order + ([p] + rest);
  }

  /** Two steps named "b": the degrees keep the last, which depends on nothing; the dependents keep the
      first, which depends on "a". */
  function Repeated(policy: ExecutionPolicy): seq<StepSpec> {
    [StepSpec("a", "t", [], policy), StepSpec("b", "t", ["a"], policy), StepSpec("b", "t", [], policy)]
  }

  /** A repeated id can take a degree below zero: releasing "a" decrements the degree of "b" from 0. */
  lemma RepeatedUnderflows(policy: ExecutionPolicy)
    ensures var steps := Repeated(policy);
            KnownDependencies(steps) && Underflows(steps)
  {
    var steps := Repeated(policy);
    var two, one := [steps[0], steps[1]], [steps[0]];
    assert steps[0] in steps && steps[1] in steps && steps[2] in steps;
    assert steps[..2] == two && two[..1] == one && one[..0] == [];
    assert InitialDegrees(one) == map["a" := 0] && InitialDegrees(two) == map["a" := 0, "b" := 1];
    assert InitialDegrees(steps) == map["a" := 0, "b" := 0];
    forall done: set<StepId> | Closed(steps, done) ensures Overfull(steps, done) {
      assert "a" in done;
      assert Met(["a"], done) == 1 by { assert ["a"][..0] == []; }
      assert Owed(two, done, "b") == Owed(one, done, "b") + Met(["a"], done);
      assert InitialDegrees(steps)["b"] < Owed(steps, done, "b");
    }
  }

  /** It need not: two steps "a" without dependencies are refused with no degree below zero. */
  lemma RepeatedHarmlessly(policy: ExecutionPolicy)
    ensures var a := StepSpec("a", "t", [], policy);
            !DistinctIds([a, a]) && KnownDependencies([a, a]) && !Underflows([a, a])
  {
    var a := StepSpec("a", "t", [], policy);
    var steps := [a, a];
    assert steps[0].id == steps[1].id;
    assert steps[..1] == [a] && [a][..0] == [];
    assert Owed([a], {"a"}, "a") == 0 && Owed(steps, {"a"}, "a") == 0;
    assert Closed(steps, {"a"}) && !Overfull(steps, {"a"});
  }

  lemma UnknownIsNotAcyclic(steps: seq<StepSpec>)
    requires !KnownDependencies(steps)
    ensures !Acyclic(steps)
  {
    if order :| TopologicalOrder(steps, order) {
      OrderImpliesDistinct(steps, order);
      assert false;
    }
  }

  lemma StartWorking(steps: seq<StepSpec>, degree: map<StepId, int>, ready: seq<StepId>)
    requires degree == InitialDegrees(steps) && Frontier(degree, ready)
    ensures Working(steps, degree, [], ready)
  {
    assert [] + ready == ready;
    if DistinctIds(steps) {
      forall s | s in steps
        ensures s.id in degree && degree[s.id] == Unmet(s.dependsOn, Elements([]))
      {
        var i :| 0 <= i < |steps| && steps[i] == s;
        InitialDegree(steps, i);
        assert Elements([]) == {};
        UnmetNothing(s.dependsOn);
      }
    }
  }

  lemma WorklistBounded(steps: seq<StepSpec>, degree: map<StepId, int>, order: seq<StepId>, queue: seq<StepId>)
    requires Working(steps, degree, order, queue)
    ensures |order| + |queue| <= |Ids(steps)|
  {
    DistinctCount(order + queue);
    SubsetCount(Elements(order + queue), Ids(steps));
  }

  lemma DrainedDecides(steps: seq<StepSpec>, degree: map<StepId, int>, order: seq<StepId>)
    requires Working(steps, degree, order, [])
    ensures |order| == |steps| <==> Acyclic(steps)
    ensures |order| == |steps| ==> DistinctIds(steps)
  {
    assert order + [] == order;
    if |order| != |steps| {
      ExhaustedMeansCyclic(steps, degree, order);
    } else {
      OrderIsTopological(steps, degree, order);
    }
  }

  lemma PopRespects(steps: seq<StepSpec>, degree: map<StepId, int>, order: seq<StepId>, id: StepId,
                    rest: seq<StepId>)
    requires Frontier(degree, order + ([id] + rest)) && Counted(steps, degree, Elements(order), [])
    requires Respects(steps, order)
    ensures Respects(steps, order + [id])
  {
    assert id in order + ([id] + rest);
    var next := order + [id];
    forall s, i, d | s in steps && 0 <= i < |next| && next[i] == s.id && d in s.dependsOn
      ensures d in next[..i]
    {
      if i == |order| {
        UnmetZero(s.dependsOn, Elements(order));
        assert next[..i] == order;
      } else {
        assert next[..i] == order[..i];
      }
    }
  }

  lemma ChildrenMatch(steps: seq<StepSpec>, dependents: map<StepId, seq<StepId>>, p: StepId)
    requires Inverts(dependents, steps)
    ensures DistinctIds(steps) ==>
              forall s :: s in steps ==> Occurrences(Children(dependents, p), s.id) == Occurrences(s.dependsOn, p)
  {
    forall s | DistinctIds(steps) && s in steps
      ensures Occurrences(Children(dependents, p), s.id) == Occurrences(s.dependsOn, p) {
      var i :| 0 <= i < |steps| && steps[i] == s;
      EdgeCountDistinct(steps, p, i);
    }
  }

  lemma OrderIsTopological(steps: seq<StepSpec>, degree: map<StepId, int>, order: seq<StepId>)
    requires degree.Keys == Ids(steps) && Frontier(degree, order) && |order| == |steps|
    requires DistinctIds(steps) ==> Respects(steps, order)
    ensures DistinctIds(steps) && Acyclic(steps) && KnownDependencies(steps)
  {
    DistinctCount(order);
    IdCount(steps);
    SubsetCount(Elements(order), Ids(steps));
    assert Elements(order) == Ids(steps);
    forall x ensures x in order <==> x in Ids(steps) {
      assert x in order <==> x in Elements(order);
    }
    assert TopologicalOrder(steps, order);
    OrderImpliesDistinct(steps, order);
  }

  /** A repeated id is refused even though the validator never compares ids. */
  lemma RepeatedIdsAreInvalid(steps: seq<StepSpec>)
    requires !DistinctIds(steps)
    ensures !Acyclic(steps)
  {
    if order :| TopologicalOrder(steps, order) {
      OrderImpliesDistinct(steps, order);
      assert false;
    }
  }

  /** A workflow under construction. */
  class WorkflowSpec {
    const id: WorkflowId
    const version: string
    var steps: seq<StepSpec>
    var gates: seq<EvaluationGate>

    constructor (id: WorkflowId, version: string)
      ensures this.id == id && this.version == version && steps == [] && gates == []
    {
      this.id, this.version := id, version;
      steps, gates := [], [];
    }

    method AddGate(gate: EvaluationGate)
      modifies this
      ensures gates == old(gates) + [gate] && steps == old(steps)
    {
      gates := gates + [gate];
    }

    /** Appends the step unless its id is taken; distinct ids stay distinct. */
    method AddStep(step: StepSpec) returns (r: Result<(), WorkflowError>)
      modifies this
      ensures gates == old(gates)
      ensures step.id in Ids(old(steps)) ==> r == Err(DuplicateStep(step.id)) && steps == old(steps)
      ensures step.id !in Ids(old(steps)) ==> r == Ok(()) && steps == old(steps) + [step]
      ensures old(DistinctIds(steps)) ==> DistinctIds(steps)
    {
      if exists s <- steps :: s.id == step.id {
        return Err(DuplicateStep(step.id));
      }
      steps := steps + [step];
      return Ok(());
    }
  }
}
