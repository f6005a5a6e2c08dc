/** Quality gates over reported metrics (src/evaluation.rs). */
module Evaluation {
  import opened Types

  /** The first metric with the name counts. */
  function Observed(metrics: seq<Metric>, name: string): Option<real> {
    if metrics == [] then None
    else if metrics[0].name == name then Some(metrics[0].value)
    else Observed(metrics[1..], name)
  }

  function Evaluate(gate: EvaluationGate, metrics: seq<Metric>): GateDecision {
    var observed := Observed(metrics, gate.metric);
    var passed := observed.Some? &&
                  match gate.direction
                  case AtLeast => observed.value >= gate.threshold
                  case AtMost => observed.value <= gate.threshold;
    GateDecision(passed, gate.metric, observed, gate.threshold, gate.direction)
  }

  /** Collects the decisions into a map, later gates replacing earlier ones on the same metric. */
  function EvaluateGates(gates: seq<EvaluationGate>, metrics: seq<Metric>): map<string, GateDecision> {
    if gates == [] then map[]
    else
      var last := gates[|gates| - 1];
      EvaluateGates(gates[..|gates| - 1], metrics)[last.metric := Evaluate(last, metrics)]
  }

  predicate AllPassed(decisions: map<string, GateDecision>) {
    forall name <- decisions :: decisions[name].passed
  }

  /** Index i holds the last gate on its metric. */
  predicate LastOnMetric(gates: seq<EvaluationGate>, i: nat)
    requires i < |gates|
  {
    forall j :: i < j < |gates| ==> gates[j].metric != gates[i].metric
  }

  ghost predicate DistinctMetrics(gates: seq<EvaluationGate>) {
    forall i, j :: 0 <= i < j < |gates| ==> gates[i].metric != gates[j].metric
  }

  /** The decision of the last gate on a metric is the one stored. */
  lemma {:induction false} LastGateIsStored(gates: seq<EvaluationGate>, metrics: seq<Metric>, i: nat)
    requires i < |gates| && LastOnMetric(gates, i)
    ensures gates[i].metric in EvaluateGates(gates, metrics)
    ensures EvaluateGates(gates, metrics)[gates[i].metric] == Evaluate(gates[i], metrics)
  {
    var n := |gates| - 1;
    if i < n {
      assert LastOnMetric(gates[..n], i);
      LastGateIsStored(gates[..n], metrics, i);
    }
  }

  /** Every stored decision comes from the last gate on its metric. */
  lemma {:induction false} StoredIsLastGate(gates: seq<EvaluationGate>, metrics: seq<Metric>, name: string)
    returns (i: nat)
    requires name in EvaluateGates(gates, metrics)
    ensures i < |gates| && LastOnMetric(gates, i) && gates[i].metric == name
  {
    var n := |gates| - 1;
    if gates[n].metric == name {
      i := n;
    } else {
      i := StoredIsLastGate(gates[..n], metrics, name);
    }
  }

  /** A run passes iff the last gate on every metric passes. */
  lemma PassIffLastGatesPass(gates: seq<EvaluationGate>, metrics: seq<Metric>)
    ensures AllPassed(EvaluateGates(gates, metrics)) <==>
            forall i :: 0 <= i < |gates| && LastOnMetric(gates, i) ==> Evaluate(gates[i], metrics).passed
  {
    var decisions := EvaluateGates(gates, metrics);
    forall i | 0 <= i < |gates| && LastOnMetric(gates, i)
      ensures gates[i].metric in decisions && decisions[gates[i].metric] == Evaluate(gates[i], metrics)
    {
      LastGateIsStored(gates, metrics, i);
    }
    forall name | name in decisions
      ensures exists i :: 0 <= i < |gates| && LastOnMetric(gates, i) && gates[i].metric == name
    {
      var i := StoredIsLastGate(gates, metrics, name);
    }
  }

  // Which gate lists mean what they say.

  /** Metrics at the threshold of each gate, later gates first, so that the last gate on each metric
      decides the value. */
  function Meeting(gates: seq<EvaluationGate>): seq<Metric> {
    if gates == [] then []
    else
      var last := gates[|gates| - 1];
      [Metric(last.metric, last.threshold)] + Meeting(gates[..|gates| - 1])
  }

  lemma {:induction false} MeetsLastGates(gates: seq<EvaluationGate>, i: nat)
    requires i < |gates| && LastOnMetric(gates, i)
    ensures Observed(Meeting(gates), gates[i].metric) == Some(gates[i].threshold)
    ensures Evaluate(gates[i], Meeting(gates)).passed
  {
    var n := |gates| - 1;
    assert Meeting(gates)[1..] == Meeting(gates[..n]);
    if i < n {
      assert LastOnMetric(gates[..n], i);
      MeetsLastGates(gates[..n], i);
    }
  }

  /** Some metrics satisfy all stored decisions. */
  lemma GatesCanPass(gates: seq<EvaluationGate>)
    ensures AllPassed(EvaluateGates(gates, Meeting(gates)))
  {
    PassIffLastGatesPass(gates, Meeting(gates));
    forall i | 0 <= i < |gates| && LastOnMetric(gates, i) ensures Evaluate(gates[i], Meeting(gates)).passed {
      MeetsLastGates(gates, i);
    }
  }

  /** Without metrics every gate fails. */
  lemma GatesCanFail(gates: seq<EvaluationGate>)
    ensures AllPassed(EvaluateGates(gates, [])) <==> gates == []
  {
    if gates != [] {
      var n := |gates| - 1;
      LastGateIsStored(gates, [], n);
      assert !Evaluate(gates[n], []).passed;
    }
  }

  /** Whatever passes the first gate passes the second. */
  predicate Implies(a: EvaluationGate, b: EvaluationGate) {
    a.direction == b.direction &&
    match a.direction
    case AtLeast => a.threshold >= b.threshold
    case AtMost => a.threshold <= b.threshold
  }

  /** No gate demands more than the last gate on its metric. */
  ghost predicate LastGatesDecide(gates: seq<EvaluationGate>) {
    forall i, j :: 0 <= i < j < |gates| && gates[i].metric == gates[j].metric && LastOnMetric(gates, j) ==>
      Implies(gates[j], gates[i])
  }

  lemma {:induction false} LastOnItsMetric(gates: seq<EvaluationGate>, i: nat) returns (j: nat)
    requires i < |gates|
    ensures i <= j < |gates| && gates[j].metric == gates[i].metric && LastOnMetric(gates, j)
    decreases |gates| - i
  {
    if LastOnMetric(gates, i) {
      j := i;
    } else {
      var k: nat :| i < k < |gates| && gates[k].metric == gates[i].metric;
      j := LastOnItsMetric(gates, k);
    }
  }

  /** A value that passes the last gate on a metric and fails an earlier one it does not imply. */
  lemma PartingMetrics(gates: seq<EvaluationGate>, i: nat, j: nat) returns (metrics: seq<Metric>)
    requires i < j < |gates| && gates[i].metric == gates[j].metric && LastOnMetric(gates, j)
    requires !Implies(gates[j], gates[i])
    ensures AllPassed(EvaluateGates(gates, metrics)) && !Evaluate(gates[i], metrics).passed
  {
    var a, b := gates[i], gates[j];
    var value := if a.direction == b.direction then b.threshold
                 else if b.direction.AtLeast? then
                   (if b.threshold > a.threshold then b.threshold else a.threshold + 1.0)
                 else (if b.threshold < a.threshold then b.threshold else a.threshold - 1.0);
    metrics := [Metric(a.metric, value)] + Meeting(gates);
    assert metrics[1..] == Meeting(gates);
    assert Observed(metrics, a.metric) == Some(value);
    PassIffLastGatesPass(gates, metrics);
    forall k | 0 <= k < |gates| && LastOnMetric(gates, k) ensures Evaluate(gates[k], metrics).passed {
      MeetsLastGates(gates, k);
    }
  }

  /** The stored decisions say whether all gates pass, for whatever metrics, exactly if no gate is
      stricter than the last one on its metric. */
  lemma DecisionsSpeakForAllGatesIff(gates: seq<EvaluationGate>)
    ensures (forall metrics :: AllPassed(EvaluateGates(gates, metrics))
                               <==> forall g :: g in gates ==> Evaluate(g, metrics).passed)
            <==> LastGatesDecide(gates)
  {
    if LastGatesDecide(gates) {
      forall metrics ensures AllPassed(EvaluateGates(gates, metrics))
                             <==> forall g :: g in gates ==> Evaluate(g, metrics).passed
      {
        LastGatesSpeak(gates, metrics);
      }
    } else {
      var i, j :| 0 <= i < j < |gates| && gates[i].metric == gates[j].metric && LastOnMetric(gates, j)
                  && !Implies(gates[j], gates[i]);
      var metrics := PartingMetrics(gates, i, j);
      assert gates[i] in gates;
      assert !(AllPassed(EvaluateGates(gates, metrics)) <==> forall g :: g in gates ==> Evaluate(g, metrics).passed);
    }
  }

  lemma LastGatesSpeak(gates: seq<EvaluationGate>, metrics: seq<Metric>)
    requires LastGatesDecide(gates)
    ensures AllPassed(EvaluateGates(gates, metrics)) <==> forall g :: g in gates ==> Evaluate(g, metrics).passed
  {
    PassIffLastGatesPass(gates, metrics);
    if AllPassed(EvaluateGates(gates, metrics)) {
      forall i | 0 <= i < |gates| ensures Evaluate(gates[i], metrics).passed {
        var j := LastOnItsMetric(gates, i);
        if i < j {
          assert Implies(gates[j], gates[i]);
        }
      }
    }
  }

  /** In particular with distinct metric names. */
  lemma PassIffAllGatesPass(gates: seq<EvaluationGate>, metrics: seq<Metric>)
    requires DistinctMetrics(gates)
    ensures AllPassed(EvaluateGates(gates, metrics)) <==>
            forall g :: g in gates ==> Evaluate(g, metrics).passed
  {
    LastGatesSpeak(gates, metrics);
  }

  /** Two gates on one metric: the earlier one is forgotten even though it fails. */
  lemma EarlierGateIsForgotten()
    ensures var metrics := [Metric("m", 5.0)];
            var strict := EvaluationGate("m", 9.0, AtLeast);
            var lax := EvaluationGate("m", 1.0, AtLeast);
            && !Evaluate(strict, metrics).passed
            && AllPassed(EvaluateGates([strict, lax], metrics))
  {
    var strict, lax := EvaluationGate("m", 9.0, AtLeast), EvaluationGate("m", 1.0, AtLeast);
    var metrics := [Metric("m", 5.0)];
    assert Observed(metrics, "m") == Some(5.0);
    assert [strict, lax][..1] == [strict];
    assert EvaluateGates([strict, lax], metrics)
        == EvaluateGates([strict], metrics)["m" := Evaluate(lax, metrics)];
    assert [strict][..0] == [];
    assert EvaluateGates([strict], metrics) == map["m" := Evaluate(strict, metrics)];
  }

  // The decisions in terms of the reported values.

  /** The metric that counts for the name: the first one reported under it. */
  predicate Counts(metrics: seq<Metric>, name: string, i: nat) {
    i < |metrics| && metrics[i].name == name && forall j :: 0 <= j < i ==> metrics[j].name != name
  }

  /** The value that counts is on the right side of the threshold. */
  ghost predicate Meets(gate: EvaluationGate, metrics: seq<Metric>) {
    exists i: nat ::
      && Counts(metrics, gate.metric, i)
      && if gate.direction.AtLeast? then gate.threshold <= metrics[i].value else metrics[i].value <= gate.threshold
  }

  /** The decision names its gate, the value that counted and the verdict on it. */
  ghost predicate Explains(d: GateDecision, gate: EvaluationGate, metrics: seq<Metric>) {
    && (d.passed <==> Meets(gate, metrics))
    && d.metric == gate.metric && d.threshold == gate.threshold && d.direction == gate.direction
    && (d.observed.None? ==> forall i :: 0 <= i < |metrics| ==> metrics[i].name != gate.metric)
    && (d.observed.Some? ==> exists i: nat :: Counts(metrics, gate.metric, i) && metrics[i].value == d.observed.value)
  }

  /** One decision per metric a gate asks for, explained by the last gate on it. */
  ghost predicate Decided(gates: seq<EvaluationGate>, metrics: seq<Metric>, decisions: map<string, GateDecision>) {
    && (forall name :: name in decisions ==> exists g :: g in gates && g.metric == name)
    && (forall i: nat :: i < |gates| && LastOnMetric(gates, i) ==>
          gates[i].metric in decisions && Explains(decisions[gates[i].metric], gates[i], metrics))
  }

  ghost predicate GatesMet(gates: seq<EvaluationGate>, metrics: seq<Metric>) {
    forall i: nat :: i < |gates| && LastOnMetric(gates, i) ==> Meets(gates[i], metrics)
  }

  lemma {:induction false} ObservedCounts(metrics: seq<Metric>, name: string)
    ensures Observed(metrics, name).None? ==> forall i :: 0 <= i < |metrics| ==> metrics[i].name != name
    ensures Observed(metrics, name).Some? ==>
              exists i: nat :: Counts(metrics, name, i) && metrics[i].value == Observed(metrics, name).value
  {
    if metrics != [] {
      if metrics[0].name == name {
        assert Counts(metrics, name, 0);
      } else {
        ObservedCounts(metrics[1..], name);
        if Observed(metrics, name).Some? {
          var i: nat :| Counts(metrics[1..], name, i) && metrics[1..][i].value == Observed(metrics, name).value;
          assert Counts(metrics, name, i + 1);
        }
      }
    }
  }

  lemma EvaluateExplains(gate: EvaluationGate, metrics: seq<Metric>)
    ensures Explains(Evaluate(gate, metrics), gate, metrics)
  {
    ObservedCounts(metrics, gate.metric);
    forall i: nat, j: nat | Counts(metrics, gate.metric, i) && Counts(metrics, gate.metric, j) ensures i == j {}
  }

  /** The stored decisions, and their verdict, in terms of the gates and the reported values alone. */
  lemma GatesDecide(gates: seq<EvaluationGate>, metrics: seq<Metric>)
    ensures Decided(gates, metrics, EvaluateGates(gates, metrics))
    ensures AllPassed(EvaluateGates(gates, metrics)) <==> GatesMet(gates, metrics)
  {
    hide Evaluate, Explains, Meets;
    var decisions := EvaluateGates(gates, metrics);
    forall i: nat | i < |gates| && LastOnMetric(gates, i)
      ensures gates[i].metric in decisions && Explains(decisions[gates[i].metric], gates[i], metrics)
      ensures decisions[gates[i].metric].passed <==> Meets(gates[i], metrics)
    {
      LastGateIsStored(gates, metrics, i);
      EvaluateExplains(gates[i], metrics);
      ExplainedVerdict(decisions[gates[i].metric], gates[i], metrics);
    }
    forall name | name in decisions ensures exists i: nat ::
        i < |gates| && LastOnMetric(gates, i) && gates[i].metric == name && gates[i] in gates
    {
      var i := StoredIsLastGate(gates, metrics, name);
      assert gates[i] in gates;
    }
  }

  lemma ExplainedVerdict(d: GateDecision, gate: EvaluationGate, metrics: seq<Metric>)
    requires Explains(d, gate, metrics)
    ensures d.passed <==> Meets(gate, metrics)
  {
  }
}
