/** Retry backoff and worker placement (src/policy.rs). */
module Policy {
  import opened Types

  function Pow(base: nat, exponent: nat): nat {
    if exponent == 0 then 1 else base * Pow(base, exponent - 1)
  }

  /** `u32::saturating_pow`. */
  function SatPow32(base: nat, exponent: nat): nat {
    Min(Pow(base, exponent), U32_MAX)
  }

  /** `u64::saturating_mul`. */
  function SatMul64(a: nat, b: nat): nat {
    Min(a * b, U64_MAX)
  }

  function ForAttempt(d: RetryDelay, attempt: nat): nat {
    if attempt == 0 || d.initialMs == 0 then 0
    else
      var exponent := Min(attempt - 1, 20);
      var factor := SatPow32(d.multiplier, exponent);
      Min(SatMul64(d.initialMs, factor), Max(d.maxMs, d.initialMs))
  }

  predicate Allows(required: Residency, actual: Residency) {
    match required
    case Any => true
    case Region(name) => actual.Region? && actual.name == name
  }

  predicate Supports(w: WorkerProfile, p: ExecutionPolicy) {
    && Allows(p.residency, w.residency)
    && w.resources.cpuMillis >= p.resources.cpuMillis
    && w.resources.memoryMb >= p.resources.memoryMb
    && w.resources.gpuCount >= p.resources.gpuCount
    && p.resources.capabilities <= w.resources.capabilities
  }

  predicate SupportsTask(w: WorkerProfile, t: TaskSpec, p: ExecutionPolicy) {
    && Supports(w, p)
    && (w.resources.capabilities == {} || t.capability in w.resources.capabilities)
  }

  /** The worker meets every demand of the step. */
  predicate Equips(w: WorkerProfile, s: StepSpec) {
    var needed, has := s.policy.resources, w.resources;
    && needed.cpuMillis <= has.cpuMillis && needed.memoryMb <= has.memoryMb && needed.gpuCount <= has.gpuCount
    && (forall c <- needed.capabilities :: c in has.capabilities)
    && (s.policy.residency.Any? || w.residency == s.policy.residency)
  }

  /** And it may run the task: it lists its capability, or it lists none at all. */
  predicate Able(w: WorkerProfile, s: StepSpec, t: TaskSpec) {
    Equips(w, s) && (t.capability in w.resources.capabilities || w.resources.capabilities == {})
  }

  lemma AbleIff(w: WorkerProfile, s: StepSpec, t: TaskSpec)
    ensures Supports(w, s.policy) <==> Equips(w, s)
    ensures SupportsTask(w, t, s.policy) <==> Able(w, s, t)
  {
  }

  // Backoff: bounds, monotonicity and the exact relation to exponential growth.

  /** The field widths of the source type. */
  predicate DelayFits(d: RetryDelay) {
    d.initialMs <= U64_MAX && d.maxMs <= U64_MAX && d.multiplier <= U32_MAX
  }

  /** Exponential backoff on unbounded integers, clamped to the cap. */
  function IdealDelay(d: RetryDelay, attempt: nat): nat
    requires attempt >= 1
  {
    Min(d.initialMs * Pow(d.multiplier, attempt - 1), Max(d.maxMs, d.initialMs))
  }

  lemma {:induction false} PowMonotone(base: nat, e1: nat, e2: nat)
    requires base >= 1 && e1 <= e2
    ensures 1 <= Pow(base, e1) <= Pow(base, e2)
    decreases e2
  {
    if e1 < e2 {
      PowMonotone(base, e1, e2 - 1);
      MulAtLeast(Pow(base, e2 - 1), base);
    } else if e1 > 0 {
      PowMonotone(base, e1 - 1, e1 - 1);
      MulAtLeast(Pow(base, e1 - 1), base);
    }
  }

  lemma MulAtLeast(a: nat, b: nat)
    requires b >= 1
    ensures b * a >= a
  {
    assert b * a == (b - 1) * a + a;
  }

  lemma MulMonotone(a: nat, b: nat, c: nat)
    requires b <= c
    ensures a * b <= a * c
  {
    assert a * c == a * b + a * (c - b);
  }

  /** The clamp makes the 64-bit saturation invisible: only the 32-bit factor matters. */
  lemma ForAttemptIsClampedFactor(d: RetryDelay, attempt: nat)
    requires DelayFits(d)
    ensures attempt == 0 ==> ForAttempt(d, attempt) == 0
    ensures attempt >= 1 ==>
              var factor := Min(Pow(d.multiplier, Min(attempt - 1, 20)), U32_MAX);
              ForAttempt(d, attempt) == Min(d.initialMs * factor, Max(d.maxMs, d.initialMs))
  {
  }

  /** A multiplier of 0 lets every delay but the first vanish; otherwise delays stay in bounds. */
  lemma DelayBounds(d: RetryDelay, attempt: nat)
    requires attempt >= 1 && d.initialMs > 0 && DelayFits(d)
    ensures ForAttempt(d, attempt) <= Max(d.maxMs, d.initialMs)
    ensures d.initialMs <= ForAttempt(d, attempt) <==> d.multiplier >= 1 || attempt == 1
  {
    if d.multiplier >= 1 {
      PowMonotone(d.multiplier, 0, Min(attempt - 1, 20));
      MulMonotone(d.initialMs, 1, SatPow32(d.multiplier, Min(attempt - 1, 20)));
    } else {
      ZeroPower(Min(attempt - 1, 20));
    }
  }

  lemma ZeroPower(exponent: nat)
    ensures Pow(0, exponent) == if exponent == 0 then 1 else 0
  {
  }

  /** Delays never fall, unless the multiplier is 0 and the first delay is left behind. */
  lemma DelayMonotone(d: RetryDelay, a1: nat, a2: nat)
    requires a1 <= a2 && DelayFits(d)
    ensures ForAttempt(d, a1) <= ForAttempt(d, a2) <==>
            d.multiplier >= 1 || d.initialMs == 0 || a1 != 1 || a2 == 1
  {
    if d.multiplier == 0 {
      if a1 >= 1 {
        ZeroPower(Min(a1 - 1, 20));
        ZeroPower(Min(a2 - 1, 20));
      }
    } else if a1 >= 1 {
      var e1, e2 := Min(a1 - 1, 20), Min(a2 - 1, 20);
      PowMonotone(d.multiplier, e1, e2);
      MulMonotone(d.initialMs, SatPow32(d.multiplier, e1), SatPow32(d.multiplier, e2));
    }
  }

  /** The factor the source multiplies by: the exponent stops at 20, the power at `u32::MAX`. */
  function CappedFactor(d: RetryDelay, attempt: nat): nat
    requires attempt >= 1
  {
    Min(Pow(d.multiplier, Min(attempt - 1, 20)), U32_MAX)
  }

  /** The wait after an attempt, in closed form. */
  function WaitAfter(d: RetryDelay, attempt: nat): nat
    requires attempt >= 1
  {
    Min(d.initialMs * CappedFactor(d, attempt), Max(d.maxMs, d.initialMs))
  }

  /** Exactly when the delay is true exponential backoff: the capped factor is the true power,
      or the cap has been reached by the capped factor already. */
  lemma DelayIsIdealIff(d: RetryDelay, attempt: nat)
    requires attempt >= 1 && d.initialMs > 0 && DelayFits(d)
    ensures ForAttempt(d, attempt) == IdealDelay(d, attempt) <==>
            || (Pow(d.multiplier, attempt - 1) <= U32_MAX && (attempt <= 21 || d.multiplier <= 1))
            || Max(d.maxMs, d.initialMs) <= d.initialMs * CappedFactor(d, attempt)
  {
    var e := attempt - 1;
    var m := d.multiplier;
    if m == 0 {
      ZeroPower(e);
      ZeroPower(Min(e, 20));
      return;
    }
    PowMonotone(m, Min(e, 20), e);
    if e > 20 {
      PowGrows(m, 20, e);
    }
    var factor, power := CappedFactor(d, attempt), Pow(m, e);
    assert factor <= power;
    MulMonotone(d.initialMs, factor, power);
    if factor < power {
      assert d.initialMs * factor < d.initialMs * power by {
        assert d.initialMs * power == d.initialMs * factor + d.initialMs * (power - factor);
        MulAtLeast(power - factor, d.initialMs);
      }
    }
  }

  lemma {:induction false} PowGrows(base: nat, e1: nat, e2: nat)
    requires base >= 1 && e1 < e2
    ensures base == 1 ==> Pow(base, e1) == Pow(base, e2)
    ensures base > 1 ==> Pow(base, e1) < Pow(base, e2)
    decreases e2
  {
    PowMonotone(base, e1, e2 - 1);
    if base > 1 {
      var p := Pow(base, e2 - 1);
      assert base * p == (base - 2) * p + 2 * p;
    }
    if e1 < e2 - 1 {
      PowGrows(base, e1, e2 - 1);
    }
  }

  /** Doubling from 1 ms under a large cap stops growing at the 21st attempt, although the
      22nd power still fits 32 bits. */
  lemma BackoffStopsAtExponentTwenty()
    ensures var d := RetryDelay(1, 2, U32_MAX);
            && Pow(2, 21) <= U32_MAX
            && ForAttempt(d, 22) == Pow(2, 20) < IdealDelay(d, 22) == Pow(2, 21)
  {
    PowAdd(2, 10, 10);
    assert Pow(2, 10) == 1024 by {
      PowAdd(2, 5, 5);
      assert Pow(2, 5) == 32;
    }
    assert Pow(2, 21) == 2 * Pow(2, 20);
  }

  lemma {:induction false} PowAdd(base: nat, a: nat, b: nat)
    ensures Pow(base, a + b) == Pow(base, a) * Pow(base, b)
  {
    if a > 0 {
      PowAdd(base, a - 1, b);
      MulAssoc(base, Pow(base, a - 1), Pow(base, b));
    }
  }

  lemma MulAssoc(a: nat, b: nat, c: nat)
    ensures a * (b * c) == (a * b) * c
  {
  }
}
