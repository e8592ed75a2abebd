/** What the advantages mean: true returns, isolated episodes and a uniform bound. */
module AdvantageProperties {
  import opened Advantages

  // ---------------------------------------------------------------- returns with lambda = 1

  predicate BinaryDone(r: Rollout) {
    forall k :: 0 <= k < |r.done| ==> r.done[k] == 0.0 || r.done[k] == 1.0
  }

  /** The first done step at or after `t`, or the length of the rollout. */
  function FirstDone(r: Rollout, t: nat): (k: nat)
    requires r.WellFormed() && t <= r.Length()
    ensures t <= k <= r.Length()
    ensures k < r.Length() ==> r.done[k] == 1.0
    ensures forall j :: t <= j < k ==> r.done[j] != 1.0
    decreases r.Length() - t
  {
    if t == r.Length() || r.done[t] == 1.0 then t else FirstDone(r, t + 1)
  }

  /** A value `n` steps ahead. */
  function Discounted(gamma: real, n: nat, x: real): real {
    Power(gamma, n) * x
  }

  /** What is carried back over a step, unless the step ends the episode. */
  function Decayed(x: real, done: real, last: real): real {
    x * (1.0 - done) * last
  }

  lemma DiscountedStep(gamma: real, n: nat, x: real)
    ensures Discounted(gamma, 0, x) == x
    ensures Discounted(gamma, n + 1, x) == Scaled(gamma, Discounted(gamma, n, x))
  {
    Associate(gamma, Power(gamma, n), x);
  }

  lemma DecayedCases(x: real, last: real)
    ensures Decayed(x, 1.0, last) == 0.0 && Decayed(x, 0.0, last) == Scaled(x, last)
  {
  }

  /** The rewards at `from` and later, before `end`, discounted to step `t` and added up. */
  function DiscountedRewards(r: Rollout, gamma: real, t: nat, from: nat, end: nat): real
    requires r.WellFormed() && t <= from <= end <= r.Length()
    decreases end - from
  {
    if from == end then 0.0
    else Discounted(gamma, from - t, r.reward[from]) + DiscountedRewards(r, gamma, t, from + 1, end)
  }

  /** The reward actually collected from `t`: to the end of the episode, or to the horizon and the bootstrap value. */
  function TrueReturn(r: Rollout, gamma: real, t: nat): real
    requires r.WellFormed() && t <= r.Length()
  {
    var k, T := FirstDone(r, t), r.Length();
    if k < T then DiscountedRewards(r, gamma, t, t, k + 1)
    else DiscountedRewards(r, gamma, t, t, T) + Discounted(gamma, T - t, r.nextValue)
  }

  lemma {:induction false} DiscountedRewardsShift(r: Rollout, gamma: real, t: nat, from: nat, end: nat)
    requires r.WellFormed() && t < from <= end <= r.Length()
    ensures DiscountedRewards(r, gamma, t, from, end) == Scaled(gamma, DiscountedRewards(r, gamma, t + 1, from, end))
    decreases end - from
  {
    if from < end {
      DiscountedRewardsShift(r, gamma, t, from + 1, end);
      DiscountedStep(gamma, from - (t + 1), r.reward[from]);
      ScaledSum(gamma, Discounted(gamma, from - (t + 1), r.reward[from]),
                DiscountedRewards(r, gamma, t + 1, from + 1, end));
    } else {
      assert Scaled(gamma, 0.0) == 0.0;
    }
  }

  lemma DiscountedRewardsStep(r: Rollout, gamma: real, t: nat, end: nat)
    requires r.WellFormed() && t < end <= r.Length()
    ensures DiscountedRewards(r, gamma, t, t, end) ==
            r.reward[t] + Scaled(gamma, DiscountedRewards(r, gamma, t + 1, t + 1, end))
  {
    DiscountedStep(gamma, 0, r.reward[t]);
    DiscountedRewardsShift(r, gamma, t, t + 1, end);
  }

  lemma TrueReturnOfLastStep(r: Rollout, gamma: real, t: nat)
    requires r.WellFormed() && t < r.Length() && r.done[t] == 1.0
    ensures TrueReturn(r, gamma, t) == r.reward[t]
  {
    DiscountedStep(gamma, 0, r.reward[t]);
    assert DiscountedRewards(r, gamma, t, t + 1, t + 1) == 0.0;
  }

  lemma TrueReturnGoesOn(r: Rollout, gamma: real, t: nat)
    requires r.WellFormed() && t < r.Length() && r.done[t] != 1.0
    ensures TrueReturn(r, gamma, t) == r.reward[t] + Scaled(gamma, TrueReturn(r, gamma, t + 1))
  {
    var k, T := FirstDone(r, t + 1), r.Length();
    if k < T {
      DiscountedRewardsStep(r, gamma, t, k + 1);
    } else {
      DiscountedRewardsStep(r, gamma, t, T);
      DiscountedStep(gamma, T - (t + 1), r.nextValue);
      ScaledSum(gamma, DiscountedRewards(r, gamma, t + 1, t + 1, T), Discounted(gamma, T - (t + 1), r.nextValue));
    }
  }

  /** The `returns` entry at lambda = 1; after the last step, the bootstrap value. */
  function ReturnAt(r: Rollout, gamma: real, t: nat): real
    requires r.WellFormed() && t <= r.Length()
  {
    if t == r.Length() then r.nextValue else Advantage(r, gamma, 1.0, t) + r.value[t]
  }

  /** With lambda = 1 the `returns` entry is the reward plus the discounted continuation. */
  lemma ReturnRecurrence(r: Rollout, gamma: real, t: nat)
    requires r.WellFormed() && t < r.Length()
    ensures ReturnAt(r, gamma, t) == r.reward[t] + Decayed(gamma, r.done[t], ReturnAt(r, gamma, t + 1))
  {
    AdvantageRecurrence(r, gamma, 1.0, t);
    NoStepsLeft(r, gamma, 1.0);
    var v, a := NextValue(r, t), Advantage(r, gamma, 1.0, t + 1);
    assert ReturnAt(r, gamma, t + 1) == v + a;
    Combine(r.reward[t], r.done[t], r.value[t], v, a, gamma);
  }

  lemma Combine(reward: real, done: real, value: real, next: real, last: real, gamma: real)
    ensures BackwardStep(reward, done, value, next, last, gamma, 1.0) + value ==
            reward + Decayed(gamma, done, next + last)
  {
    var alive := 1.0 - done;
    Distribute(gamma * alive, next, last);
    assert gamma * next * alive == gamma * alive * next;
    assert gamma * 1.0 * alive * last == gamma * alive * last;
  }

  /** With lambda = 1 the value estimates cancel: every `returns` entry is the true discounted return. */
  lemma {:induction false} ReturnsAreTrueReturns(r: Rollout, gamma: real, t: nat)
    requires r.WellFormed() && BinaryDone(r) && t <= r.Length()
    ensures ReturnAt(r, gamma, t) == TrueReturn(r, gamma, t)
    decreases r.Length() - t
  {
    if t == r.Length() {
      DiscountedStep(gamma, 0, r.nextValue);
    } else {
      ReturnRecurrence(r, gamma, t);
      ReturnsAreTrueReturns(r, gamma, t + 1);
      DecayedCases(gamma, ReturnAt(r, gamma, t + 1));
      if r.done[t] == 1.0 {
        TrueReturnOfLastStep(r, gamma, t);
      } else {
        TrueReturnGoesOn(r, gamma, t);
      }
    }
  }

  lemma NoStepsLeft(r: Rollout, gamma: real, gaeLambda: real)
    requires r.WellFormed()
    ensures Advantage(r, gamma, gaeLambda, r.Length()) == 0.0
  {
  }

  // ---------------------------------------------------------------- episodes are isolated

  predicate AgreeUpTo(a: Rollout, b: Rollout, d: nat)
    requires a.WellFormed() && b.WellFormed()
  {
    && d < a.Length() && d < b.Length()
    && forall k :: 0 <= k <= d ==> a.reward[k] == b.reward[k] && a.done[k] == b.done[k] && a.value[k] == b.value[k]
  }

  /** Nothing after a done step reaches the advantages before it, not even the length of the rollout. */
  lemma {:induction false} EpisodesIsolated(a: Rollout, b: Rollout, gamma: real, gaeLambda: real, d: nat, t: nat)
    requires a.WellFormed() && b.WellFormed() && AgreeUpTo(a, b, d)
    requires a.done[d] == 1.0 && t <= d
    ensures Advantage(a, gamma, gaeLambda, t) == Advantage(b, gamma, gaeLambda, t)
    decreases d - t
  {
    AdvantageRecurrence(a, gamma, gaeLambda, t);
    AdvantageRecurrence(b, gamma, gaeLambda, t);
    if t == d {
      DoneCutsOff(a.reward[t], a.value[t], NextValue(a, t), Advantage(a, gamma, gaeLambda, t + 1), gamma, gaeLambda);
      DoneCutsOff(b.reward[t], b.value[t], NextValue(b, t), Advantage(b, gamma, gaeLambda, t + 1), gamma, gaeLambda);
    } else {
      EpisodesIsolated(a, b, gamma, gaeLambda, d, t + 1);
    }
  }

  lemma DoneCutsOff(reward: real, value: real, nextValue: real, last: real, gamma: real, gaeLambda: real)
    ensures BackwardStep(reward, 1.0, value, nextValue, last, gamma, gaeLambda) == reward - value
  {
    assert gamma * nextValue * 0.0 == 0.0 && gamma * gaeLambda * 0.0 * last == 0.0;
  }

  // ---------------------------------------------------------------- advantages are bounded

  function Abs(x: real): real {
    if x < 0.0 then -x else x
  }

  /** The geometric sum `D + x*D + x^2*D + ...` of `n` terms. */
  function GeometricSum(D: real, x: real, n: nat): real {
    if n == 0 then 0.0 else D + Scaled(x, GeometricSum(D, x, n - 1))
  }

  lemma TimesMonotone(c: real, a: real, b: real)
    requires c >= 0.0 && a <= b
    ensures Scaled(c, a) <= Scaled(c, b)
  {
  }

  lemma AbsScaled(x: real, last: real)
    requires x >= 0.0
    ensures Abs(Scaled(x, last)) == Scaled(x, Abs(last))
  {
    TimesMonotone(x, 0.0, Abs(last));
    assert x * -last == -(x * last);
  }

  lemma BoundStep(done: real, delta: real, last: real, x: real, D: real, bound: real)
    requires done == 0.0 || done == 1.0
    requires x >= 0.0 && Abs(delta) <= D && Abs(last) <= bound
    ensures Abs(delta + Decayed(x, done, last)) <= D + Scaled(x, bound)
  {
    DecayedCases(x, last);
    AbsScaled(x, last);
    TimesMonotone(x, Abs(last), bound);
    TimesMonotone(x, 0.0, bound);
  }

  /** Every error of the rollout is at most `D` in size. */
  predicate ErrorsWithin(r: Rollout, gamma: real, D: real)
    requires r.WellFormed()
  {
    forall k :: 0 <= k < r.Length() ==> Abs(Delta(r, gamma, k)) <= D
  }

  lemma AdvantageFromError(r: Rollout, gamma: real, gaeLambda: real, t: nat)
    requires r.WellFormed() && t < r.Length()
    ensures Advantage(r, gamma, gaeLambda, t) ==
            Delta(r, gamma, t) + Decayed(gamma * gaeLambda, r.done[t], Advantage(r, gamma, gaeLambda, t + 1))
  {
    AdvantageRecurrence(r, gamma, gaeLambda, t);
  }

  /** Errors within `D` keep every advantage within a geometric sum over the steps that remain. */
  lemma {:induction false} AdvantageGeometricBound(r: Rollout, gamma: real, gaeLambda: real, D: real, t: nat)
    requires r.WellFormed() && BinaryDone(r) && t <= r.Length()
    requires 0.0 <= gamma * gaeLambda && ErrorsWithin(r, gamma, D)
    ensures Abs(Advantage(r, gamma, gaeLambda, t)) <= GeometricSum(D, gamma * gaeLambda, r.Length() - t)
    decreases r.Length() - t
  {
    if t == r.Length() {
      NoStepsLeft(r, gamma, gaeLambda);
    } else {
      AdvantageGeometricBound(r, gamma, gaeLambda, D, t + 1);
      AdvantageFromError(r, gamma, gaeLambda, t);
      BoundStep(r.done[t], Delta(r, gamma, t), Advantage(r, gamma, gaeLambda, t + 1), gamma * gaeLambda, D,
                GeometricSum(D, gamma * gaeLambda, r.Length() - (t + 1)));
    }
  }

  lemma {:induction false} GeometricSumLimit(D: real, x: real, n: nat)
    requires 0.0 <= x < 1.0 && D >= 0.0
    ensures Scaled(GeometricSum(D, x, n), 1.0 - x) <= D
  {
    if n > 0 {
      GeometricSumLimit(D, x, n - 1);
      LimitStep(D, x, GeometricSum(D, x, n - 1));
    } else {
      assert 0.0 * (1.0 - x) == 0.0;
    }
  }

  lemma LimitStep(D: real, x: real, g: real)
    requires 0.0 <= x < 1.0 && Scaled(g, 1.0 - x) <= D
    ensures Scaled(D + Scaled(x, g), 1.0 - x) <= D
  {
    TimesMonotone(x, g * (1.0 - x), D);
    assert (D + x * g) * (1.0 - x) == D - D * x + x * (g * (1.0 - x));
    assert x * D == D * x;
  }

  lemma QuotientBound(a: real, y: real, D: real)
    requires y > 0.0 && Scaled(a, y) <= D
    ensures a <= D / y
  {
    assert a == a * y / y;
    QuotientMonotone(a * y, D, y);
  }

  lemma QuotientMonotone(p: real, q: real, y: real)
    requires y > 0.0 && p <= q
    ensures p / y <= q / y
  {
  }

  /** Every advantage is at most `D / (1 - gamma*lambda)` in size. */
  lemma AdvantageBound(r: Rollout, gamma: real, gaeLambda: real, D: real, t: nat)
    requires r.WellFormed() && BinaryDone(r) && t <= r.Length()
    requires 0.0 <= gamma * gaeLambda < 1.0 && D >= 0.0
    requires ErrorsWithin(r, gamma, D)
    ensures Abs(Advantage(r, gamma, gaeLambda, t)) <= D / (1.0 - gamma * gaeLambda)
  {
    var x := gamma * gaeLambda;
    AdvantageGeometricBound(r, gamma, gaeLambda, D, t);
    GeometricSumLimit(D, x, r.Length() - t);
    QuotientBound(GeometricSum(D, x, r.Length() - t), 1.0 - x, D);
  }

  // ---------------------------------------------------------------- what lambda mixes

  /** The `returns` entry for any lambda; after the last step, the bootstrap value. */
  function MixedReturn(r: Rollout, gamma: real, gaeLambda: real, t: nat): real
    requires r.WellFormed() && t <= r.Length()
  {
    if t == r.Length() then r.nextValue else Advantage(r, gamma, gaeLambda, t) + r.value[t]
  }

  /**
   * Lambda mixes the estimate with what was seen: a return is the reward plus, unless the step ends the episode, the
   * discounted mix of the next value estimate, weighing one minus lambda, and the next return, weighing lambda.
   */
  lemma LambdaMixes(r: Rollout, gamma: real, gaeLambda: real, t: nat)
    requires r.WellFormed() && t < r.Length()
    ensures MixedReturn(r, gamma, gaeLambda, t) ==
            r.reward[t] + Decayed(gamma, r.done[t], (1.0 - gaeLambda) * NextValue(r, t)
                                                    + gaeLambda * MixedReturn(r, gamma, gaeLambda, t + 1))
  {
    AdvantageRecurrence(r, gamma, gaeLambda, t);
    NoStepsLeft(r, gamma, gaeLambda);
    var v, a := NextValue(r, t), Advantage(r, gamma, gaeLambda, t + 1);
    assert MixedReturn(r, gamma, gaeLambda, t + 1) == v + a;
    Mix(r.reward[t], r.done[t], r.value[t], v, a, gamma, gaeLambda);
  }

  lemma Mix(reward: real, done: real, value: real, next: real, last: real, gamma: real, gaeLambda: real)
    ensures BackwardStep(reward, done, value, next, last, gamma, gaeLambda) + value ==
            reward + Decayed(gamma, done, (1.0 - gaeLambda) * next + gaeLambda * (next + last))
  {
    var alive := 1.0 - done;
    Distribute(gaeLambda, next, last);
    assert (1.0 - gaeLambda) * next == next - gaeLambda * next;
    assert (1.0 - gaeLambda) * next + gaeLambda * (next + last) == next + gaeLambda * last;
    Distribute(gamma * alive, next, gaeLambda * last);
    assert gamma * next * alive == gamma * alive * next;
    Carried(gamma, gaeLambda, alive, last);
  }

  lemma Carried(gamma: real, gaeLambda: real, alive: real, last: real)
    ensures gamma * gaeLambda * alive * last == gamma * alive * (gaeLambda * last)
  {
    assert gamma * gaeLambda * alive == gamma * alive * gaeLambda;
    Associate(gamma * alive, gaeLambda, last);
  }
}
