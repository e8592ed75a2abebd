/** Generalised advantage estimation: the backward loop over a rollout, its closed form and what follows from it. */
module Advantages {

  /** One environment's column of a rollout buffer; `done` is 1.0 at the last step of an episode. */
  datatype Rollout = Rollout(reward: seq<real>, done: seq<real>, value: seq<real>, nextValue: real) {
    predicate WellFormed() {
      |reward| == |done| == |value|
    }

    function Length(): nat {
      |reward|
    }
  }

  /** The value that follows step `t`: the next step's, or the bootstrap value after the last one. */
  function NextValue(r: Rollout, t: nat): real
    requires r.WellFormed() && t < r.Length()
  {
    if t == r.Length() - 1 then r.nextValue else r.value[t + 1]
  }

  /** The one-step error at `t`. */
  function Delta(r: Rollout, gamma: real, t: nat): real
    requires r.WellFormed() && t < r.Length()
  {
    r.reward[t] + gamma * NextValue(r, t) * (1.0 - r.done[t]) - r.value[t]
  }

  // ---------------------------------------------------------------- the closed form

  function Power(b: real, n: nat): real {
    if n == 0 then 1.0 else b * Power(b, n - 1)
  }

  /** The product of `1 - done` over the steps `t .. k-1`. */
  function Alive(r: Rollout, t: nat, k: nat): real
    requires r.WellFormed() && t <= k <= r.Length()
    decreases k - t
  {
    if t == k then 1.0 else (1.0 - r.done[t]) * Alive(r, t + 1, k)
  }

  /** What the error at `k` contributes to the advantage at `t`. */
  function Contribution(r: Rollout, gamma: real, decay: real, t: nat, k: nat): real
    requires r.WellFormed() && t <= k < r.Length()
  {
    Power(decay, k - t) * Alive(r, t, k) * Delta(r, gamma, k)
  }

  /** What the errors at `from` and later contribute to the advantage at `t`, added up. */
  function Contributions(r: Rollout, gamma: real, decay: real, t: nat, from: nat): real
    requires r.WellFormed() && t <= from <= r.Length()
    decreases r.Length() - from
  {
    if from == r.Length() then 0.0
    else Contribution(r, gamma, decay, t, from) + Contributions(r, gamma, decay, t, from + 1)
  }

  /** The advantage at step `t`: all later errors, discounted, up to the end of the episode. */
  function Advantage(r: Rollout, gamma: real, gaeLambda: real, t: nat): real
    requires r.WellFormed() && t <= r.Length()
  {
    Contributions(r, gamma, gamma * gaeLambda, t, t)
  }

  lemma ContributionsUnfold(r: Rollout, gamma: real, decay: real, t: nat, from: nat)
    requires r.WellFormed() && t <= from < r.Length()
    ensures Contributions(r, gamma, decay, t, from) ==
            Contribution(r, gamma, decay, t, from) + Contributions(r, gamma, decay, t, from + 1)
  {
  }

  lemma WeightsUnfold(r: Rollout, decay: real, t: nat, k: nat)
    requires r.WellFormed() && t < k < r.Length()
    ensures Power(decay, k - t) == decay * Power(decay, k - (t + 1))
    ensures Alive(r, t, k) == (1.0 - r.done[t]) * Alive(r, t + 1, k)
  {
  }

  function Scaled(factor: real, x: real): real {
    factor * x
  }

  /** Starting one step later takes out a factor. */
  lemma ContributionShift(r: Rollout, gamma: real, decay: real, t: nat, k: nat, factor: real)
    requires r.WellFormed() && t < k < r.Length() && factor == decay * (1.0 - r.done[t])
    ensures Contribution(r, gamma, decay, t, k) == Scaled(factor, Contribution(r, gamma, decay, t + 1, k))
  {
    WeightsUnfold(r, decay, t, k);
    Regroup(decay, Power(decay, k - (t + 1)), 1.0 - r.done[t], Alive(r, t + 1, k), Delta(r, gamma, k));
  }

  lemma {:induction false} ContributionsShift(r: Rollout, gamma: real, decay: real, t: nat, from: nat, factor: real)
    requires r.WellFormed() && t < from <= r.Length() && factor == decay * (1.0 - r.done[t])
    ensures Contributions(r, gamma, decay, t, from) == Scaled(factor, Contributions(r, gamma, decay, t + 1, from))
    decreases r.Length() - from
  {
    if from < r.Length() {
      ContributionShift(r, gamma, decay, t, from, factor);
      ContributionsShift(r, gamma, decay, t, from + 1, factor);
      ContributionsUnfold(r, gamma, decay, t, from);
      ContributionsUnfold(r, gamma, decay, t + 1, from);
      ScaledSum(factor, Contribution(r, gamma, decay, t + 1, from), Contributions(r, gamma, decay, t + 1, from + 1));
    } else {
      assert Scaled(factor, 0.0) == 0.0;
    }
  }

  lemma ScaledSum(factor: real, x: real, y: real)
    ensures Scaled(factor, x + y) == Scaled(factor, x) + Scaled(factor, y)
  {
    Distribute(factor, x, y);
  }

  lemma Regroup(a: real, b: real, c: real, d: real, e: real)
    ensures a * b * (c * d) * e == a * c * (b * d * e)
  {
    assert a * b * (c * d) == a * c * (b * d);
    Associate(a * c, b * d, e);
  }

  lemma Associate(a: real, b: real, c: real)
    ensures a * b * c == a * (b * c)
  {
  }

  lemma Distribute(a: real, b: real, c: real)
    ensures a * (b + c) == a * b + a * c
  {
  }

  /** One pass of the backward loop for one environment. */
  function BackwardStep(reward: real, done: real, value: real, nextValue: real, last: real, gamma: real,
                        gaeLambda: real): real
  {
    var nextNonterminal := 1.0 - done;
    var delta := reward + gamma * nextValue * nextNonterminal - value;
    delta + gamma * gaeLambda * nextNonterminal * last
  }

  /** The advantages obey the recurrence the backward loop follows. */
  lemma AdvantageRecurrence(r: Rollout, gamma: real, gaeLambda: real, t: nat)
    requires r.WellFormed() && t < r.Length()
    ensures Advantage(r, gamma, gaeLambda, t) ==
            BackwardStep(r.reward[t], r.done[t], r.value[t], NextValue(r, t),
                         Advantage(r, gamma, gaeLambda, t + 1), gamma, gaeLambda)
  {
    FirstContribution(r, gamma, gamma * gaeLambda, t);
    ContributionsUnfold(r, gamma, gamma * gaeLambda, t, t);
    ContributionsShift(r, gamma, gamma * gaeLambda, t, t + 1, gamma * gaeLambda * (1.0 - r.done[t]));
  }

  lemma FirstContribution(r: Rollout, gamma: real, decay: real, t: nat)
    requires r.WellFormed() && t < r.Length()
    ensures Contribution(r, gamma, decay, t, t) == Delta(r, gamma, t)
  {
  }

  // ---------------------------------------------------------------- the loop over a whole buffer

  /** Stacked rollout buffers: a row for every step, a column for every environment. */
  datatype Buffer = Buffer(nEnvs: nat, rewards: seq<seq<real>>, dones: seq<seq<real>>, values: seq<seq<real>>,
                           nextValue: seq<real>) {
    predicate WellFormed() {
      && |rewards| == |dones| == |values|
      && |nextValue| == nEnvs
      && forall t :: 0 <= t < |rewards| ==> |rewards[t]| == |dones[t]| == |values[t]| == nEnvs
    }

    function Steps(): nat {
      |rewards|
    }
  }

  function Column(rows: seq<seq<real>>, e: nat): seq<real>
    requires forall t :: 0 <= t < |rows| ==> e < |rows[t]|
  {
    seq(|rows|, t requires 0 <= t < |rows| => rows[t][e])
  }

  function RolloutOf(b: Buffer, e: nat): (r: Rollout)
    requires b.WellFormed() && e < b.nEnvs
    ensures r.WellFormed() && r.Length() == b.Steps()
  {
    Rollout(Column(b.rewards, e), Column(b.dones, e), Column(b.values, e), b.nextValue[e])
  }

  /** One row of the backward loop. */
  function BackwardRow(b: Buffer, gamma: real, gaeLambda: real, step: nat, last: seq<real>): (row: seq<real>)
    requires b.WellFormed() && step < b.Steps() && |last| == b.nEnvs
    ensures |row| == b.nEnvs
  {
    var nextValues := if step == b.Steps() - 1 then b.nextValue else b.values[step + 1];
    seq(b.nEnvs, e requires 0 <= e < b.nEnvs =>
      BackwardStep(b.rewards[step][e], b.dones[step][e], b.values[step][e], nextValues[e], last[e], gamma, gaeLambda))
  }

  /** A row holds the advantages of one step, in every column. */
  predicate IsAdvantageRow(b: Buffer, gamma: real, gaeLambda: real, t: nat, row: seq<real>)
    requires b.WellFormed() && t <= b.Steps()
  {
    |row| == b.nEnvs && forall e :: 0 <= e < b.nEnvs ==> row[e] == Advantage(RolloutOf(b, e), gamma, gaeLambda, t)
  }

  lemma BackwardRowIsAdvantage(b: Buffer, gamma: real, gaeLambda: real, step: nat, last: seq<real>)
    requires b.WellFormed() && step < b.Steps() && IsAdvantageRow(b, gamma, gaeLambda, step + 1, last)
    ensures IsAdvantageRow(b, gamma, gaeLambda, step, BackwardRow(b, gamma, gaeLambda, step, last))
  {
    forall e | 0 <= e < b.nEnvs
      ensures BackwardRow(b, gamma, gaeLambda, step, last)[e] == Advantage(RolloutOf(b, e), gamma, gaeLambda, step)
    {
      AdvantageRecurrence(RolloutOf(b, e), gamma, gaeLambda, step);
    }
  }

  /** The backward loop: `lastgaelam` is carried from the last step to the first and written row by row. */
  method ComputeAdvantages(b: Buffer, gamma: real, gaeLambda: real)
    returns (advantages: array2<real>, rets: array2<real>)
    requires b.WellFormed()
    ensures fresh(advantages) && fresh(rets)
    ensures advantages.Length0 == rets.Length0 == b.Steps() && advantages.Length1 == rets.Length1 == b.nEnvs
    ensures forall t, e :: 0 <= t < b.Steps() && 0 <= e < b.nEnvs ==>
              advantages[t, e] == Advantage(RolloutOf(b, e), gamma, gaeLambda, t)
    ensures forall t, e :: 0 <= t < b.Steps() && 0 <= e < b.nEnvs ==>
              rets[t, e] == Advantage(RolloutOf(b, e), gamma, gaeLambda, t) + b.values[t][e]
  {
    var T, n := b.Steps(), b.nEnvs;
    advantages := new real[T, n]((_, _) => 0.0);
    var lastgaelam := seq(n, _ => 0.0);
    var step := T;
    while step > 0
      invariant 0 <= step <= T
      invariant IsAdvantageRow(b, gamma, gaeLambda, step, lastgaelam)
      invariant forall t, e :: step <= t < T && 0 <= e < n ==>
                advantages[t, e] == Advantage(RolloutOf(b, e), gamma, gaeLambda, t)
    {
      step := step - 1;
      BackwardRowIsAdvantage(b, gamma, gaeLambda, step, lastgaelam);
      lastgaelam := BackwardRow(b, gamma, gaeLambda, step, lastgaelam);
      forall e | 0 <= e < n {
        advantages[step, e] := lastgaelam[e];
      }
    }
    var computed := advantages;
    rets := new real[T, n]((t, e) requires 0 <= t < computed.Length0 && 0 <= e < computed.Length1
                                         && b.WellFormed() && t < b.Steps() && e < b.nEnvs reads computed =>
      computed[t, e] + b.values[t][e]);
  }
}
