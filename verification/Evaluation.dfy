/** Evaluating a policy: stepping all walkers until four batches of finished episodes are recorded. */
module Evaluation {
  import opened Text
  import opened LineWorld
  import opened Episodes
  import opened Vectors
  import opened PolicyRuns

  // ---------------------------------------------------------------- what an iteration does to the buffers

  /** The running totals of all walkers, and the recorded batches. */
  datatype Buffers = Buffers(activeReturn: seq<real>, activeLength: seq<real>,
                             rets: seq<seq<real>>, lengths: seq<seq<real>>, successes: seq<seq<bool>>)
  {
    predicate Wide(n: nat) {
      |activeReturn| == n && |activeLength| == n
    }
  }

  /** The recomputed goal flags, from the positions before a step. */
  function ReachedGoal(cfg: Config, positions: seq<int>, action: seq<int>): seq<bool>
    requires |positions| == |action|
  {
    seq(|positions|, i requires 0 <= i < |positions| => Move(cfg, positions[i], action[i]) == cfg.Goal())
  }

  function Positions(ws: seq<Walker>): seq<int> {
    seq(|ws|, i requires 0 <= i < |ws| => ws[i].pos)
  }

  /** The recomputed flags are the environment's own success flags. */
  lemma ReachedGoalIsSuccess(cfg: Config, ws: seq<Walker>, action: seq<int>, i: nat)
    requires |ws| == |action| && i < |ws|
    ensures ReachedGoal(cfg, Positions(ws), action)[i] == StepWalker(cfg, ws[i], action[i]).success
  {
  }

  function Advanced(b: Buffers, reward: seq<real>): Buffers
    requires b.Wide(|reward|)
  {
    b.(activeReturn := Plus(b.activeReturn, reward), activeLength := Plus(b.activeLength, Ones(|reward|)))
  }

  /** Records the finished walkers as one batch and clears what they had collected. */
  function Recorded(b: Buffers, done: seq<bool>, reached: seq<bool>): Buffers
    requires b.Wide(|done|) && |reached| == |done|
  {
    if !Any(done) then b
    else Buffers(Cleared(done, b.activeReturn, 0.0), Cleared(done, b.activeLength, 0.0),
                 b.rets + [Select(done, b.activeReturn)], b.lengths + [Select(done, b.activeLength)],
                 b.successes + [Select(done, reached)])
  }

  function Iterated(cfg: Config, ws: seq<Walker>, action: seq<int>, b: Buffers): Buffers
    requires |ws| == |action| && b.Wide(|ws|)
  {
    Recorded(Advanced(b, Rewards(cfg, ws, action)), Dones(cfg, ws, action), ReachedGoal(cfg, Positions(ws), action))
  }

  // ---------------------------------------------------------------- conservation

  /** What was recorded and what is still active make up a total. */
  predicate Balanced(recorded: seq<seq<real>>, active: seq<real>, total: real) {
    Sum(Flatten(recorded)) + Sum(active) == total
  }

  lemma BalancedGrows(recorded: seq<seq<real>>, active: seq<real>, total: real, more: seq<real>)
    requires |active| == |more| && Balanced(recorded, active, total)
    ensures Balanced(recorded, Plus(active, more), total + Sum(more))
  {
    SumPlus(active, more);
  }

  /** Recording moves what the finished walkers collected, and nothing else, out of the active part. */
  lemma BalancedRecord(recorded: seq<seq<real>>, active: seq<real>, total: real, done: seq<bool>)
    requires |done| == |active| && Balanced(recorded, active, total)
    ensures Balanced(recorded + [Select(done, active)], Cleared(done, active, 0.0), total)
  {
    FlattenSnoc(recorded, Select(done, active));
    SumAppend(Flatten(recorded), Select(done, active));
    SelectedAndCleared(done, active);
  }

  /** Every reward and every step is either recorded or still with its walker. */
  predicate Conserved(b: Buffers, paid: real, stepped: real) {
    Balanced(b.rets, b.activeReturn, paid) && Balanced(b.lengths, b.activeLength, stepped)
  }

  lemma AdvancedConserves(b: Buffers, reward: seq<real>, paid: real, stepped: real)
    requires b.Wide(|reward|) && Conserved(b, paid, stepped)
    ensures Conserved(Advanced(b, reward), paid + Sum(reward), stepped + |reward| as real)
    ensures Advanced(b, reward).Wide(|reward|)
  {
    BalancedGrows(b.rets, b.activeReturn, paid, reward);
    BalancedGrows(b.lengths, b.activeLength, stepped, Ones(|reward|));
    SumOnes(|reward|);
  }

  lemma AdvancedKeeps(b: Buffers, reward: seq<real>, n: nat, k: nat, paid: real)
    requires |reward| == n && b.Wide(n) && Conserved(b, paid, Times(k, n as real))
    ensures Conserved(Advanced(b, reward), paid + Sum(reward), Times(k + 1, n as real)) && Advanced(b, reward).Wide(n)
  {
    AdvancedConserves(b, reward, paid, Times(k, n as real));
  }

  lemma RecordedConserves(b: Buffers, done: seq<bool>, reached: seq<bool>, paid: real, stepped: real)
    requires b.Wide(|done|) && |reached| == |done| && Conserved(b, paid, stepped)
    ensures Conserved(Recorded(b, done, reached), paid, stepped) && Recorded(b, done, reached).Wide(|done|)
  {
    BalancedRecord(b.rets, b.activeReturn, paid, done);
    BalancedRecord(b.lengths, b.activeLength, stepped, done);
  }

  // ---------------------------------------------------------------- the buffers hold the policy's episodes

  /** The buffers after `k` iterations: the episodes finished so far, and what the unfinished ones have collected. */
  function BuffersAfter(cfg: Config, act: Policy, n: nat, k: nat): (b: Buffers)
    ensures b.Wide(n)
  {
    var batches := Batches(cfg, act, n, k);
    Buffers(ActiveReturns(cfg, act, n, k), ActiveLengths(cfg, act, n, k),
            MapAll(Ret, batches), MapAll(Length, batches), MapAll(Success, batches))
  }

  lemma {:induction false} SelectedBatch<T>(cfg: Config, act: Policy, n: nat, k: nat, i: nat, mask: seq<bool>,
                                            xs: seq<T>, f: Episode -> T)
    requires i <= n && |mask| == |xs| == n
    requires forall j :: 0 <= j < n ==> (mask[j] <==> Finished(cfg, act, j, k).Some?)
    requires forall j :: 0 <= j < n && mask[j] ==> xs[j] == f(Finished(cfg, act, j, k).value)
    ensures Select(mask[i..], xs[i..]) == Map(f, BatchFrom(cfg, act, n, k, i))
    decreases n - i
  {
    if i < n {
      SelectedBatch(cfg, act, n, k, i + 1, mask, xs, f);
      assert mask[i..][1..] == mask[i + 1..] && xs[i..][1..] == xs[i + 1..];
      assert mask[i..][0] == mask[i] && xs[i..][0] == xs[i];
      var e := Finished(cfg, act, i, k);
      var head := if e.Some? then [e.value] else [];
      MapAppend(f, head, BatchFrom(cfg, act, n, k, i + 1));
    }
  }

  lemma WholeBatch<T>(cfg: Config, act: Policy, n: nat, k: nat, mask: seq<bool>, xs: seq<T>, f: Episode -> T)
    requires |mask| == |xs| == n
    requires forall j :: 0 <= j < n ==> (mask[j] <==> Finished(cfg, act, j, k).Some?)
    requires forall j :: 0 <= j < n && mask[j] ==> xs[j] == f(Finished(cfg, act, j, k).value)
    ensures Select(mask, xs) == Map(f, Batch(cfg, act, n, k))
  {
    SelectedBatch(cfg, act, n, k, 0, mask, xs, f);
    assert mask[0..] == mask && xs[0..] == xs;
  }

  lemma {:induction false} AnySelected<T>(mask: seq<bool>, xs: seq<T>)
    requires |mask| == |xs|
    ensures Any(mask) <==> Select(mask, xs) != []
  {
    if mask != [] {
      AnySelected(mask[1..], xs[1..]);
      if Any(mask) && !mask[0] {
        var i :| 0 <= i < |mask| && mask[i];
        assert mask[1..][i - 1];
      }
      if Any(mask[1..]) {
        var i :| 0 <= i < |mask[1..]| && mask[1..][i];
        assert mask[i + 1];
      }
    }
  }

  /** What the mask of an iteration selects is the batch of episodes finished in it. */
  lemma BatchSelected(cfg: Config, act: Policy, n: nat, k: nat)
    ensures
      var ws, action := WalkersAfter(cfg, act, n, k), Chosen(act, n, k);
      var advanced, done := Advanced(BuffersAfter(cfg, act, n, k), Rewards(cfg, ws, action)), Dones(cfg, ws, action);
      && Select(done, advanced.activeReturn) == Map(Ret, Batch(cfg, act, n, k))
      && Select(done, advanced.activeLength) == Map(Length, Batch(cfg, act, n, k))
      && Select(done, ReachedGoal(cfg, Positions(ws), action)) == Map(Success, Batch(cfg, act, n, k))
      && (Any(done) <==> Batch(cfg, act, n, k) != [])
  {
    var ws, action := WalkersAfter(cfg, act, n, k), Chosen(act, n, k);
    var advanced, done := Advanced(BuffersAfter(cfg, act, n, k), Rewards(cfg, ws, action)), Dones(cfg, ws, action);
    var reached := ReachedGoal(cfg, Positions(ws), action);
    forall i: nat | i < n
      ensures done[i] <==> Finished(cfg, act, i, k).Some?
      ensures done[i] ==>
                var e := Finished(cfg, act, i, k).value;
                advanced.activeReturn[i] == Ret(e) && advanced.activeLength[i] == Length(e) && reached[i] == Success(e)
    {
      FinishedExactly(cfg, act, i, k);
    }
    WholeBatch(cfg, act, n, k, done, advanced.activeReturn, Ret);
    WholeBatch(cfg, act, n, k, done, advanced.activeLength, Length);
    WholeBatch(cfg, act, n, k, done, reached, Success);
    AnySelected(done, reached);
  }

  lemma ActiveStep(cfg: Config, act: Policy, n: nat, k: nat)
    ensures
      var ws, action := WalkersAfter(cfg, act, n, k), Chosen(act, n, k);
      var advanced, done := Advanced(BuffersAfter(cfg, act, n, k), Rewards(cfg, ws, action)), Dones(cfg, ws, action);
      && Cleared(done, advanced.activeReturn, 0.0) == ActiveReturns(cfg, act, n, k + 1)
      && Cleared(done, advanced.activeLength, 0.0) == ActiveLengths(cfg, act, n, k + 1)
  {
    var ws, action := WalkersAfter(cfg, act, n, k), Chosen(act, n, k);
    var advanced, done := Advanced(BuffersAfter(cfg, act, n, k), Rewards(cfg, ws, action)), Dones(cfg, ws, action);
    forall i: nat | i < n
      ensures Cleared(done, advanced.activeReturn, 0.0)[i] == ActiveReturn(cfg, act, i, k + 1)
      ensures Cleared(done, advanced.activeLength, 0.0)[i] == WalkerAfter(cfg, act, i, k + 1).steps as real
    {
    }
  }

  lemma NothingCleared(mask: seq<bool>, xs: seq<real>)
    requires |mask| == |xs| && !Any(mask)
    ensures Cleared(mask, xs, 0.0) == xs
  {
  }

  /** An iteration takes the buffers of `k` iterations to those of `k + 1`. */
  lemma BuffersStep(cfg: Config, act: Policy, n: nat, k: nat)
    ensures Iterated(cfg, WalkersAfter(cfg, act, n, k), Chosen(act, n, k), BuffersAfter(cfg, act, n, k)) ==
            BuffersAfter(cfg, act, n, k + 1)
  {
    var ws, action := WalkersAfter(cfg, act, n, k), Chosen(act, n, k);
    var advanced, done := Advanced(BuffersAfter(cfg, act, n, k), Rewards(cfg, ws, action)), Dones(cfg, ws, action);
    BatchSelected(cfg, act, n, k);
    ActiveStep(cfg, act, n, k);
    var before, b := Batches(cfg, act, n, k), Batch(cfg, act, n, k);
    if b == [] {
      NothingCleared(done, advanced.activeReturn);
      NothingCleared(done, advanced.activeLength);
      assert before + [] == before;
    } else {
      MapAllSnoc(Ret, before, b);
      MapAllSnoc(Length, before, b);
      MapAllSnoc(Success, before, b);
    }
  }

  lemma BuffersStart(cfg: Config, act: Policy, n: nat)
    ensures BuffersAfter(cfg, act, n, 0) == Buffers(Zeros(n), Zeros(n), [], [], [])
    ensures Conserved(BuffersAfter(cfg, act, n, 0), 0.0, 0.0)
  {
    SumZeros(n);
  }

  lemma IteratedConserves(cfg: Config, ws: seq<Walker>, action: seq<int>, b: Buffers, paid: real, stepped: real)
    requires |ws| == |action| && b.Wide(|ws|) && Conserved(b, paid, stepped)
    ensures Conserved(Iterated(cfg, ws, action, b), paid + Sum(Rewards(cfg, ws, action)), stepped + |ws| as real)
  {
    var reward := Rewards(cfg, ws, action);
    AdvancedConserves(b, reward, paid, stepped);
    RecordedConserves(Advanced(b, reward), Dones(cfg, ws, action), ReachedGoal(cfg, Positions(ws), action),
                      paid + Sum(reward), stepped + |ws| as real);
  }

  ghost predicate ConservedAt(cfg: Config, act: Policy, n: nat, k: nat) {
    Conserved(BuffersAfter(cfg, act, n, k), Paid(cfg, act, n, k), Times(k, n as real))
  }

  lemma ConservesStep(cfg: Config, act: Policy, n: nat, k: nat)
    requires ConservedAt(cfg, act, n, k)
    ensures ConservedAt(cfg, act, n, k + 1)
  {
    var b, paid, stepped := BuffersAfter(cfg, act, n, k), Paid(cfg, act, n, k), Times(k, n as real);
    IteratedConserves(cfg, WalkersAfter(cfg, act, n, k), Chosen(act, n, k), b, paid, stepped);
    BuffersStep(cfg, act, n, k);
  }

  lemma ConservesStart(cfg: Config, act: Policy, n: nat)
    ensures ConservedAt(cfg, act, n, 0)
  {
    BuffersStart(cfg, act, n);
  }

  /** At all times, the rewards recorded and still active are all that were paid, and likewise the steps. */
  lemma {:induction false} RunConserves(cfg: Config, act: Policy, n: nat, k: nat)
    ensures ConservedAt(cfg, act, n, k)
  {
    ConservesStart(cfg, act, n);
    for j := 0 to k
      invariant ConservedAt(cfg, act, n, j)
    {
      ConservesStep(cfg, act, n, j);
    }
  }

  // ---------------------------------------------------------------- the evaluation loop

  class Evaluator {
    const env: VectorLineWorld
    var activeReturn: seq<real>
    var activeLength: seq<real>
    /** Finished episodes, one batch for every iteration that finished some. */
    var rets: seq<seq<real>>
    var lengths: seq<seq<real>>
    var successes: seq<seq<bool>>
    ghost var iterations: nat
    ghost var collected: real

    function View(): Buffers
      reads this
    {
      Buffers(activeReturn, activeLength, rets, lengths, successes)
    }

    ghost predicate Valid()
      reads this, env, env.pos, env.steps
    {
      env.Valid() && View().Wide(env.nEnvs) && Conserved(View(), collected, Times(iterations, env.nEnvs as real))
    }

    constructor (cfg: Config, evalEnvs: nat)
      ensures Valid() && fresh(env) && fresh(env.pos) && fresh(env.steps)
      ensures env.cfg == cfg && env.nEnvs == evalEnvs && env.Walkers() == seq(evalEnvs, _ => START)
      ensures View() == Buffers(Zeros(evalEnvs), Zeros(evalEnvs), [], [], [])
      ensures iterations == 0 && collected == 0.0
    {
      env := new VectorLineWorld(cfg, evalEnvs);
      activeReturn, activeLength := Zeros(evalEnvs), Zeros(evalEnvs);
      rets, lengths, successes := [], [], [];
      iterations, collected := 0, 0.0;
      SumZeros(evalEnvs);
    }

    /** Walkers and buffers are those of a policy after `k` iterations. */
    ghost predicate Tracks(act: Policy, k: nat)
      requires env.Valid()
      reads this, env, env.pos, env.steps
    {
      && iterations == k
      && env.Walkers() == WalkersAfter(env.cfg, act, env.nEnvs, k)
      && View() == BuffersAfter(env.cfg, act, env.nEnvs, k)
    }

    /** One iteration of a policy. */
    method Follow(act: Policy, k: nat)
      requires Valid() && Tracks(act, k) && env.nEnvs >= 1 && |rets| < BATCHES
      modifies this, env`pos, env.steps
      ensures Valid() && Tracks(act, k + 1) && fresh(env.pos) && env.steps == old(env.steps)
      ensures k < BATCHES * Horizon(env.cfg) && Needed(env.cfg, act, env.nEnvs, k + 1) && |rets| <= BATCHES
    {
      EvaluationStep(env.cfg, act, env.nEnvs, k, env.Walkers(), View());
      Iterate(Chosen(act, env.nEnvs, k));
    }

    /** Iterates until four batches are recorded. */
    method FollowToEnd(act: Policy) returns (k: nat)
      requires Valid() && Tracks(act, 0) && env.nEnvs >= 1 && rets == []
      modifies this, env`pos, env.steps
      ensures Valid() && Tracks(act, k) && |rets| == BATCHES
      ensures k <= BATCHES * Horizon(env.cfg) && Needed(env.cfg, act, env.nEnvs, k)
    {
      k := 0;
      while |rets| < BATCHES
        invariant Valid() && Tracks(act, k) && |rets| <= BATCHES
        invariant env.steps == old(env.steps) && (env.pos == old(env.pos) || fresh(env.pos))
        invariant k <= BATCHES * Horizon(env.cfg) && Needed(env.cfg, act, env.nEnvs, k)
        decreases BATCHES * Horizon(env.cfg) - k
      {
        Follow(act, k);
        k := k + 1;
      }
    }

    /** One iteration: step every walker, then record and clear the finished ones. */
    method Iterate(action: seq<int>)
      requires Valid() && |action| == env.nEnvs
      modifies this, env`pos, env.steps
      ensures Valid() && fresh(env.pos) && env.steps == old(env.steps)
      ensures iterations == old(iterations) + 1
      ensures collected == old(collected) + Sum(Rewards(env.cfg, old(env.Walkers()), action))
      ensures env.Walkers() == NextWalkers(env.cfg, old(env.Walkers()), action)
      ensures View() == Iterated(env.cfg, old(env.Walkers()), action, old(View()))
    {
      var done, reached := Advance(action);
      label Stepped:
      RecordFinished(done, reached);
      assert env.Walkers() == old@Stepped(env.Walkers());
    }

    /** The active totals grow by one step's rewards and by one step each; nothing is recorded yet. */
    method Advance(action: seq<int>) returns (done: seq<bool>, reached: seq<bool>)
      requires Valid() && |action| == env.nEnvs
      modifies this`activeReturn, this`activeLength, this`iterations, this`collected, env`pos, env.steps
      ensures Valid() && fresh(env.pos) && env.steps == old(env.steps)
      ensures iterations == old(iterations) + 1
      ensures collected == old(collected) + Sum(Rewards(env.cfg, old(env.Walkers()), action))
      ensures View() == Advanced(old(View()), Rewards(env.cfg, old(env.Walkers()), action))
      ensures env.Walkers() == NextWalkers(env.cfg, old(env.Walkers()), action)
      ensures done == Dones(env.cfg, old(env.Walkers()), action)
      ensures reached == ReachedGoal(env.cfg, Positions(old(env.Walkers())), action)
    {
      var reward;
      reward, done, reached := StepEnv(action);
      ghost var before := View();
      AdvancedKeeps(before, reward, env.nEnvs, iterations, collected);
      activeReturn := Plus(activeReturn, reward);
      activeLength := Plus(activeLength, Ones(env.nEnvs));
      iterations, collected := iterations + 1, collected + Sum(reward);
      assert View() == Advanced(before, reward);
    }

    /** Steps the environment and recomputes the goal flags from the positions before the step. */
    method StepEnv(action: seq<int>) returns (reward: seq<real>, done: seq<bool>, reached: seq<bool>)
      requires env.Valid() && |action| == env.nEnvs
      modifies env`pos, env.steps
      ensures env.Valid() && fresh(env.pos) && env.steps == old(env.steps)
      ensures env.Walkers() == NextWalkers(env.cfg, old(env.Walkers()), action)
      ensures reward == Rewards(env.cfg, old(env.Walkers()), action)
      ensures done == Dones(env.cfg, old(env.Walkers()), action)
      ensures reached == ReachedGoal(env.cfg, Positions(old(env.Walkers())), action)
    {
      var oldPos := env.pos[..];
      assert oldPos == Positions(env.Walkers());
      reward, done := env.Step(action);
      reached := ReachedGoal(env.cfg, oldPos, action);
    }

    /** Records the finished walkers as one batch and clears what they had collected. */
    method RecordFinished(done: seq<bool>, reached: seq<bool>)
      requires Valid() && |done| == |reached| == env.nEnvs
      modifies this`activeReturn, this`activeLength, this`rets, this`lengths, this`successes
      ensures Valid()
      ensures View() == Recorded(old(View()), done, reached)
    {
      ghost var before := View();
      RecordedConserves(before, done, reached, collected, Times(iterations, env.nEnvs as real));
      if Any(done) {
        rets := rets + [Select(done, activeReturn)];
        lengths := lengths + [Select(done, activeLength)];
        successes := successes + [Select(done, reached)];
        activeReturn := Cleared(done, activeReturn, 0.0);
        activeLength := Cleared(done, activeLength, 0.0);
      }
      assert View() == Recorded(before, done, reached);
    }
  }

  // ---------------------------------------------------------------- the whole evaluation

  datatype Metrics = Metrics(meanReturn: real, successRate: real, meanLength: real)

  function Count(flags: seq<bool>): nat {
    if flags == [] then 0 else (if flags[0] then 1 else 0) + Count(flags[1..])
  }

  function Summary(rets: seq<real>, lengths: seq<real>, successes: seq<bool>): Metrics
    requires |rets| == |lengths| == |successes| > 0
  {
    var n := |rets| as real;
    Metrics(Sum(rets) / n, Count(successes) as real / n, Sum(lengths) / n)
  }

  /** The recorded vectors list the episodes of the first `k` iterations, in order. */
  predicate Lists(cfg: Config, act: Policy, n: nat, k: nat, rets: seq<real>, lengths: seq<real>, successes: seq<bool>) {
    var episodes := Flatten(Batches(cfg, act, n, k));
    rets == Map(Ret, episodes) && lengths == Map(Length, episodes) && successes == Map(Success, episodes)
  }

  lemma BuffersList(cfg: Config, act: Policy, n: nat, k: nat)
    ensures var b := BuffersAfter(cfg, act, n, k);
            Lists(cfg, act, n, k, Flatten(b.rets), Flatten(b.lengths), Flatten(b.successes))
  {
    FlattenMapAll(Ret, Batches(cfg, act, n, k));
    FlattenMapAll(Length, Batches(cfg, act, n, k));
    FlattenMapAll(Success, Batches(cfg, act, n, k));
  }

  lemma StopsInTime(cfg: Config, act: Policy, n: nat, k: nat)
    requires n >= 1 && |Batches(cfg, act, n, k)| < BATCHES
    ensures k < BATCHES * Horizon(cfg)
  {
    IterationsBounded(cfg, act, n, k);
    FewBatchesFewIterations(|Batches(cfg, act, n, k)|, Horizon(cfg), k, WalkerAfter(cfg, act, 0, k).steps);
  }

  /** The last of `k` iterations began with fewer than four batches. */
  predicate Needed(cfg: Config, act: Policy, n: nat, k: nat) {
    k > 0 ==> |Batches(cfg, act, n, k - 1)| < BATCHES
  }

  /** One more iteration below four batches. */
  lemma EvaluationStep(cfg: Config, act: Policy, n: nat, k: nat, ws: seq<Walker>, b: Buffers)
    requires n >= 1 && ws == WalkersAfter(cfg, act, n, k) && b == BuffersAfter(cfg, act, n, k) && |b.rets| < BATCHES
    ensures k < BATCHES * Horizon(cfg) && Needed(cfg, act, n, k + 1)
    ensures NextWalkers(cfg, ws, Chosen(act, n, k)) == WalkersAfter(cfg, act, n, k + 1)
    ensures Iterated(cfg, ws, Chosen(act, n, k), b) == BuffersAfter(cfg, act, n, k + 1)
    ensures |BuffersAfter(cfg, act, n, k + 1).rets| <= BATCHES
  {
    StopsInTime(cfg, act, n, k);
    BuffersStep(cfg, act, n, k);
  }

  /** What the records say once there are four batches. */
  lemma EvaluationEnds(cfg: Config, act: Policy, n: nat, k: nat, b: Buffers)
    requires b == BuffersAfter(cfg, act, n, k)
    ensures Lists(cfg, act, n, k, Flatten(b.rets), Flatten(b.lengths), Flatten(b.successes))
    ensures |Flatten(b.rets)| == |Flatten(b.lengths)| == |Flatten(b.successes)| >= |b.rets| == |Batches(cfg, act, n, k)|
    ensures Sum(Flatten(b.rets)) + Sum(ActiveReturns(cfg, act, n, k)) == Paid(cfg, act, n, k)
    ensures Sum(Flatten(b.lengths)) + Sum(ActiveLengths(cfg, act, n, k)) == Times(k, n as real)
  {
    BuffersList(cfg, act, n, k);
    BatchesPlayed(cfg, act, n, k);
    RunConserves(cfg, act, n, k);
  }

  /**
   * Evaluates until four batches are recorded; `action(k, i)` is what walker `i` is told in iteration `k`. It stops
   * with the first iteration that makes four batches and has recorded exactly the episodes finished by then.
   */
  method Evaluate(cfg: Config, evalEnvs: nat, action: Policy)
    returns (m: Metrics, allReturns: seq<real>, allLengths: seq<real>, allSuccesses: seq<bool>, iterations: nat)
    requires evalEnvs >= 1
    ensures 0 < iterations <= 4 * Horizon(cfg)
    ensures |Batches(cfg, action, evalEnvs, iterations - 1)| < 4 == |Batches(cfg, action, evalEnvs, iterations)|
    ensures Lists(cfg, action, evalEnvs, iterations, allReturns, allLengths, allSuccesses)
    ensures |allReturns| >= 4 && m == Summary(allReturns, allLengths, allSuccesses)
    ensures Sum(allReturns) + Sum(ActiveReturns(cfg, action, evalEnvs, iterations)) ==
            Paid(cfg, action, evalEnvs, iterations)
    ensures Sum(allLengths) + Sum(ActiveLengths(cfg, action, evalEnvs, iterations)) ==
            Times(iterations, evalEnvs as real)
  {
    var e := new Evaluator(cfg, evalEnvs);
    BuffersStart(cfg, action, evalEnvs);
    iterations := e.FollowToEnd(action);
    allReturns, allLengths, allSuccesses := Flatten(e.rets), Flatten(e.lengths), Flatten(e.successes);
    EvaluationEnds(cfg, action, evalEnvs, iterations, e.View());
    m := Summary(allReturns, allLengths, allSuccesses);
  }

  /** Without walkers every iteration leaves the records as they are, so the loop would not end. */
  method IterateWithoutWalkers(e: Evaluator, times: nat)
    requires e.Valid() && e.env.nEnvs == 0
    modifies e, e.env`pos, e.env.steps
    ensures e.iterations == old(e.iterations) + times
    ensures e.rets == old(e.rets) && e.lengths == old(e.lengths) && e.successes == old(e.successes)
  {
    var k := 0;
    while k < times
      invariant 0 <= k <= times
      invariant e.Valid() && e.env.steps == old(e.env.steps)
      invariant e.env.pos == old(e.env.pos) || fresh(e.env.pos)
      invariant e.iterations == old(e.iterations) + k
      invariant e.rets == old(e.rets) && e.lengths == old(e.lengths) && e.successes == old(e.successes)
    {
      e.Iterate([]);
      k := k + 1;
    }
  }
}
