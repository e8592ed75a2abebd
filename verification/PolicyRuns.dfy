/**
 * Walkers under a policy, without any buffers: which episodes they finish, and when. `act(k, i)` is what walker
 * `i` is told in iteration `k`.
 */
module PolicyRuns {
  import opened Text
  import opened LineWorld
  import opened Episodes
  import opened Vectors

  type Policy = (nat, nat) -> int

  const BATCHES := 4

  // ---------------------------------------------------------------- one walker

  function WalkerAfter(cfg: Config, act: Policy, i: nat, k: nat): (w: Walker)
    ensures 0 <= w.steps <= k && w.steps < Horizon(cfg) && (w.steps == 0 ==> w == START)
  {
    if k == 0 then START else StepWalker(cfg, WalkerAfter(cfg, act, i, k - 1), act(k - 1, i)).next
  }

  function OutcomeAt(cfg: Config, act: Policy, i: nat, k: nat): Outcome {
    StepWalker(cfg, WalkerAfter(cfg, act, i, k), act(k, i))
  }

  /** The actions a walker is told in the iterations `from .. to-1`. */
  function Told(act: Policy, i: nat, from: nat, to: nat): seq<int>
    decreases to - from
  {
    if from >= to then [] else [act(from, i)] + Told(act, i, from + 1, to)
  }

  /** The actions since a walker's last restart, up to and including iteration `k`. */
  function Stretch(cfg: Config, act: Policy, i: nat, k: nat): seq<int> {
    Told(act, i, k - WalkerAfter(cfg, act, i, k).steps, k + 1)
  }

  /** The episode a walker finishes in iteration `k`, if it does: the one its actions since the last restart play. */
  function Finished(cfg: Config, act: Policy, i: nat, k: nat): Option<Episode> {
    if OutcomeAt(cfg, act, i, k).done then Play(cfg, START, Stretch(cfg, act, i, k)) else None
  }

  /** What a walker has been paid since its last restart. */
  function ActiveReturn(cfg: Config, act: Policy, i: nat, k: nat): real {
    if k == 0 || OutcomeAt(cfg, act, i, k - 1).done then 0.0
    else ActiveReturn(cfg, act, i, k - 1) + OutcomeAt(cfg, act, i, k - 1).reward
  }

  /** Since the last restart a walker was never done. */
  lemma {:induction false} Undisturbed(cfg: Config, act: Policy, i: nat, k: nat, j: nat)
    requires k - WalkerAfter(cfg, act, i, k).steps <= j <= k
    ensures WalkerAfter(cfg, act, i, j).steps == WalkerAfter(cfg, act, i, k).steps - (k - j)
    ensures j < k ==> !OutcomeAt(cfg, act, i, j).done
  {
    if j < k {
      Undisturbed(cfg, act, i, k - 1, j);
    }
  }

  lemma PlayLast(cfg: Config, w: Walker, a: int)
    requires StepWalker(cfg, w, a).done
    ensures Play(cfg, w, [a]) ==
            Some(Episode(StepWalker(cfg, w, a).reward, 1, StepWalker(cfg, w, a).success, Move(cfg, w.pos, a)))
  {
  }

  lemma PlayMore(cfg: Config, w: Walker, a: int, rest: seq<int>, e: Episode)
    requires !StepWalker(cfg, w, a).done && Play(cfg, StepWalker(cfg, w, a).next, rest) == Some(e)
    ensures Play(cfg, w, [a] + rest) == Some(e.(ret := StepWalker(cfg, w, a).reward + e.ret, length := 1 + e.length))
  {
    assert ([a] + rest)[1..] == rest;
  }

  /** What is left of the episode finished in iteration `k` from iteration `j` on. */
  function RestOfEpisode(cfg: Config, act: Policy, i: nat, k: nat, j: nat): Episode
    requires j <= k
  {
    var o := OutcomeAt(cfg, act, i, k);
    Episode(ActiveReturn(cfg, act, i, k) + o.reward - ActiveReturn(cfg, act, i, j), k + 1 - j, o.success,
            Move(cfg, WalkerAfter(cfg, act, i, k).pos, act(k, i)))
  }

  lemma PlaysOnStep(cfg: Config, act: Policy, i: nat, k: nat, j: nat)
    requires j < k && !OutcomeAt(cfg, act, i, j).done
    requires Play(cfg, WalkerAfter(cfg, act, i, j + 1), Told(act, i, j + 1, k + 1)) ==
             Some(RestOfEpisode(cfg, act, i, k, j + 1))
    ensures Play(cfg, WalkerAfter(cfg, act, i, j), Told(act, i, j, k + 1)) == Some(RestOfEpisode(cfg, act, i, k, j))
  {
    var w, rest, e := WalkerAfter(cfg, act, i, j), Told(act, i, j + 1, k + 1), RestOfEpisode(cfg, act, i, k, j + 1);
    PlayMore(cfg, w, act(j, i), rest, e);
    assert RestOfEpisode(cfg, act, i, k, j) ==
           e.(ret := OutcomeAt(cfg, act, i, j).reward + e.ret, length := 1 + e.length);
  }

  /** The episode a walker is about to finish, played on from any point since its last restart. */
  lemma {:induction false} PlaysOn(cfg: Config, act: Policy, i: nat, k: nat, j: nat)
    requires k - WalkerAfter(cfg, act, i, k).steps <= j <= k && OutcomeAt(cfg, act, i, k).done
    ensures Play(cfg, WalkerAfter(cfg, act, i, j), Told(act, i, j, k + 1)) == Some(RestOfEpisode(cfg, act, i, k, j))
    decreases k - j
  {
    if j == k {
      assert Told(act, i, k + 1, k + 1) == [];
      PlayLast(cfg, WalkerAfter(cfg, act, i, k), act(k, i));
    } else {
      Undisturbed(cfg, act, i, k, j);
      PlaysOn(cfg, act, i, k, j + 1);
      PlaysOnStep(cfg, act, i, k, j);
    }
  }

  /**
   * A walker that is done has just played one whole episode: its active return with the last reward, its active
   * steps with the last one, and the goal flag are those of the actions since its last restart.
   */
  lemma FinishedExactly(cfg: Config, act: Policy, i: nat, k: nat)
    ensures Finished(cfg, act, i, k).Some? <==> OutcomeAt(cfg, act, i, k).done
    ensures OutcomeAt(cfg, act, i, k).done ==>
              var e, o := Finished(cfg, act, i, k).value, OutcomeAt(cfg, act, i, k);
              && e.ret == ActiveReturn(cfg, act, i, k) + o.reward
              && e.length == WalkerAfter(cfg, act, i, k).steps + 1
              && e.success == o.success
  {
    if OutcomeAt(cfg, act, i, k).done {
      var from := k - WalkerAfter(cfg, act, i, k).steps;
      Undisturbed(cfg, act, i, k, from);
      PlaysOn(cfg, act, i, k, from);
    }
  }

  // ---------------------------------------------------------------- all walkers

  /** The episodes the walkers `i .. n-1` finish in iteration `k`, in the order of the walkers. */
  function BatchFrom(cfg: Config, act: Policy, n: nat, k: nat, i: nat): seq<Episode>
    decreases n - i
  {
    if i >= n then []
    else
      var e := Finished(cfg, act, i, k);
      (if e.Some? then [e.value] else []) + BatchFrom(cfg, act, n, k, i + 1)
  }

  function Batch(cfg: Config, act: Policy, n: nat, k: nat): seq<Episode> {
    BatchFrom(cfg, act, n, k, 0)
  }

  /** The batches of the first `k` iterations; an iteration that finishes no episode makes none. */
  function Batches(cfg: Config, act: Policy, n: nat, k: nat): seq<seq<Episode>> {
    if k == 0 then []
    else
      var b := Batch(cfg, act, n, k - 1);
      Batches(cfg, act, n, k - 1) + (if b == [] then [] else [b])
  }

  /** Batches are only ever added, so the first iteration with four of them is unique. */
  lemma {:induction false} BatchesOnlyGrow(cfg: Config, act: Policy, n: nat, j: nat, k: nat)
    requires j <= k
    ensures Batches(cfg, act, n, j) <= Batches(cfg, act, n, k)
  {
    if j < k {
      BatchesOnlyGrow(cfg, act, n, j, k - 1);
    }
  }

  /** An episode that some actions play from the start. */
  ghost predicate Played(cfg: Config, e: Episode) {
    exists actions :: Play(cfg, START, actions) == Some(e)
  }

  lemma {:induction false} BatchPlayed(cfg: Config, act: Policy, n: nat, k: nat, i: nat)
    ensures forall e :: e in BatchFrom(cfg, act, n, k, i) ==> Played(cfg, e)
    decreases n - i
  {
    if i < n {
      BatchPlayed(cfg, act, n, k, i + 1);
      if Finished(cfg, act, i, k).Some? {
        assert Play(cfg, START, Stretch(cfg, act, i, k)) == Some(Finished(cfg, act, i, k).value);
      }
    }
  }

  /** Every recorded episode is one that actions play from the start. */
  lemma {:induction false} BatchesPlayed(cfg: Config, act: Policy, n: nat, k: nat)
    ensures forall e :: e in Flatten(Batches(cfg, act, n, k)) ==> Played(cfg, e)
    ensures |Batches(cfg, act, n, k)| <= |Flatten(Batches(cfg, act, n, k))|
  {
    if k > 0 {
      BatchesPlayed(cfg, act, n, k - 1);
      BatchPlayed(cfg, act, n, k - 1, 0);
      var before, b := Batches(cfg, act, n, k - 1), Batch(cfg, act, n, k - 1);
      if b == [] {
        assert before + [] == before;
      } else {
        FlattenSnoc(before, b);
      }
    }
  }

  // ---------------------------------------------------------------- when four batches are there

  lemma FirstWalkerFinishes(cfg: Config, act: Policy, n: nat, k: nat)
    requires n >= 1
    ensures Batch(cfg, act, n, k) != []
            || WalkerAfter(cfg, act, 0, k + 1).steps == WalkerAfter(cfg, act, 0, k).steps + 1
  {
    FinishedExactly(cfg, act, 0, k);
  }

  lemma OneMoreRound(batches: nat, horizon: nat)
    ensures (batches + 1) * horizon == batches * horizon + horizon
  {
  }

  /** Between two batches there are fewer iterations than an episode can have steps. */
  lemma {:induction false} IterationsBounded(cfg: Config, act: Policy, n: nat, k: nat)
    requires n >= 1
    ensures k <= |Batches(cfg, act, n, k)| * Horizon(cfg) + WalkerAfter(cfg, act, 0, k).steps
  {
    if k > 0 {
      IterationsBounded(cfg, act, n, k - 1);
      FirstWalkerFinishes(cfg, act, n, k - 1);
      OneMoreRound(|Batches(cfg, act, n, k - 1)|, Horizon(cfg));
    }
  }

  lemma {:induction false} NoWalkersNoBatches(cfg: Config, act: Policy, k: nat)
    ensures Batches(cfg, act, 0, k) == []
  {
    if k > 0 {
      NoWalkersNoBatches(cfg, act, k - 1);
    }
  }

  lemma FewBatchesFewIterations(batches: nat, horizon: nat, k: nat, steps: int)
    requires k <= batches * horizon + steps && steps < horizon && batches < BATCHES
    ensures k < BATCHES * horizon
  {
    assert (BATCHES - batches) * horizon >= horizon;
  }

  /** Four batches come together at some time if and only if there is a walker, and then within four horizons. */
  lemma EvaluationEndsExactly(cfg: Config, act: Policy, n: nat)
    ensures n >= 1 ==> |Batches(cfg, act, n, BATCHES * Horizon(cfg))| >= BATCHES
    ensures n == 0 ==> forall k :: |Batches(cfg, act, n, k)| < BATCHES
  {
    if n >= 1 {
      var k := BATCHES * Horizon(cfg);
      IterationsBounded(cfg, act, n, k);
      if |Batches(cfg, act, n, k)| < BATCHES {
        FewBatchesFewIterations(|Batches(cfg, act, n, k)|, Horizon(cfg), k, WalkerAfter(cfg, act, 0, k).steps);
      }
    } else {
      forall k
        ensures |Batches(cfg, act, n, k)| < BATCHES
      {
        NoWalkersNoBatches(cfg, act, k);
      }
    }
  }

  // ---------------------------------------------------------------- vectors of the walkers' values

  function WalkersAfter(cfg: Config, act: Policy, n: nat, k: nat): seq<Walker> {
    seq(n, i requires 0 <= i < n => WalkerAfter(cfg, act, i, k))
  }

  function Chosen(act: Policy, n: nat, k: nat): seq<int> {
    seq(n, i requires 0 <= i < n => act(k, i))
  }

  function ActiveReturns(cfg: Config, act: Policy, n: nat, k: nat): seq<real> {
    seq(n, i requires 0 <= i < n => ActiveReturn(cfg, act, i, k))
  }

  function ActiveLengths(cfg: Config, act: Policy, n: nat, k: nat): seq<real> {
    seq(n, i requires 0 <= i < n => WalkerAfter(cfg, act, i, k).steps as real)
  }

  /** All rewards of the first `k` iterations. */
  function Paid(cfg: Config, act: Policy, n: nat, k: nat): real {
    if k == 0 then 0.0
    else Paid(cfg, act, n, k - 1) + Sum(Rewards(cfg, WalkersAfter(cfg, act, n, k - 1), Chosen(act, n, k - 1)))
  }

  function Ret(e: Episode): real {
    e.ret
  }

  function Length(e: Episode): real {
    e.length as real
  }

  function Success(e: Episode): bool {
    e.success
  }
}
