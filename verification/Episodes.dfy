/** Whole episodes of one walker: what they pay, and how many action sequences reach the goal. */
module Episodes {
  import opened Arithmetic
  import opened Text
  import opened LineWorld

  /** A finished episode: reward collected, steps taken, success flag and position before the reset. */
  datatype Episode = Episode(ret: real, length: nat, success: bool, finalPos: int)

  /** The episode a walker plays until its first done step; nothing when the actions run out first. */
  function Play(cfg: Config, w: Walker, actions: seq<int>): Option<Episode>
    decreases |actions|
  {
    if actions == [] then None
    else
      var o := StepWalker(cfg, w, actions[0]);
      if o.done then Some(Episode(o.reward, 1, o.success, Move(cfg, w.pos, actions[0])))
      else
        var rest := Play(cfg, o.next, actions[1..]);
        if rest.None? then None
        else Some(rest.value.(ret := o.reward + rest.value.ret, length := 1 + rest.value.length))
  }

  // ---------------------------------------------------------------- rewards telescope

  /** The reward of an episode, in closed form, from the position and step count it starts at. */
  lemma {:induction false} EpisodeReturn(cfg: Config, w: Walker, actions: seq<int>)
    requires cfg.envSize >= 2 && Inside(cfg, w)
    requires Play(cfg, w, actions).Some?
    ensures
      var e := Play(cfg, w, actions).value;
      && 1 <= e.length <= |actions|
      && e.finalPos <= w.pos + e.length
      && (e.success <==> e.finalPos == cfg.Goal())
      && (e.success ==>
            && e.ret == 1.0 + 0.02 * (cfg.envSize - 2 - w.pos) as real - 0.01 * (e.length - 1) as real
            && w.pos + e.length >= cfg.Goal()
            && w.steps + e.length <= Max(1, cfg.maxSteps))
      && (!e.success ==>
            && e.ret == 0.02 * (e.finalPos - w.pos) as real - 0.01 * e.length as real
            && 0 <= e.finalPos <= cfg.envSize - 2
            && w.steps + e.length == Max(1, cfg.maxSteps))
    decreases |actions|
  {
    var o := StepWalker(cfg, w, actions[0]);
    if !o.done {
      EpisodeReturn(cfg, o.next, actions[1..]);
      assert o.reward == 0.02 * (o.next.pos - w.pos) as real - 0.01;
    }
  }

  /** Every successful episode pays at least 1.01 more than every timed-out one. */
  lemma SuccessBeatsTimeout(cfg: Config, won: seq<int>, lost: seq<int>)
    requires cfg.envSize >= 2
    requires Play(cfg, START, won).Some? && Play(cfg, START, won).value.success
    requires Play(cfg, START, lost).Some? && !Play(cfg, START, lost).value.success
    ensures Play(cfg, START, won).value.ret >= Play(cfg, START, lost).value.ret + 1.01
  {
    EpisodeReturn(cfg, START, won);
    EpisodeReturn(cfg, START, lost);
  }

  function Repeat(action: int, n: nat): seq<int> {
    seq(n, _ => action)
  }

  /** Among successful episodes only the length matters, and the shortest possible one walks straight right. */
  lemma ShorterSuccessPaysMore(cfg: Config, a: seq<int>, b: seq<int>)
    requires cfg.envSize >= 2
    requires Play(cfg, START, a).Some? && Play(cfg, START, a).value.success
    requires Play(cfg, START, b).Some? && Play(cfg, START, b).value.success
    ensures
      var x, y := Play(cfg, START, a).value, Play(cfg, START, b).value;
      && x.ret - y.ret == 0.01 * (y.length - x.length) as real
      && x.length >= cfg.Goal()
  {
    EpisodeReturn(cfg, START, a);
    EpisodeReturn(cfg, START, b);
  }

  // ---------------------------------------------------------------- counting winning action sequences

  predicate Binary(actions: seq<int>) {
    forall i :: 0 <= i < |actions| ==> actions[i] == 0 || actions[i] == 1
  }

  function Prefixed(action: int, tails: set<seq<int>>): set<seq<int>> {
    set t | t in tails :: [action] + t
  }

  /** All binary action sequences of a length. */
  function AllActions(n: nat): set<seq<int>> {
    if n == 0 then {[]} else Prefixed(0, AllActions(n - 1)) + Prefixed(1, AllActions(n - 1))
  }

  lemma {:induction false} AllActionsExact(n: nat, actions: seq<int>)
    ensures actions in AllActions(n) <==> |actions| == n && Binary(actions)
  {
    if n > 0 {
      if actions != [] {
        AllActionsExact(n - 1, actions[1..]);
        assert actions == [actions[0]] + actions[1..];
        assert Binary(actions) <==> Binary(actions[1..]) && (actions[0] == 0 || actions[0] == 1);
        forall t | t in AllActions(n - 1) && (actions == [0] + t || actions == [1] + t)
          ensures t == actions[1..]
        {
        }
      }
    }
  }

  lemma {:induction false} PrefixedSize(action: int, tails: set<seq<int>>)
    ensures |Prefixed(action, tails)| == |tails|
  {
    if tails != {} {
      var t :| t in tails;
      PrefixedSize(action, tails - {t});
      assert Prefixed(action, tails) == Prefixed(action, tails - {t}) + {[action] + t};
      forall u | u in tails - {t}
        ensures [action] + u != [action] + t
      {
        assert ([action] + u)[1..] == u && ([action] + t)[1..] == t;
      }
    }
  }

  lemma PrefixedDisjoint(a: set<seq<int>>, b: set<seq<int>>)
    ensures Prefixed(0, a) !! Prefixed(1, b)
    ensures |Prefixed(0, a) + Prefixed(1, b)| == |a| + |b|
  {
    forall s | s in Prefixed(0, a)
      ensures s !in Prefixed(1, b)
    {
      assert s[0] == 0;
    }
    PrefixedSize(0, a);
    PrefixedSize(1, b);
  }

  lemma {:induction false} AllActionsSize(n: nat)
    ensures |AllActions(n)| == Pow2(n)
  {
    if n > 0 {
      AllActionsSize(n - 1);
      PrefixedDisjoint(AllActions(n - 1), AllActions(n - 1));
    }
  }

  predicate Wins(cfg: Config, w: Walker, actions: seq<int>) {
    Play(cfg, w, actions).Some? && Play(cfg, w, actions).value.success
  }

  /** The winning sequences of a length. */
  function Winning(cfg: Config, w: Walker, n: nat): set<seq<int>> {
    set actions | actions in AllActions(n) && Wins(cfg, w, actions)
  }

  /** How many sequences of a length win, counted step by step. */
  function WinCount(cfg: Config, w: Walker, n: nat): nat
    decreases n, 0
  {
    if n == 0 then 0 else WinsAfter(cfg, StepWalker(cfg, w, 0), n - 1) + WinsAfter(cfg, StepWalker(cfg, w, 1), n - 1)
  }

  function WinsAfter(cfg: Config, o: Outcome, n: nat): nat
    decreases n, 1
  {
    if o.done then (if o.success then Pow2(n) else 0) else WinCount(cfg, o.next, n)
  }

  /** The tails that win after a first action. */
  function WinningTails(cfg: Config, w: Walker, action: int, n: nat): set<seq<int>> {
    set t | t in AllActions(n) && Wins(cfg, w, [action] + t)
  }

  lemma WinningSplits(cfg: Config, w: Walker, n: nat)
    requires n > 0
    ensures Winning(cfg, w, n) ==
            Prefixed(0, WinningTails(cfg, w, 0, n - 1)) + Prefixed(1, WinningTails(cfg, w, 1, n - 1))
  {
  }

  lemma SplitCounts(cfg: Config, w: Walker, n: nat)
    requires n > 0
    requires |WinningTails(cfg, w, 0, n - 1)| == WinsAfter(cfg, StepWalker(cfg, w, 0), n - 1)
    requires |WinningTails(cfg, w, 1, n - 1)| == WinsAfter(cfg, StepWalker(cfg, w, 1), n - 1)
    ensures |Winning(cfg, w, n)| == WinCount(cfg, w, n)
  {
    WinningSplits(cfg, w, n);
    PrefixedDisjoint(WinningTails(cfg, w, 0, n - 1), WinningTails(cfg, w, 1, n - 1));
  }

  lemma {:induction false} WinCountCounts(cfg: Config, w: Walker, n: nat)
    ensures |Winning(cfg, w, n)| == WinCount(cfg, w, n)
    decreases n, 0
  {
    if n == 0 {
      assert Winning(cfg, w, n) == {};
    } else {
      TailsCount(cfg, w, 0, n - 1);
      TailsCount(cfg, w, 1, n - 1);
      SplitCounts(cfg, w, n);
    }
  }

  lemma {:induction false} TailsCount(cfg: Config, w: Walker, action: int, n: nat)
    ensures |WinningTails(cfg, w, action, n)| == WinsAfter(cfg, StepWalker(cfg, w, action), n)
    decreases n, 1
  {
    var o := StepWalker(cfg, w, action);
    forall t | t in AllActions(n)
      ensures Wins(cfg, w, [action] + t) <==> if o.done then o.success else Wins(cfg, o.next, t)
    {
      assert ([action] + t)[1..] == t;
    }
    if !o.done {
      assert WinningTails(cfg, w, action, n) == Winning(cfg, o.next, n);
      WinCountCounts(cfg, o.next, n);
    } else if o.success {
      assert WinningTails(cfg, w, action, n) == AllActions(n);
      AllActionsSize(n);
    } else {
      assert WinningTails(cfg, w, action, n) == {};
    }
  }

  // ---------------------------------------------------------------- when the baseline is exact

  /** A walker with exactly `n` steps left. */
  predicate StepsLeft(cfg: Config, w: Walker, n: nat) {
    Inside(cfg, w) && w.steps + n == Horizon(cfg)
  }

  lemma {:induction false} TooFarNeverWins(cfg: Config, w: Walker, n: nat)
    requires cfg.envSize >= 2 && StepsLeft(cfg, w, n)
    requires w.pos + n < cfg.Goal()
    ensures WinCount(cfg, w, n) == 0
    decreases n
  {
    if n > 1 {
      TooFarNeverWins(cfg, StepWalker(cfg, w, 0).next, n - 1);
      TooFarNeverWins(cfg, StepWalker(cfg, w, 1).next, n - 1);
    }
  }

  lemma {:induction false} JustEnoughStepsWinOnce(cfg: Config, w: Walker, n: nat)
    requires cfg.envSize >= 2 && StepsLeft(cfg, w, n)
    requires w.pos + n == cfg.Goal()
    ensures WinCount(cfg, w, n) == 1
    ensures Wins(cfg, w, Repeat(1, n))
    decreases n
  {
    var left, right := StepWalker(cfg, w, 0), StepWalker(cfg, w, 1);
    assert Repeat(1, n)[1..] == Repeat(1, n - 1);
    if n == 1 {
      assert right.done && right.success && !left.success;
      assert Pow2(0) == 1;
    } else {
      TooFarNeverWins(cfg, left.next, n - 1);
      JustEnoughStepsWinOnce(cfg, right.next, n - 1);
    }
  }

  lemma {:induction false} SpareStepsWinMore(cfg: Config, w: Walker, n: nat)
    requires cfg.envSize >= 2 && StepsLeft(cfg, w, n)
    requires w.pos + n >= cfg.Goal()
    ensures WinCount(cfg, w, n) >= Pow2(w.pos + n - cfg.Goal())
    decreases n
  {
    var right := StepWalker(cfg, w, 1);
    if !right.success {
      SpareStepsWinMore(cfg, right.next, n - 1);
    }
  }

  lemma {:induction false} Pow2Grows(m: nat, n: nat)
    ensures Pow2(m + n) == Pow2(m) * Pow2(n) && Pow2(n) >= 1
  {
    if m > 0 {
      Pow2Grows(m - 1, n);
    } else if n > 0 {
      Pow2Grows(0, n - 1);
    }
  }

  /** From the start, spare steps give strictly more wins than the straight walk alone accounts for. */
  lemma SpareStepsWinStrictlyMore(cfg: Config)
    requires cfg.envSize >= 2 && Horizon(cfg) > cfg.Goal()
    ensures WinCount(cfg, START, Horizon(cfg)) > Pow2(Horizon(cfg) - cfg.Goal())
  {
    var n := Horizon(cfg);
    var left, right := StepWalker(cfg, START, 0), StepWalker(cfg, START, 1);
    SpareStepsWinMore(cfg, left.next, n - 1);
    Pow2Grows(0, n - 1 - cfg.Goal());
    if !right.success {
      SpareStepsWinMore(cfg, right.next, n - 1);
    }
  }

  /** The reported baseline: one half to the power `env_size - 1`. */
  function BaselineRandom(cfg: Config): real
    requires cfg.envSize >= 1
  {
    HalfPow(cfg.envSize - 1)
  }

  function HalfPow(n: nat): real {
    if n == 0 then 1.0 else 0.5 * HalfPow(n - 1)
  }

  lemma {:induction false} HalfPowInverse(n: nat)
    ensures HalfPow(n) * Pow2(n) as real == 1.0
  {
    if n > 0 {
      HalfPowInverse(n - 1);
    }
  }

  /** The success probability of a uniform policy over one episode: winning sequences out of all of them. */
  function UniformSuccess(cfg: Config): real {
    AllActionsSize(Horizon(cfg));
    Pow2Grows(0, Horizon(cfg));
    |Winning(cfg, START, Horizon(cfg))| as real / |AllActions(Horizon(cfg))| as real
  }

  /** The only winning sequence when the steps just suffice is the straight walk. */
  lemma OnlyStraightWalkWins(cfg: Config)
    requires cfg.envSize >= 2 && cfg.maxSteps == cfg.envSize - 1
    ensures Winning(cfg, START, cfg.maxSteps) == {Repeat(1, cfg.maxSteps)}
  {
    var n := cfg.maxSteps;
    JustEnoughStepsWinOnce(cfg, START, n);
    WinCountCounts(cfg, START, n);
    AllActionsExact(n, Repeat(1, n));
    var all := Winning(cfg, START, n);
    var rest := all - {Repeat(1, n)};
    assert |all| == |rest| + 1;
    assert rest == {};
  }

  lemma UniformSuccessCounts(cfg: Config)
    ensures Pow2(Horizon(cfg)) >= 1
    ensures UniformSuccess(cfg) == WinCount(cfg, START, Horizon(cfg)) as real / Pow2(Horizon(cfg)) as real
  {
    WinCountCounts(cfg, START, Horizon(cfg));
    AllActionsSize(Horizon(cfg));
    Pow2Grows(0, Horizon(cfg));
  }

  lemma QuotientCompare(a: real, b: real, q: real)
    requires b > 0.0
    ensures a / b == q <==> a == q * b
  {
  }

  /** In whole numbers: the winning share of all sequences is one in `2^goal` exactly when the steps just suffice. */
  lemma WinningShare(cfg: Config)
    requires cfg.envSize >= 2
    ensures WinCount(cfg, START, Horizon(cfg)) * Pow2(cfg.Goal()) == Pow2(Horizon(cfg)) <==> Horizon(cfg) == cfg.Goal()
  {
    var n, goal := Horizon(cfg), cfg.Goal();
    Pow2Grows(0, n);
    if n == goal {
      JustEnoughStepsWinOnce(cfg, START, n);
    } else if n < goal {
      TooFarNeverWins(cfg, START, n);
    } else {
      SpareStepsWinStrictlyMore(cfg);
      Pow2Grows(n - goal, goal);
      Pow2Grows(0, goal);
      Scale(WinCount(cfg, START, n), Pow2(n - goal), Pow2(goal));
    }
  }

  lemma Scale(a: nat, b: nat, c: nat)
    requires a > b && c >= 1
    ensures a * c > b * c
  {
  }

  /** The baseline is the exact success probability of a uniform policy exactly when an episode
      lasts as many steps as the goal is away. */
  lemma BaselineExact(cfg: Config)
    requires cfg.envSize >= 2
    ensures UniformSuccess(cfg) == BaselineRandom(cfg) <==> Horizon(cfg) == cfg.envSize - 1
  {
    UniformSuccessCounts(cfg);
    WinningShare(cfg);
    HalfPowInverse(cfg.Goal());
    HalvesCompare(WinCount(cfg, START, Horizon(cfg)), Pow2(Horizon(cfg)), Pow2(cfg.Goal()), HalfPow(cfg.Goal()));
  }

  lemma HalvesCompare(wins: nat, total: nat, paths: nat, half: real)
    requires total >= 1 && half * paths as real == 1.0
    ensures wins as real / total as real == half <==> wins * paths == total
  {
    var w, t, p := wins as real, total as real, paths as real;
    QuotientCompare(w, t, half);
    assert w == half * t ==> w * p == t * (half * p);
    assert w * p == t ==> w * (half * p) == half * t;
    assert (wins * paths) as real == w * p;
  }

  // ---------------------------------------------------------------- one step to spare

  /** The straight walk with one more action after it. */
  function StraightThen(goal: nat, last: int): seq<int> {
    Repeat(1, goal) + [last]
  }

  /** The straight walk after one step wasted at the wall. */
  function WastedThenStraight(goal: nat): seq<int> {
    [0] + Repeat(1, goal)
  }

  /** Whatever follows a winning sequence is not played. */
  lemma {:induction false} WinsWithMore(cfg: Config, w: Walker, actions: seq<int>, more: seq<int>)
    requires Wins(cfg, w, actions)
    ensures Wins(cfg, w, actions + more)
    decreases |actions|
  {
    assert (actions + more)[0] == actions[0] && (actions + more)[1..] == actions[1..] + more;
    var o := StepWalker(cfg, w, actions[0]);
    if !o.done {
      WinsWithMore(cfg, o.next, actions[1..], more);
    }
  }

  /** With exactly `n` steps more than the way left, never having turned back, the straight walk wins in time. */
  lemma {:induction false} StraightWins(cfg: Config, w: Walker, n: nat)
    requires cfg.envSize >= 2 && Inside(cfg, w) && n >= 1
    requires w.pos + n == cfg.Goal() && w.steps + n <= Horizon(cfg)
    ensures Wins(cfg, w, Repeat(1, n))
    decreases n
  {
    assert Repeat(1, n)[1..] == Repeat(1, n - 1) && Repeat(1, n)[0] == 1;
    if n > 1 {
      StraightWins(cfg, StepWalker(cfg, w, 1).next, n - 1);
    }
  }

  /** Two wins for a walker that has gone straight so far and has one step to spare: spend it at the end, either way. */
  lemma {:induction false} OneSpareStep(cfg: Config, w: Walker, n: nat)
    requires cfg.envSize >= 2 && StepsLeft(cfg, w, n) && w.pos > 0
    requires w.pos + n == cfg.Goal() + 1
    ensures WinCount(cfg, w, n) == 2
    decreases n
  {
    var left, right := StepWalker(cfg, w, 0), StepWalker(cfg, w, 1);
    TooFarNeverWins(cfg, left.next, n - 1);
    assert Pow2(1) == 2;
    if n > 2 {
      OneSpareStep(cfg, right.next, n - 1);
    }
  }

  /** With one step to spare exactly three sequences win. */
  lemma ThreeWin(cfg: Config)
    requires cfg.envSize >= 2 && Horizon(cfg) == cfg.Goal() + 1
    ensures WinCount(cfg, START, Horizon(cfg)) == 3
  {
    var n, goal := Horizon(cfg), cfg.Goal();
    var left, right := StepWalker(cfg, START, 0), StepWalker(cfg, START, 1);
    JustEnoughStepsWinOnce(cfg, left.next, n - 1);
    assert Pow2(1) == 2;
    if goal > 1 {
      OneSpareStep(cfg, right.next, n - 1);
    }
  }

  /** They are the straight walk with either action after it, and the straight walk after a step into the wall. */
  lemma ThreeWinners(cfg: Config)
    requires cfg.envSize >= 2 && Horizon(cfg) == cfg.Goal() + 1
    ensures Winning(cfg, START, Horizon(cfg)) ==
            {StraightThen(cfg.Goal(), 0), StraightThen(cfg.Goal(), 1), WastedThenStraight(cfg.Goal())}
  {
    var n, goal := Horizon(cfg), cfg.Goal();
    var a, b, c := StraightThen(goal, 0), StraightThen(goal, 1), WastedThenStraight(goal);
    StraightWins(cfg, START, goal);
    WinsWithMore(cfg, START, Repeat(1, goal), [0]);
    WinsWithMore(cfg, START, Repeat(1, goal), [1]);
    StraightWins(cfg, StepWalker(cfg, START, 0).next, goal);
    assert c[0] == 0 && c[1..] == Repeat(1, goal);
    AllActionsExact(n, a);
    AllActionsExact(n, b);
    AllActionsExact(n, c);
    assert a[goal] == 0 && b[goal] == 1 && a[0] == 1 && b[0] == 1;
    ThreeWin(cfg);
    WinCountCounts(cfg, START, n);
    SameBySize(Winning(cfg, START, n), {a, b, c});
  }

  lemma SameBySize(all: set<seq<int>>, some: set<seq<int>>)
    requires some <= all && |all| == |some|
    ensures all == some
  {
    assert |all - some| == |all| - |some|;
  }
}
