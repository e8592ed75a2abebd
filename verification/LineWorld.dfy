/** The line-world environment: many independent walkers stepped together, in place. */
module LineWorld {
  import opened Arithmetic

  /** The two settings the environment reads. */
  datatype Config = Config(envSize: int, maxSteps: int) {
    /** The last position of the line. */
    function Goal(): int {
      envSize - 1
    }
  }

  /** One walker between two steps. */
  datatype Walker = Walker(pos: int, steps: int)

  const START := Walker(0, 0)

  datatype Outcome = Outcome(next: Walker, reward: real, done: bool, success: bool)

  /** The position after an action, before any reset: action 1 moves right, any other left, within the line. */
  function Move(cfg: Config, pos: int, action: int): int {
    Min(Max(pos + (if action == 1 then 1 else -1), 0), cfg.Goal())
  }

  /** One step of one walker. */
  function StepWalker(cfg: Config, w: Walker, action: int): Outcome {
    var pos := Move(cfg, w.pos, action);
    var steps := w.steps + 1;
    var success := pos == cfg.Goal();
    var done := success || steps >= cfg.maxSteps;
    var reward := if success then 1.0 else 0.02 * (pos - w.pos) as real - 0.01;
    Outcome(if done then START else Walker(pos, steps), reward, done, success)
  }

  /** All walkers one step later, their rewards and their done flags. */
  function NextWalkers(cfg: Config, ws: seq<Walker>, action: seq<int>): seq<Walker>
    requires |ws| == |action|
  {
    seq(|ws|, i requires 0 <= i < |ws| => StepWalker(cfg, ws[i], action[i]).next)
  }

  function Rewards(cfg: Config, ws: seq<Walker>, action: seq<int>): seq<real>
    requires |ws| == |action|
  {
    seq(|ws|, i requires 0 <= i < |ws| => StepWalker(cfg, ws[i], action[i]).reward)
  }

  function Dones(cfg: Config, ws: seq<Walker>, action: seq<int>): seq<bool>
    requires |ws| == |action|
  {
    seq(|ws|, i requires 0 <= i < |ws| => StepWalker(cfg, ws[i], action[i]).done)
  }

  // ---------------------------------------------------------------- what every step keeps

  /** The number of steps after which every episode is over. */
  function Horizon(cfg: Config): nat {
    Max(1, cfg.maxSteps)
  }

  /** Where a walker can be between two steps; it has taken at least as many steps as it has advanced. */
  predicate Inside(cfg: Config, w: Walker) {
    && 0 <= w.pos <= Max(0, cfg.envSize - 2)
    && w.pos <= w.steps < Max(1, cfg.maxSteps)
  }

  lemma StepStaysInside(cfg: Config, w: Walker, action: int)
    requires cfg.envSize >= 1
    requires Inside(cfg, w)
    ensures Inside(cfg, StepWalker(cfg, w, action).next)
  {
  }

  /** Away from the ends, any action but 1 undoes action 1, and the other way round. */
  lemma LeftUndoesRight(cfg: Config, pos: int, left: int)
    requires left != 1
    ensures 0 <= pos < cfg.Goal() ==> Move(cfg, pos, 1) == pos + 1 && Move(cfg, Move(cfg, pos, 1), left) == pos
    ensures 0 < pos <= cfg.Goal() ==> Move(cfg, pos, left) == pos - 1 && Move(cfg, Move(cfg, pos, left), 1) == pos
  {
  }

  /** The ends hold: a step left at the wall stays there. */
  lemma WallHolds(cfg: Config, left: int)
    requires left != 1 && cfg.Goal() >= 0
    ensures Move(cfg, 0, left) == 0 && Move(cfg, cfg.Goal(), 1) == cfg.Goal()
  {
  }

  /** What one step does and pays, in each case. */
  lemma StepPays(cfg: Config, w: Walker, action: int)
    requires cfg.envSize >= 2 && Inside(cfg, w)
    ensures var o := StepWalker(cfg, w, action);
            && (o.success <==> action == 1 && w.pos == cfg.envSize - 2)
            && (o.done <==> o.success || w.steps + 1 >= cfg.maxSteps)
            && (o.done ==> o.next == Walker(0, 0))
            && (!o.done ==> o.next.steps == w.steps + 1)
            && (!o.done ==> o.next.pos == if action == 1 then w.pos + 1 else if w.pos > 0 then w.pos - 1 else 0)
            && o.reward == if o.success then 1.0 else if action == 1 then 0.01 else if w.pos > 0 then -0.03 else -0.01
  {
  }

  // ---------------------------------------------------------------- the vectorised environment

  class VectorLineWorld {
    const cfg: Config
    const nEnvs: nat
    var pos: array<int>
    var steps: array<int>

    ghost predicate Valid()
      reads this, pos, steps
    {
      pos.Length == nEnvs && steps.Length == nEnvs && pos != steps
    }

    ghost function Walkers(): (ws: seq<Walker>)
      requires Valid()
      reads this, pos, steps
      ensures |ws| == nEnvs
    {
      seq(nEnvs, i requires 0 <= i < nEnvs reads this, pos, steps requires Valid() => Walker(pos[i], steps[i]))
    }

    constructor (cfg: Config, nEnvs: nat)
      ensures Valid() && fresh(pos) && fresh(steps)
      ensures this.cfg == cfg && this.nEnvs == nEnvs
      ensures Walkers() == seq(nEnvs, _ => START)
    {
      this.cfg := cfg;
      this.nEnvs := nEnvs;
      this.pos := new int[nEnvs](_ => 0);
      this.steps := new int[nEnvs](_ => 0);
    }

    method Reset()
      requires Valid()
      modifies pos, steps
      ensures Valid()
      ensures Walkers() == seq(nEnvs, _ => START)
    {
      forall i | 0 <= i < nEnvs {
        pos[i] := 0;
      }
      forall i | 0 <= i < nEnvs {
        steps[i] := 0;
      }
    }

    /** Steps every walker: a fresh position buffer, step counts updated in place, finished walkers reset. */
    method Step(action: seq<int>) returns (reward: seq<real>, done: seq<bool>)
      requires Valid() && |action| == nEnvs
      modifies this`pos, steps
      ensures Valid() && fresh(pos) && steps == old(steps)
      ensures Walkers() == NextWalkers(cfg, old(Walkers()), action)
      ensures reward == Rewards(cfg, old(Walkers()), action)
      ensures done == Dones(cfg, old(Walkers()), action)
    {
      ghost var before := Walkers();
      var oldPos := pos[..];
      var moved := seq(nEnvs, i requires 0 <= i < |oldPos| && i < |action| => Move(cfg, oldPos[i], action[i]));
      pos := new int[nEnvs](i requires 0 <= i < |moved| => moved[i]);
      forall i | 0 <= i < nEnvs {
        steps[i] := steps[i] + 1;
      }
      var counted := steps[..];
      var success := seq(nEnvs, i requires 0 <= i < |moved| => moved[i] == cfg.Goal());
      done := seq(nEnvs, i requires 0 <= i < |success| && i < |counted| => success[i] || counted[i] >= cfg.maxSteps);
      reward := seq(nEnvs, i requires 0 <= i < |moved| && i < |oldPos| && i < |success| =>
        if success[i] then 1.0 else 0.02 * (moved[i] - oldPos[i]) as real - 0.01);
      assert done == Dones(cfg, before, action);
      assert reward == Rewards(cfg, before, action);
      ResetDone(done);
    }

    /** Puts the finished walkers back at the start, in place. */
    method ResetDone(done: seq<bool>)
      requires Valid() && |done| == nEnvs
      modifies pos, steps
      ensures Valid()
      ensures forall i :: 0 <= i < nEnvs ==> Walkers()[i] == if done[i] then START else old(Walkers())[i]
    {
      forall i | 0 <= i < nEnvs && done[i] {
        pos[i] := 0;
      }
      forall i | 0 <= i < nEnvs && done[i] {
        steps[i] := 0;
      }
    }
  }
}
