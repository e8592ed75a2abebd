/** The three metrics an evaluation reports, and how they are tied together. */
module MetricBounds {
  import opened Text
  import opened LineWorld
  import opened Episodes
  import opened Vectors
  import opened PolicyRuns
  import opened Evaluation

  /** The most a position on the line can pay. */
  function TopProgress(cfg: Config): real {
    0.02 * (cfg.envSize - 2) as real
  }

  function Total(e: Episode): real {
    e.ret + 0.01 * e.length as real
  }

  lemma PlayedTotal(cfg: Config, e: Episode)
    requires cfg.envSize >= 2 && Played(cfg, e)
    ensures e.success ==> Total(e) == 1.01 + TopProgress(cfg)
    ensures !e.success ==> 0.0 <= Total(e) <= TopProgress(cfg)
  {
    var actions :| Play(cfg, START, actions).Some? && Play(cfg, START, actions).value == e;
    EpisodeReturn(cfg, START, actions);
  }

  lemma {:induction false} PlayedTotals(cfg: Config, es: seq<Episode>)
    requires cfg.envSize >= 2 && forall e :: e in es ==> Played(cfg, e)
    ensures
      var total, wins, top := Sum(Map(Ret, es)) + 0.01 * Sum(Map(Length, es)), Count(Map(Success, es)),
          TopProgress(cfg);
      && wins <= |es|
      && Times(wins, 1.01 + top) <= total <= Times(wins, 1.01) + Times(|es|, top)
  {
    if es != [] {
      PlayedTotal(cfg, es[0]);
      PlayedTotals(cfg, es[1..]);
    }
  }

  // ---------------------------------------------------------------- from totals to means

  lemma {:induction false} TimesIsProduct(n: nat, x: real)
    ensures Times(n, x) == x * n as real
  {
    if n > 0 {
      TimesIsProduct(n - 1, x);
      Distribute(x, (n - 1) as real, 1.0);
    }
  }

  lemma Distribute(x: real, y: real, z: real)
    ensures x * (y + z) == x * y + x * z
  {
  }

  lemma Cancel(x: real, y: real, n: real)
    requires n > 0.0 && x * n <= y * n
    ensures x <= y
  {
  }

  lemma Mean(x: real, n: real)
    requires n > 0.0
    ensures x / n * n == x
  {
  }

  /** The mean return plus a hundredth of the mean length lies between the success rate's share of the best total
      and the success rate plus what progress alone can pay. */
  predicate Tied(m: Metrics, top: real) {
    var total := m.meanReturn + 0.01 * m.meanLength;
    (1.01 + top) * m.successRate <= total <= 1.01 * m.successRate + top
  }

  lemma Scaled(c: real, x: real, n: real, total: real)
    requires x * n == total
    ensures c * x * n == c * total
  {
    assert c * x * n == c * (x * n);
  }

  lemma SumScaled(x: real, y: real, n: real, xn: real, yn: real)
    requires x * n == xn && y * n == yn
    ensures (x + y) * n == xn + yn
  {
  }

  lemma LowerBound(a: real, b: real, s: real, n: real, ret: real, length: real, wins: real, c: real)
    requires n > 0.0 && a * n == ret && b * n == length && s * n == wins
    requires c * wins <= ret + 0.01 * length
    ensures c * s <= a + 0.01 * b
  {
    Scaled(c, s, n, wins);
    Scaled(0.01, b, n, length);
    SumScaled(a, 0.01 * b, n, ret, 0.01 * length);
    Cancel(c * s, a + 0.01 * b, n);
  }

  lemma UpperBound(a: real, b: real, s: real, n: real, ret: real, length: real, wins: real, top: real, all: real)
    requires n > 0.0 && a * n == ret && b * n == length && s * n == wins && top * n == all
    requires ret + 0.01 * length <= 1.01 * wins + all
    ensures a + 0.01 * b <= 1.01 * s + top
  {
    Scaled(0.01, b, n, length);
    Scaled(1.01, s, n, wins);
    SumScaled(a, 0.01 * b, n, ret, 0.01 * length);
    SumScaled(1.01 * s, top, n, 1.01 * wins, all);
    Cancel(a + 0.01 * b, 1.01 * s + top, n);
  }

  lemma MeansTied(ret: real, length: real, wins: real, n: real, top: real)
    requires n > 0.0 && (1.01 + top) * wins <= ret + 0.01 * length <= 1.01 * wins + top * n
    ensures Tied(Metrics(ret / n, wins / n, length / n), top)
  {
    Mean(ret, n);
    Mean(length, n);
    Mean(wins, n);
    LowerBound(ret / n, length / n, wins / n, n, ret, length, wins, 1.01 + top);
    UpperBound(ret / n, length / n, wins / n, n, ret, length, wins, top, top * n);
  }

  lemma CountedTied(ret: real, length: real, wins: nat, count: nat, top: real)
    requires count > 0 && Times(wins, 1.01 + top) <= ret + 0.01 * length <= Times(wins, 1.01) + Times(count, top)
    ensures Tied(Metrics(ret / count as real, wins as real / count as real, length / count as real), top)
  {
    TimesIsProduct(wins, 1.01 + top);
    TimesIsProduct(wins, 1.01);
    TimesIsProduct(count, top);
    MeansTied(ret, length, wins as real, count as real, top);
  }

  /** The three reported metrics of episodes the environment can produce are tied together. */
  lemma MetricsAgree(cfg: Config, es: seq<Episode>)
    requires cfg.envSize >= 2 && es != [] && forall e :: e in es ==> Played(cfg, e)
    ensures
      var m := Summary(Map(Ret, es), Map(Length, es), Map(Success, es));
      0.0 <= m.successRate <= 1.0 && Tied(m, TopProgress(cfg))
  {
    PlayedTotals(cfg, es);
    var wins := Count(Map(Success, es));
    RateInside(wins as real, |es| as real);
    CountedTied(Sum(Map(Ret, es)), Sum(Map(Length, es)), wins, |es|, TopProgress(cfg));
  }

  lemma RateInside(wins: real, n: real)
    requires n > 0.0 && 0.0 <= wins <= n
    ensures 0.0 <= wins / n <= 1.0
  {
    Mean(wins, n);
    Cancel(0.0, wins / n, n);
    Cancel(wins / n, 1.0, n);
  }

  /** What an evaluation reports is tied together. */
  lemma EvaluationAgrees(cfg: Config, act: Policy, n: nat, k: nat, rets: seq<real>, lengths: seq<real>,
                         successes: seq<bool>)
    requires cfg.envSize >= 2 && Lists(cfg, act, n, k, rets, lengths, successes) && rets != []
    ensures 0.0 <= Summary(rets, lengths, successes).successRate <= 1.0
    ensures Tied(Summary(rets, lengths, successes), TopProgress(cfg))
  {
    BatchesPlayed(cfg, act, n, k);
    MetricsAgree(cfg, Flatten(Batches(cfg, act, n, k)));
  }
}
