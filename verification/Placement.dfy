/** The placement score of a benchmarked candidate, and its monotonicity. */
module Placement {
  import opened Rounding

  /** What the score looks at. */
  datatype Facts = Facts(verified: bool, available: bool, ttftMs: real, tokensPerSecond: real, cost: real)

  function MinReal(a: real, b: real): real {
    if a < b then a else b
  }

  /** Latency counts up to three seconds, throughput up to two hundred tokens per second. */
  function RawScore(f: Facts, strategy: string, sla: string): real {
    var compatibility := if f.verified then 100.0 else 0.0;
    var availability := if f.available then 15.0 else 5.0;
    var latency := MinReal(f.ttftMs / 1000.0 * 25.0, 75.0);
    var throughput := MinReal(f.tokensPerSecond / 100.0 * 20.0, 40.0);
    var cost := f.cost * 30.0;
    compatibility
    - (if strategy == "cheapest-compatible" then cost * 1.5 else cost)
    - (if strategy == "fastest" || sla == "latency" then latency * 1.25 else latency)
    + throughput + availability
  }

  function Score(f: Facts, strategy: string, sla: string): real {
    RoundTo(RawScore(f, strategy, sla), 10000.0)
  }

  /** No worse in any respect. */
  predicate Dominates(a: Facts, b: Facts) {
    && (b.verified ==> a.verified)
    && (b.available ==> a.available)
    && a.ttftMs <= b.ttftMs
    && a.tokensPerSecond >= b.tokensPerSecond
    && a.cost <= b.cost
  }

  /** A candidate that is no worse in any respect never scores lower, for every strategy and SLA. */
  lemma ScoreMonotone(a: Facts, b: Facts, strategy: string, sla: string)
    requires Dominates(a, b)
    ensures Score(a, strategy, sla) >= Score(b, strategy, sla)
  {
    RoundToMonotone(RawScore(b, strategy, sla), RawScore(a, strategy, sla), 10000.0);
  }

  /** Beyond the caps latency and throughput no longer matter. */
  lemma ScoreCapped(a: Facts, b: Facts, strategy: string, sla: string)
    requires a.verified == b.verified && a.available == b.available && a.cost == b.cost
    requires a.ttftMs >= 3000.0 && b.ttftMs >= 3000.0
    requires a.tokensPerSecond >= 200.0 && b.tokensPerSecond >= 200.0
    ensures Score(a, strategy, sla) == Score(b, strategy, sla)
  {
  }

  // ---------------------------------------------------------------- what the weights are worth

  function CappedMs(f: Facts): real {
    if f.ttftMs > 3000.0 then 3000.0 else f.ttftMs
  }

  function CappedRate(f: Facts): real {
    if f.tokensPerSecond > 200.0 then 200.0 else f.tokensPerSecond
  }

  /**
   * What `a` has over `b` in points, when a second of latency weighs `second` and a unit of cost weighs `unit`: 20
   * points for every 100 tokens per second up to 200, latency up to three seconds, 100 for being verified and 10 for
   * being available.
   */
  function Lead(a: Facts, b: Facts, second: real, unit: real): real {
    second * ((CappedMs(b) - CappedMs(a)) / 1000.0)
    + 0.2 * (CappedRate(a) - CappedRate(b))
    + unit * (b.cost - a.cost)
    + (if a.verified == b.verified then 0.0 else if a.verified then 100.0 else -100.0)
    + (if a.available == b.available then 0.0 else if a.available then 10.0 else -10.0)
  }

  /** A second weighs 31.25 points when speed was asked for and 25 otherwise. */
  function SecondWeighs(strategy: string, sla: string): real {
    if strategy == "fastest" || sla == "latency" then 31.25 else 25.0
  }

  /** A unit of cost weighs 45 points for the cheapest and 30 otherwise. */
  function CostWeighs(strategy: string): real {
    if strategy == "cheapest-compatible" then 45.0 else 30.0
  }

  /** The lead of one candidate over another, from the facts alone. */
  function LeadFor(a: Facts, b: Facts, strategy: string, sla: string): real {
    Lead(a, b, SecondWeighs(strategy, sla), CostWeighs(strategy))
  }

  /** The points of the parts. */
  function Points(f: Facts, second: real, unit: real): real {
    (if f.verified then 100.0 else 0.0) + (if f.available then 15.0 else 5.0)
    - unit * f.cost - second * (CappedMs(f) / 1000.0) + 0.2 * CappedRate(f)
  }

  lemma PointsOfParts(f: Facts, strategy: string, sla: string)
    ensures RawScore(f, strategy, sla) == Points(f, SecondWeighs(strategy, sla), CostWeighs(strategy))
  {
    assert MinReal(f.ttftMs / 1000.0 * 25.0, 75.0) == CappedMs(f) / 1000.0 * 25.0;
    assert MinReal(f.tokensPerSecond / 100.0 * 20.0, 40.0) == 0.2 * CappedRate(f);
  }

  lemma PointsDiffer(a: Facts, b: Facts, second: real, unit: real)
    ensures Points(a, second, unit) - Points(b, second, unit) == Lead(a, b, second, unit)
  {
    Differ(unit, b.cost, a.cost);
    Differ(second, CappedMs(b) / 1000.0, CappedMs(a) / 1000.0);
    assert (CappedMs(b) - CappedMs(a)) / 1000.0 == CappedMs(b) / 1000.0 - CappedMs(a) / 1000.0;
  }

  lemma Differ(x: real, y: real, z: real)
    ensures x * (y - z) == x * y - x * z
  {
  }

  /** Before rounding, scores differ by exactly the lead. */
  lemma ScoresDifferByLead(a: Facts, b: Facts, strategy: string, sla: string)
    ensures RawScore(a, strategy, sla) - RawScore(b, strategy, sla) == LeadFor(a, b, strategy, sla)
  {
    PointsOfParts(a, strategy, sla);
    PointsOfParts(b, strategy, sla);
    PointsDiffer(a, b, SecondWeighs(strategy, sla), CostWeighs(strategy));
  }

  /** One candidate leads another exactly when the other does not lead it by as much. */
  lemma LeadOpposite(a: Facts, b: Facts, strategy: string, sla: string)
    ensures LeadFor(b, a, strategy, sla) == -LeadFor(a, b, strategy, sla)
  {
    ScoresDifferByLead(a, b, strategy, sla);
    ScoresDifferByLead(b, a, strategy, sla);
  }

  /** A lead of more than a ten-thousandth survives rounding, and rounding never turns one round. */
  lemma LeadDecides(a: Facts, b: Facts, strategy: string, sla: string)
    ensures LeadFor(a, b, strategy, sla) > 0.0001 ==> Score(a, strategy, sla) > Score(b, strategy, sla)
    ensures LeadFor(a, b, strategy, sla) >= 0.0 ==> Score(a, strategy, sla) >= Score(b, strategy, sla)
  {
    ScoresDifferByLead(a, b, strategy, sla);
    if LeadFor(a, b, strategy, sla) >= 0.0 {
      RoundToMonotone(RawScore(b, strategy, sla), RawScore(a, strategy, sla), 10000.0);
    }
    if LeadFor(a, b, strategy, sla) > 0.0001 {
      RoundToApart(RawScore(b, strategy, sla), RawScore(a, strategy, sla), 10000.0);
    }
  }

  /**
   * What a second is worth in cost: a candidate a second slower ties, before rounding, exactly when it is cheaper by
   * 31.25/30 where speed was asked for and by 25/30 elsewhere; asking for the cheapest makes cost count half as much
   * again.
   */
  lemma SecondInCost(f: Facts, saved: real, strategy: string, sla: string)
    requires f.ttftMs <= 2000.0
    ensures var g := f.(ttftMs := f.ttftMs + 1000.0, cost := f.cost - saved);
            var ties := RawScore(g, strategy, sla) == RawScore(f, strategy, sla);
            && (strategy == "fastest" ==> (ties <==> 30.0 * saved == 31.25))
            && (strategy == "cheapest-compatible" && sla == "latency" ==> (ties <==> 45.0 * saved == 31.25))
            && (strategy == "cheapest-compatible" && sla != "latency" ==> (ties <==> 45.0 * saved == 25.0))
            && (strategy !in {"fastest", "cheapest-compatible"} ==>
                  (ties <==> 30.0 * saved == if sla == "latency" then 31.25 else 25.0))
  {
    var g := f.(ttftMs := f.ttftMs + 1000.0, cost := f.cost - saved);
    ScoresDifferByLead(g, f, strategy, sla);
    assert Lead(g, f, SecondWeighs(strategy, sla), CostWeighs(strategy)) ==
           CostWeighs(strategy) * saved - SecondWeighs(strategy, sla) by {
      LeadOfStep(f, saved, SecondWeighs(strategy, sla), CostWeighs(strategy));
    }
  }

  lemma LeadOfStep(f: Facts, saved: real, second: real, unit: real)
    requires f.ttftMs <= 2000.0
    ensures Lead(f.(ttftMs := f.ttftMs + 1000.0, cost := f.cost - saved), f, second, unit) == unit * saved - second
  {
    assert (f.ttftMs - (f.ttftMs + 1000.0)) / 1000.0 == -1.0;
  }
}
