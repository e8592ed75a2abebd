/** Whether a deployment has a better route than its primary. */
module Optimiser {
  import opened Text
  import opened Sorting
  import opened Routes
  import opened Promotions
  import opened ManagedCosts
  import B = Benchmarks

  function Cost(r: Route): real {
    EffectiveCost(r.estimatedCost)
  }

  predicate Better(a: Route, b: Route) {
    Cost(a) < Cost(b) || (Cost(a) == Cost(b) && a.p95 < b.p95)
  }

  /** The first route with the least cost and, among those, the least latency. */
  function Best(rs: seq<Route>): (r: Route)
    requires rs != []
    ensures r in rs
    ensures forall i :: 0 <= i < |rs| ==> !Better(rs[i], r)
  {
    if |rs| == 1 then rs[0]
    else
      var rest := Best(rs[1..]);
      assert forall i :: 0 < i < |rs| ==> rs[i] == rs[1..][i - 1];
      if Better(rest, rs[0]) then rest else rs[0]
  }

  /** Every route before the first occurrence of the best one is worse. */
  lemma {:induction false} BestIsFirst(rs: seq<Route>)
    requires rs != []
    ensures exists k :: 0 <= k < |rs| && rs[k] == Best(rs) && forall i :: 0 <= i < k ==> Better(Best(rs), rs[i])
  {
    if |rs| > 1 && Better(Best(rs[1..]), rs[0]) {
      BestIsFirst(rs[1..]);
      var k :| 0 <= k < |rs[1..]| && rs[1..][k] == Best(rs) && forall i :: 0 <= i < k ==> Better(Best(rs), rs[1..][i]);
      forall i | 0 <= i < k + 1
        ensures Better(Best(rs), rs[i])
      {
        if i > 0 {
          assert rs[i] == rs[1..][i - 1];
        }
      }
      assert rs[k + 1] == Best(rs);
    } else {
      assert rs[0] == Best(rs);
    }
  }

  function HealthyRoutes(rs: seq<Route>): (h: seq<Route>)
    ensures forall r :: r in h <==> r in rs && r.status == Healthy
  {
    if rs == [] then [] else (if rs[0].status == Healthy then [rs[0]] else []) + HealthyRoutes(rs[1..])
  }

  const LATENCY_MARGIN := 40

  predicate Cheaper(a: Route, current: Route) {
    Cost(a) < Cost(current)
  }

  predicate MuchFaster(a: Route, current: Route) {
    a.p95 + LATENCY_MARGIN < current.p95
  }

  datatype Advice = NotFound | Found(route: string, latencyImprovement: int)

  /** Whether the best healthy alternative is worth promoting. */
  function Optimize(routes: seq<Route>): Advice
    requires routes != []
  {
    var current, alternatives := routes[0], HealthyRoutes(routes[1..]);
    if alternatives == [] then NotFound
    else
      var best := Best(alternatives);
      if Cheaper(best, current) || MuchFaster(best, current) then
        Found(best.route, if current.p95 > best.p95 then current.p95 - best.p95 else 0)
      else NotFound
  }

  predicate HealthyAlternative(routes: seq<Route>, r: Route)
    requires routes != []
  {
    r in routes[1..] && r.status == Healthy
  }

  /** Promoting by name the k-th route puts it first exactly when the first of its name is the same but for its role. */
  lemma PromotedFront(routes: seq<Route>, k: nat)
    requires k < |routes|
    ensures var name := routes[k].route;
            var front := FirstNamed(routes, name);
            && front < |routes| && Promoted(routes, name) != []
            && Promoted(routes, name)[0].route == name
            && (Body(Promoted(routes, name)[0]) == Body(routes[k]) <==> Body(routes[front]) == Body(routes[k]))
  {
    assert FirstNamed(routes, routes[k].route) <= k;
  }

  /** The healthy alternative the advice is about, when there is one. */
  function Advised(routes: seq<Route>): (r: Route)
    requires routes != [] && Optimize(routes).Found?
    ensures HealthyAlternative(routes, r) && r.route == Optimize(routes).route
    ensures Cheaper(r, routes[0]) || MuchFaster(r, routes[0])
  {
    Best(HealthyRoutes(routes[1..]))
  }

  /**
   * A found route is a healthy alternative that is cheaper or more than 40 ms faster. Promoting its name puts that
   * very route first exactly when the first route of the name is the same but for its role.
   */
  lemma FoundIsAnImprovement(routes: seq<Route>)
    requires routes != [] && Optimize(routes).Found?
    ensures var best := Advised(routes);
            var front := FirstNamed(routes, best.route);
            && HealthyAlternative(routes, best) && (Cheaper(best, routes[0]) || MuchFaster(best, routes[0]))
            && front < |routes| && Promoted(routes, best.route)[0].route == best.route
            && (Body(Promoted(routes, best.route)[0]) == Body(best) <==> Body(routes[front]) == Body(best))
  {
    var best := Advised(routes);
    var k :| 0 <= k < |routes[1..]| && routes[1..][k] == best;
    PromotedFront(routes, k + 1);
  }

  lemma DistinctNamesPromoted(routes: seq<Route>)
    requires routes != [] && Optimize(routes).Found? && DistinctNames(routes)
    ensures Body(Promoted(routes, Optimize(routes).route)[0]) == Body(Advised(routes))
  {
    var best := Advised(routes);
    var k :| 0 <= k < |routes[1..]| && routes[1..][k] == best;
    assert routes[k + 1] == best;
    PromotedFront(routes, k + 1);
  }

  /**
   * In every deployment selected from a benchmark, however it was promoted and tested since, promoting what was
   * found puts that very route first.
   */
  lemma DeploymentsPromoteWhatIsFound(policy: Policy, gguf: bool, measured: Option<(int, real)>, pools: seq<B.Pool>,
                                      commands: seq<Command>)
    requires B.Registered(pools)
    ensures var routes := Commanded(SelectedRoutes(policy, B.Benchmark(gguf, measured, pools)), commands);
            routes != [] && Optimize(routes).Found? ==>
              Body(Promoted(routes, Optimize(routes).route)[0]) == Body(Advised(routes))
  {
    var results := B.Benchmark(gguf, measured, pools);
    B.BenchmarkDistinct(gguf, measured, pools);
    SelectedNamesDistinct(policy, results);
    CommandsKeepNames(SelectedRoutes(policy, results), commands);
    var routes := Commanded(SelectedRoutes(policy, results), commands);
    if routes != [] && Optimize(routes).Found? {
      DistinctNamesPromoted(routes);
    }
  }

  /** With a repeated name, promoting what was found can put another, degraded route first. */
  lemma RepeatedNameMovesAnother(current: Route, broken: Route, fast: Route)
    requires broken.status == Degraded && fast.status == Healthy && MuchFaster(fast, current)
    requires current.route != broken.route == fast.route
    ensures var routes := [current, broken, fast];
            Optimize(routes) == Found(fast.route, current.p95 - fast.p95)
            && Promoted(routes, fast.route)[0].status == Degraded
  {
    var routes := [current, broken, fast];
    assert routes[1..] == [broken, fast] && [broken, fast][1..] == [fast] && [fast][1..] == [];
    assert HealthyRoutes([fast]) == [fast];
    assert HealthyRoutes(routes[1..]) == [] + [fast] == [fast];
    assert FirstNamed(routes[1..], fast.route) == 0;
    assert FirstNamed(routes, fast.route) == 1;
  }

  /** Whenever some healthy alternative is strictly cheaper, a route is found. */
  lemma CheaperIsFound(routes: seq<Route>, r: Route)
    requires routes != [] && HealthyAlternative(routes, r) && Cheaper(r, routes[0])
    ensures Optimize(routes).Found?
  {
    var alternatives := HealthyRoutes(routes[1..]);
    var i :| 0 <= i < |alternatives| && alternatives[i] == r;
    assert !Better(r, Best(alternatives));
  }

  /** A route is found exactly when some healthy alternative is cheaper, or the best one is more than 40 ms faster. */
  lemma FoundExactly(routes: seq<Route>)
    requires routes != []
    ensures Optimize(routes).Found? <==>
            || (exists r :: HealthyAlternative(routes, r) && Cheaper(r, routes[0]))
            || (HealthyRoutes(routes[1..]) != [] && MuchFaster(Best(HealthyRoutes(routes[1..])), routes[0]))
  {
    if exists r :: HealthyAlternative(routes, r) && Cheaper(r, routes[0]) {
      var r :| HealthyAlternative(routes, r) && Cheaper(r, routes[0]);
      CheaperIsFound(routes, r);
    }
    if HealthyRoutes(routes[1..]) != [] {
      assert HealthyAlternative(routes, Best(HealthyRoutes(routes[1..])));
    }
  }

  // ---------------------------------------------------------------- what is found, in numbers

  /** A healthy local route is found whenever the current route costs anything. */
  lemma LocalIsFound(routes: seq<Route>, r: Route)
    requires routes != [] && HealthyAlternative(routes, r) && r.estimatedCost == "local cost"
    requires Cost(routes[0]) > 0.0
    ensures Optimize(routes).Found? && Cost(Advised(routes)) <= 0.0
  {
    assert '-' !in "local cost";
    OtherCosts("local cost");
    CheaperIsFound(routes, r);
    var alternatives := HealthyRoutes(routes[1..]);
    var i :| 0 <= i < |alternatives| && alternatives[i] == r;
    assert !Better(r, Best(alternatives));
  }

  /** The improvement reported is what the found route is faster by, and nothing when it is cheaper but slower. */
  lemma ImprovementExact(routes: seq<Route>)
    requires routes != [] && Optimize(routes).Found?
    ensures var gain := routes[0].p95 - Advised(routes).p95;
            Optimize(routes).latencyImprovement == if gain > 0 then gain else 0
  {
  }

  /** Among routes of one cost, one is found exactly when some healthy alternative is more than 40 ms faster. */
  lemma MarginExact(routes: seq<Route>)
    requires routes != []
    requires forall r :: HealthyAlternative(routes, r) ==> Cost(r) == Cost(routes[0])
    ensures Optimize(routes).Found? <==> exists r :: HealthyAlternative(routes, r) && r.p95 + 40 < routes[0].p95
  {
    var alternatives := HealthyRoutes(routes[1..]);
    if alternatives != [] {
      var best := Best(alternatives);
      assert HealthyAlternative(routes, best);
      forall r | HealthyAlternative(routes, r)
        ensures best.p95 <= r.p95
      {
        var i :| 0 <= i < |alternatives| && alternatives[i] == r;
        assert !Better(alternatives[i], best);
      }
    }
  }

  // ---------------------------------------------------------------- a much faster route that stays unfound

  /** Two equally slow customer pools ahead of a faster managed one. */
  lemma SlowPoolsFirst(policy: Policy, a: Candidate, b: Candidate, fast: Candidate)
    requires Admissible(policy, a) && Admissible(policy, b) && Admissible(policy, fast)
    requires !Late(policy, a) && !Late(policy, b) && Late(policy, fast) && a.p95 == b.p95
    requires policy.fallback == "optional"
    ensures SelectedRoutes(policy, [fast, a, b]) == [RouteOf(a, 0), RouteOf(b, 1), RouteOf(fast, 2)]
  {
    var order := Order(policy);
    assert [fast, a, b][1..] == [a, b] && [a, b][1..] == [b] && [b][1..] == [];
    assert Filter(policy, [b]) == [b];
    assert Filter(policy, [a, b]) == [a, b];
    assert Filter(policy, [fast, a, b]) == [fast, a, b];
    assert StableSort([b], order) == [b];
    assert StableSort([a, b], order) == [a, b];
    assert Insert(fast, [], order) == [fast];
    assert Insert(fast, [b], order) == [b, fast];
    assert Insert(fast, [a, b], order) == [a, b, fast];
    assert Chosen(policy, [fast, a, b]) == [a, b, fast];
  }

  lemma CheaperHidesFaster(current: Route, same: Route, fast: Route)
    requires current.status == same.status == fast.status == Healthy
    requires Cost(current) == Cost(same) < Cost(fast) && current.p95 == same.p95
    ensures Optimize([current, same, fast]).NotFound?
  {
    var routes := [current, same, fast];
    assert routes[1..] == [same, fast] && [same, fast][1..] == [fast] && [fast][1..] == [];
    assert HealthyRoutes([fast]) == [fast];
    assert HealthyRoutes(routes[1..]) == [same, fast];
    assert Best([same, fast]) == same;
  }

  const FAST := B.Pool("nvidia-fast", B.Managed, "H100/L40S", "cuda", false, 3.2, 80, 12)

  function CustomerPool(name: string): B.Pool {
    B.Pool(name, B.Byoc, "A100", "cuda", false, 0.0, 80, 1)
  }

  const BYOC_FIRST := Policy(900, Some("byoc"), "balanced", "optional")

  lemma PoolLatencies(name: string)
    ensures B.Latency(FAST) == 560 && B.Latency(CustomerPool(name)) == 980
  {
    assert "H100" <= "H100/L40S";
    assert B.Contains("H100/L40S", "H100");
    assert "A100"[1..] == "100" && "100"[1..] == "00" && "00"[1..] == "0" && "0"[1..] == "";
    assert !B.Contains("", "H100") && !B.Contains("", "MI300X");
    assert !B.Contains("0", "H100") && !B.Contains("0", "MI300X");
    assert !B.Contains("00", "H100") && !B.Contains("00", "MI300X");
    assert !B.Contains("100", "H100") && !B.Contains("100", "MI300X");
    assert "A100"[0] == 'A' && "H100"[0] == 'H' && "MI300X"[0] == 'M';
    assert !B.Contains("A100", "H100") && !B.Contains("A100", "MI300X");
  }

  lemma BenchmarkOfThree(fast: Candidate, a: Candidate, b: Candidate)
    requires fast.status == Pass && a.status == b.status == Borderline && a.p95 == b.p95
    ensures StableSort([fast, a, b], B.Ahead) == [fast, a, b]
  {
    assert [fast, a, b][1..] == [a, b] && [a, b][1..] == [b] && [b][1..] == [];
    assert StableSort([b], B.Ahead) == [b];
    assert StableSort([a, b], B.Ahead) == [a, b];
  }

  ghost predicate Hides(policy: Policy, results: seq<Candidate>) {
    exists r ::
      var routes := SelectedRoutes(policy, results);
      routes != [] && HealthyAlternative(routes, r) && MuchFaster(r, routes[0]) && Optimize(routes).NotFound?
  }

  lemma SlowPoolsHide(policy: Policy, a: Candidate, b: Candidate, fast: Candidate)
    requires Admissible(policy, a) && Admissible(policy, b) && Admissible(policy, fast)
    requires !Late(policy, a) && !Late(policy, b) && Late(policy, fast) && a.p95 == b.p95
             && fast.p95 + LATENCY_MARGIN < a.p95
    requires EffectiveCost(a.estimatedCost) == EffectiveCost(b.estimatedCost) < EffectiveCost(fast.estimatedCost)
    requires policy.fallback == "optional"
    ensures Hides(policy, [fast, a, b])
  {
    SlowPoolsFirst(policy, a, b, fast);
    var routes := [RouteOf(a, 0), RouteOf(b, 1), RouteOf(fast, 2)];
    CheaperHidesFaster(routes[0], routes[1], routes[2]);
    assert routes[1..][1] == RouteOf(fast, 2);
    assert HealthyAlternative(routes, RouteOf(fast, 2)) && MuchFaster(RouteOf(fast, 2), routes[0]);
  }

  predicate CustomerLike(row: Candidate) {
    && row.status == Borderline && row.p95 == 980 && !Late(BYOC_FIRST, row) && Admissible(BYOC_FIRST, row)
    && EffectiveCost(row.estimatedCost) == 0.05
  }

  predicate FastLike(row: Candidate) {
    && row.status == Pass && row.p95 == 560 && Late(BYOC_FIRST, row) && Admissible(BYOC_FIRST, row)
    && EffectiveCost(row.estimatedCost) >= 0.346
  }

  lemma CustomerRow(name: string)
    ensures CustomerLike(B.RowOf(false, None, CustomerPool(name)))
  {
    PoolLatencies(name);
    assert B.RouteName(CustomerPool(name))[..5] == "byoc" + ":" == "byoc:";
  }

  lemma FastRow()
    ensures FastLike(B.RowOf(false, None, FAST))
  {
    PoolLatencies("");
    assert B.RouteName(FAST)[0] == 'm' && "byoc:"[0] == 'b';
    ManagedCostRange(3.2);
  }

  lemma RowsHide(fast: Candidate, a: Candidate, b: Candidate)
    requires FastLike(fast) && CustomerLike(a) && CustomerLike(b)
    ensures Hides(BYOC_FIRST, StableSort([fast, a, b], B.Ahead))
  {
    BenchmarkOfThree(fast, a, b);
    SlowPoolsHide(BYOC_FIRST, a, b, fast);
  }

  lemma ThreeRegistered(p: B.Pool, q: B.Pool, r: B.Pool)
    requires p.name != q.name && p.name != r.name && q.name != r.name
    requires !p.kind.Local? && !q.kind.Local? && !r.kind.Local?
    ensures B.Registered([p, q, r])
  {
  }

  lemma RowsOfThree(p: B.Pool, q: B.Pool, r: B.Pool)
    ensures B.Benchmark(false, None, [p, q, r]) ==
            StableSort([B.RowOf(false, None, p), B.RowOf(false, None, q), B.RowOf(false, None, r)], B.Ahead)
  {
    var rows := B.Rows(false, None, [p, q, r]);
    assert rows == [rows[0], rows[1], rows[2]];
  }

  lemma PoolsHide(fast: B.Pool, a: B.Pool, b: B.Pool)
    requires FastLike(B.RowOf(false, None, fast))
    requires CustomerLike(B.RowOf(false, None, a)) && CustomerLike(B.RowOf(false, None, b))
    ensures Hides(BYOC_FIRST, B.Benchmark(false, None, [fast, a, b]))
  {
    RowsOfThree(fast, a, b);
    RowsHide(B.RowOf(false, None, fast), B.RowOf(false, None, a), B.RowOf(false, None, b));
  }

  /**
   * Much faster alternatives alone are not enough: in the deployment of two customer pools and a managed one under a
   * policy that prefers the customer's, the cheaper but equally slow one hides the fast one.
   */
  lemma FasterAlternativeHidden(a: string, b: string)
    requires a != b && a != FAST.name && b != FAST.name
    ensures B.Registered([FAST, CustomerPool(a), CustomerPool(b)])
    ensures Hides(BYOC_FIRST, B.Benchmark(false, None, [FAST, CustomerPool(a), CustomerPool(b)]))
  {
    ThreeRegistered(FAST, CustomerPool(a), CustomerPool(b));
    CustomerRow(a);
    CustomerRow(b);
    FastRow();
    PoolsHide(FAST, CustomerPool(a), CustomerPool(b));
  }
}
