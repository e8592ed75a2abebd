/** Selecting the routes of a deployment from benchmark results. */
module Routes {
  import opened Text
  import opened Sorting

  // ---------------------------------------------------------------- benchmark results and policies

  datatype BenchStatus = Pass | Borderline | BadP95

  datatype Candidate = Candidate(
    route: string, pool: string, runtime: string, p95: int, tokensPerSec: real, estimatedCost: string,
    status: BenchStatus, simulated: Option<bool>, real_: Option<bool>)

  datatype Policy = Policy(maxP95: int, prefer: Option<string>, objective: string, fallback: string)

  datatype Role = Primary | Fallback | Overflow

  datatype Health = Healthy | Degraded | Stopped

  datatype Route = Route(
    role: Role, route: string, pool: string, runtime: string, p95: int, tokensPerSec: real, estimatedCost: string,
    status: Health, simulated: bool, real_: bool)

  const CUSTOMER_COST := "customer cost"

  predicate Admissible(policy: Policy, c: Candidate) {
    && c.status in {Pass, Borderline}
    && (c.p95 <= policy.maxP95 || c.status == Borderline)
  }

  function Filter(policy: Policy, cs: seq<Candidate>): seq<Candidate> {
    if cs == [] then []
    else (if Admissible(policy, cs[0]) then [cs[0]] else []) + Filter(policy, cs[1..])
  }

  /** What the policy puts last before it looks at latency. */
  predicate Late(policy: Policy, c: Candidate) {
    if policy.prefer == Some("byoc") then !StartsWith(c.route, "byoc:")
    else if policy.objective == "cheapest" then c.estimatedCost == CUSTOMER_COST
    else false
  }

  predicate Precedes(policy: Policy, a: Candidate, b: Candidate) {
    if Late(policy, a) != Late(policy, b) then !Late(policy, a) else a.p95 <= b.p95
  }

  function Order(policy: Policy): (Candidate, Candidate) -> bool {
    (a, b) => Precedes(policy, a, b)
  }

  lemma OrderIsTotalPreorder(policy: Policy)
    ensures TotalPreorder(Order(policy))
  {
  }

  function RoleAt(i: nat): Role {
    if i == 0 then Primary else if i == 1 then Fallback else Overflow
  }

  function RouteOf(c: Candidate, i: nat): Route {
    Route(RoleAt(i), c.route, c.pool, c.runtime, c.p95, c.tokensPerSec, c.estimatedCost, Healthy,
          if c.simulated.Some? then c.simulated.value else true,
          if c.real_.Some? then c.real_.value else false)
  }

  const MAX_ROUTES := 3

  /** The admissible candidates in the policy's order; candidates the policy does not tell apart keep theirs. */
  function Ranked(policy: Policy, results: seq<Candidate>): seq<Candidate> {
    StableSort(Filter(policy, results), Order(policy))
  }

  function Places(n: nat): (k: nat)
    ensures k <= n && k <= MAX_ROUTES
  {
    if n < MAX_ROUTES then n else MAX_ROUTES
  }

  function Chosen(policy: Policy, results: seq<Candidate>): seq<Candidate> {
    Ranked(policy, results)[..Places(|Ranked(policy, results)|)]
  }

  function Left(policy: Policy, results: seq<Candidate>): seq<Candidate> {
    Ranked(policy, results)[Places(|Ranked(policy, results)|)..]
  }

  function Standby(r: Route): Route {
    r.(role := Fallback, route := r.route + "-standby")
  }

  /** The routes of a deployment: one for each chosen candidate, and a standby when a single one needs a fallback. */
  function SelectedRoutes(policy: Policy, results: seq<Candidate>): (routes: seq<Route>) {
    var first := Chosen(policy, results);
    var routes := seq(|first|, i requires 0 <= i < |first| => RouteOf(first[i], i));
    if policy.fallback == "required" && |routes| == 1 then routes + [Standby(routes[0])] else routes
  }

  datatype Selection = UnknownPolicy | NoRoute | Selected(routes: seq<Route>)

  method SelectRoutes(policy: Option<Policy>, results: seq<Candidate>) returns (s: Selection)
    ensures s.UnknownPolicy? <==> policy.None?
    ensures s.NoRoute? <==> policy.Some? && forall c :: c in results ==> !Admissible(policy.value, c)
    ensures s.Selected? ==>
              var chosen := Chosen(policy.value, results);
              && 1 <= |chosen| <= MAX_ROUTES
              && |chosen| <= |s.routes|
              && (forall i :: 0 <= i < |chosen| ==> s.routes[i] == RouteOf(chosen[i], i))
              && s.routes[|chosen|..] ==
                 if policy.value.fallback == "required" && |chosen| == 1 then [Standby(s.routes[0])] else []
    ensures s.Selected? ==> s.routes == SelectedRoutes(policy.value, results)
    ensures s.Selected? ==> PositionalRoles(s.routes) && AllHealthy(s.routes) && |s.routes| <= MAX_ROUTES
    ensures s.Selected? && policy.value.fallback == "required" ==> |s.routes| >= 2
  {
    if policy.None? {
      return UnknownPolicy;
    }
    var p := policy.value;
    ChosenSize(p, results);
    var first := Chosen(p, results);
    if first == [] {
      return NoRoute;
    }
    var routes: seq<Route> := [];
    var index := 0;
    while index < |first|
      invariant 0 <= index <= |first| && |routes| == index
      invariant forall i :: 0 <= i < index ==> routes[i] == RouteOf(first[i], i)
    {
      routes := routes + [RouteOf(first[index], index)];
      index := index + 1;
    }
    if p.fallback == "required" && |routes| == 1 {
      routes := routes + [Standby(routes[0])];
    }
    s := Selected(routes);
  }

  predicate PositionalRoles(rs: seq<Route>) {
    forall i :: 0 <= i < |rs| ==> rs[i].role == RoleAt(i)
  }

  predicate AllHealthy(rs: seq<Route>) {
    forall i :: 0 <= i < |rs| ==> rs[i].status == Healthy
  }

  lemma {:induction false} FilterKeeps(policy: Policy, cs: seq<Candidate>)
    ensures forall c :: c in Filter(policy, cs) <==> c in cs && Admissible(policy, c)
    ensures forall c :: multiset(Filter(policy, cs))[c] == if Admissible(policy, c) then multiset(cs)[c] else 0
  {
    if cs != [] {
      FilterKeeps(policy, cs[1..]);
      assert cs == [cs[0]] + cs[1..];
    }
  }

  lemma RankedSorts(policy: Policy, results: seq<Candidate>)
    ensures Sorted(Ranked(policy, results), Order(policy))
    ensures multiset(Ranked(policy, results)) == multiset(Filter(policy, results))
    ensures |Ranked(policy, results)| == |Filter(policy, results)|
  {
    OrderIsTotalPreorder(policy);
    StableSortSorts(Filter(policy, results), Order(policy));
  }

  lemma ChosenSize(policy: Policy, results: seq<Candidate>)
    ensures |Chosen(policy, results)| <= MAX_ROUTES
    ensures Chosen(policy, results) == [] <==> forall c :: c in results ==> !Admissible(policy, c)
  {
    var kept := Filter(policy, results);
    FilterKeeps(policy, results);
    RankedSorts(policy, results);
    if kept != [] {
      assert kept[0] in kept;
    }
  }

  /** The candidates chosen and those left out are the ranked ones, cut in two. */
  lemma ChosenAndLeft(policy: Policy, results: seq<Candidate>)
    ensures Chosen(policy, results) + Left(policy, results) == Ranked(policy, results)
    ensures Left(policy, results) != [] ==> |Chosen(policy, results)| == MAX_ROUTES
  {
  }

  lemma SortedParts(xs: seq<Candidate>, ys: seq<Candidate>, policy: Policy)
    requires Sorted(xs + ys, Order(policy))
    ensures forall a, b :: a in xs && b in ys ==> Precedes(policy, a, b)
    ensures forall i, j :: 0 <= i < j < |xs| ==> Precedes(policy, xs[i], xs[j])
  {
    forall a, b | a in xs && b in ys
      ensures Precedes(policy, a, b)
    {
      var i :| 0 <= i < |xs| && xs[i] == a;
      var j :| 0 <= j < |ys| && ys[j] == b;
      assert (xs + ys)[i] == a && (xs + ys)[|xs| + j] == b;
      assert Order(policy)(a, b);
    }
    forall i, j | 0 <= i < j < |xs|
      ensures Precedes(policy, xs[i], xs[j])
    {
      assert (xs + ys)[i] == xs[i] && (xs + ys)[j] == xs[j];
      assert Order(policy)(xs[i], xs[j]);
    }
  }

  /** The chosen candidates are admissible and in order, nothing left out precedes one of them,
      nothing admissible is lost, and something is left out only when all places are taken. */
  lemma ChosenAreBest(policy: Policy, results: seq<Candidate>)
    ensures forall c :: multiset(Chosen(policy, results) + Left(policy, results))[c] ==
                        if Admissible(policy, c) then multiset(results)[c] else 0
    ensures forall a, b :: a in Chosen(policy, results) && b in Left(policy, results) ==> Precedes(policy, a, b)
    ensures forall i, j :: 0 <= i < j < |Chosen(policy, results)| ==>
                           Precedes(policy, Chosen(policy, results)[i], Chosen(policy, results)[j])
    ensures Left(policy, results) != [] ==> |Chosen(policy, results)| == MAX_ROUTES
  {
    ChosenAndLeft(policy, results);
    RankedSorts(policy, results);
    SortedParts(Chosen(policy, results), Left(policy, results), policy);
    FilterKeeps(policy, results);
  }

  /** Candidates the policy does not tell apart keep the order of the benchmark. */
  lemma TiesKeepOrder(policy: Policy, results: seq<Candidate>, c: Candidate)
    ensures Ties(Chosen(policy, results) + Left(policy, results), c, Order(policy)) ==
            Ties(Filter(policy, results), c, Order(policy))
  {
    ChosenAndLeft(policy, results);
    OrderIsTotalPreorder(policy);
    StableSortIsStable(Filter(policy, results), c, Order(policy));
  }

  /** Order and ties leave one ranking only, so any stable sort gives it. */
  lemma RankingUnique(policy: Policy, results: seq<Candidate>, xs: seq<Candidate>)
    requires Sorted(xs, Order(policy))
    requires forall c :: Ties(xs, c, Order(policy)) == Ties(Filter(policy, results), c, Order(policy))
    ensures xs == Chosen(policy, results) + Left(policy, results)
  {
    ChosenAndLeft(policy, results);
    OrderIsTotalPreorder(policy);
    RankedSorts(policy, results);
    forall c
      ensures Ties(xs, c, Order(policy)) == Ties(Ranked(policy, results), c, Order(policy))
    {
      StableSortIsStable(Filter(policy, results), c, Order(policy));
    }
    StableSortUnique(xs, Ranked(policy, results), Order(policy));
  }

  // ---------------------------------------------------------------- limits and order, spelled out

  /** A passing row must be within the latency limit, a borderline one need not, and no other row is chosen. */
  predicate MayBeChosen(policy: Policy, c: Candidate) {
    (c.status == Pass && c.p95 <= policy.maxP95) || c.status == Borderline
  }

  /** Only such rows are chosen, and while places are left all of them are. */
  lemma LimitsHold(policy: Policy, results: seq<Candidate>, c: Candidate)
    ensures |Chosen(policy, results)| <= 3
    ensures c in Chosen(policy, results) ==> c in results && MayBeChosen(policy, c)
    ensures c in results && MayBeChosen(policy, c) && |Chosen(policy, results)| < 3 ==> c in Chosen(policy, results)
  {
    ChosenAreBest(policy, results);
    var all := Chosen(policy, results) + Left(policy, results);
    assert multiset(all)[c] == if Admissible(policy, c) then multiset(results)[c] else 0;
    assert c in all <==> multiset(all)[c] > 0;
    assert c in results <==> multiset(results)[c] > 0;
    if |Chosen(policy, results)| < 3 {
      assert Left(policy, results) == [];
    }
  }

  /**
   * Of two chosen routes the earlier one is: under a policy that prefers the customer's, the customer's; under a
   * cheapest policy, the managed one; and the faster one where that does not tell.
   */
  lemma ChosenOrder(policy: Policy, results: seq<Candidate>, i: nat, j: nat)
    requires i < j < |Chosen(policy, results)|
    ensures var a, b := Chosen(policy, results)[i], Chosen(policy, results)[j];
            if policy.prefer == Some("byoc") then
              && ("byoc:" <= b.route ==> "byoc:" <= a.route)
              && (("byoc:" <= a.route <==> "byoc:" <= b.route) ==> a.p95 <= b.p95)
            else if policy.objective == "cheapest" then
              && (a.estimatedCost == "customer cost" ==> b.estimatedCost == "customer cost")
              && ((a.estimatedCost == "customer cost" <==> b.estimatedCost == "customer cost") ==> a.p95 <= b.p95)
            else a.p95 <= b.p95
  {
    ChosenAreBest(policy, results);
    assert Precedes(policy, Chosen(policy, results)[i], Chosen(policy, results)[j]);
  }

  /** Column by column, what a selected route shows of its row; a row that says nothing is simulated. */
  lemma RouteShowsRow(policy: Policy, results: seq<Candidate>, i: nat)
    requires i < |Chosen(policy, results)|
    ensures var c := Chosen(policy, results)[i];
            var routes := SelectedRoutes(policy, results);
            && i < |routes| && routes[i].route == c.route && routes[i].pool == c.pool && routes[i].runtime == c.runtime
            && routes[i].p95 == c.p95 && routes[i].tokensPerSec == c.tokensPerSec
            && routes[i].estimatedCost == c.estimatedCost && routes[i].status == Healthy
            && routes[i].role == (if i == 0 then Primary else if i == 1 then Fallback else Overflow)
            && (routes[i].simulated <==> c.simulated != Some(false)) && (routes[i].real_ <==> c.real_ == Some(true))
  {
  }

  /** A single route that needs a fallback gets itself as one, its name ending in `-standby`; none is added else. */
  lemma StandbyShows(policy: Policy, results: seq<Candidate>)
    ensures var chosen, routes := Chosen(policy, results), SelectedRoutes(policy, results);
            if policy.fallback == "required" && |chosen| == 1
            then |routes| == 2 && routes[1] == routes[0].(role := Fallback, route := chosen[0].route + "-standby")
            else |routes| == |chosen|
  {
  }

  // ---------------------------------------------------------------- names and pools of the selected routes

  predicate DistinctNames(rs: seq<Route>) {
    forall i, j :: 0 <= i < j < |rs| ==> rs[i].route != rs[j].route
  }

  lemma {:induction false} FilterKeepsDistinct(policy: Policy, cs: seq<Candidate>, key: Candidate -> string)
    requires DistinctBy(cs, key)
    ensures DistinctBy(Filter(policy, cs), key)
    ensures forall c :: c in Filter(policy, cs) ==> c in cs
  {
    if cs != [] {
      FilterKeepsDistinct(policy, cs[1..], key);
      var rest := Filter(policy, cs[1..]);
      assert forall k :: 0 <= k < |rest| ==> rest[k] in rest;
    }
  }

  lemma ChosenKeepDistinct(policy: Policy, results: seq<Candidate>, key: Candidate -> string)
    requires DistinctBy(results, key)
    ensures DistinctBy(Chosen(policy, results), key)
  {
    FilterKeepsDistinct(policy, results, key);
    RankedSorts(policy, results);
    PermutationKeepsDistinct(Filter(policy, results), Ranked(policy, results), key);
  }

  function Name(): Candidate -> string {
    (c: Candidate) => c.route
  }

  function PoolName(): Candidate -> string {
    (c: Candidate) => c.pool
  }

  /** Benchmark rows of distinct names give a deployment whose routes, a standby included, have distinct names. */
  lemma SelectedNamesDistinct(policy: Policy, results: seq<Candidate>)
    requires DistinctBy(results, Name())
    ensures DistinctNames(SelectedRoutes(policy, results))
  {
    ChosenKeepDistinct(policy, results, Name());
    var first := Chosen(policy, results);
    assert forall i, j :: 0 <= i < j < |first| ==> Name()(first[i]) != Name()(first[j]);
    if |first| == 1 {
      assert |first[0].route + "-standby"| > |first[0].route|;
    }
  }

  /** The fallback a policy requires is on another pool exactly when at least two candidates are admissible. */
  lemma FallbackOnOtherPool(policy: Policy, results: seq<Candidate>)
    requires policy.fallback == "required" && DistinctBy(results, PoolName())
    requires exists c :: c in results && Admissible(policy, c)
    ensures var routes := SelectedRoutes(policy, results);
            |routes| >= 2 && (routes[1].pool != routes[0].pool <==> |Filter(policy, results)| >= 2)
  {
    ChosenSize(policy, results);
    RankedSorts(policy, results);
    ChosenKeepDistinct(policy, results, PoolName());
    var first := Chosen(policy, results);
    assert forall i, j :: 0 <= i < j < |first| ==> PoolName()(first[i]) != PoolName()(first[j]);
  }
}
