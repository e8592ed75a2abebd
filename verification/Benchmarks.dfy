/** The benchmark of a model over certified pools, from which routes are selected. */
module Benchmarks {
  import opened Text
  import opened Sorting
  import opened Rounding
  import opened Routes
  import opened ManagedCosts

  datatype Kind = Byoc | Managed | Docker | Local

  datatype Pool = Pool(name: string, kind: Kind, hardware: string, accelerator: string, serverless: bool, hourly: real,
                       maxVram: int, capacity: int)

  function KindText(kind: Kind): (text: string)
    ensures ':' !in text
  {
    match kind
    case Byoc => "byoc"
    case Managed => "managed"
    case Docker => "docker"
    case Local => "local"
  }

  function RouteName(pool: Pool): string {
    KindText(pool.kind) + ":" + pool.name
  }

  predicate Contains(s: string, t: string) {
    t <= s || (s != "" && Contains(s[1..], t))
  }

  function Latency(pool: Pool): (ms: int)
    ensures 560 <= ms <= 1230
  {
    (if Contains(pool.hardware, "H100") then 560 else if Contains(pool.hardware, "MI300X") then 700 else 980)
    + (if pool.serverless then 250 else 0)
  }

  function StatusAt(ms: int): BenchStatus {
    if ms <= 900 then Pass else if ms <= 1100 then Borderline else BadP95
  }

  function AtLeastOne(x: real): real {
    if x > 1.0 then x else 1.0
  }

  function Capability(pool: Pool): real {
    pool.maxVram as real * pool.capacity as real * 7.0
  }

  /** The row of the local pool: measured when a local server could run the model, and otherwise simulated. */
  function LocalRow(gguf: bool, measured: Option<(int, real)>): Candidate {
    var simulated := if gguf then (1200, 18.0) else (1500, 8.0);
    var seen := if measured.Some? then measured.value else simulated;
    Candidate("local:local", "local", "llama.cpp", seen.0, seen.1, LOCAL_COST,
              if measured.Some? || gguf then Pass else Borderline, Some(measured.None?), Some(measured.Some?))
  }

  function RowOf(gguf: bool, measured: Option<(int, real)>, pool: Pool): Candidate {
    if pool.kind.Local? then LocalRow(gguf, measured)
    else
      var runtime := if gguf || pool.accelerator == "cpu" then "llama.cpp" else "vLLM";
      var cost := if pool.kind.Byoc? then CUSTOMER_COST else ManagedCostText(pool.hourly);
      Candidate(RouteName(pool), pool.name, runtime, Latency(pool),
                RoundTo(AtLeastOne(Capability(pool)), 10.0),
                cost, StatusAt(Latency(pool)), None, None)
  }

  function Rows(gguf: bool, measured: Option<(int, real)>, pools: seq<Pool>): (rows: seq<Candidate>)
    ensures |rows| == |pools|
    ensures forall i :: 0 <= i < |pools| ==> rows[i] == RowOf(gguf, measured, pools[i])
  {
    seq(|pools|, i requires 0 <= i < |pools| => RowOf(gguf, measured, pools[i]))
  }

  /** Passing rows first, and by latency among each. */
  predicate Ahead(a: Candidate, b: Candidate) {
    if a.status.Pass? != b.status.Pass? then a.status.Pass? else a.p95 <= b.p95
  }

  function Benchmark(gguf: bool, measured: Option<(int, real)>, pools: seq<Pool>): seq<Candidate> {
    StableSort(Rows(gguf, measured, pools), Ahead)
  }

  /** Without a certified pool there is nothing to benchmark. */
  method BenchmarkModel(gguf: bool, measured: Option<(int, real)>, pools: seq<Pool>)
    returns (results: Option<seq<Candidate>>)
    ensures results == if pools == [] then None else Some(Benchmark(gguf, measured, pools))
  {
    if pools == [] {
      return None;
    }
    var rows: seq<Candidate> := [];
    for i := 0 to |pools|
      invariant rows == Rows(gguf, measured, pools)[..i]
    {
      rows := rows + [RowOf(gguf, measured, pools[i])];
    }
    assert rows == Rows(gguf, measured, pools);
    return Some(StableSort(rows, Ahead));
  }

  // ---------------------------------------------------------------- rows, spelled out

  /** What hardware and mode make of a row: 980 ms, 700 with an MI300X, 560 with an H100, 250 more when serverless. */
  lemma RowExact(gguf: bool, measured: Option<(int, real)>, pool: Pool)
    requires !pool.kind.Local?
    ensures var c := RowOf(gguf, measured, pool);
            var fast, good := Contains(pool.hardware, "H100"), Contains(pool.hardware, "MI300X");
            && c.p95 == (if fast then 560 else if good then 700 else 980) + (if pool.serverless then 250 else 0)
            && (c.status == Pass <==> fast || (good && !pool.serverless))
            && (c.status == BadP95 <==> !fast && !good && pool.serverless)
            && (c.estimatedCost == "customer cost" <==> pool.kind == Byoc)
            && (c.runtime == "llama.cpp" <==> gguf || pool.accelerator == "cpu")
            && c.pool == pool.name && c.simulated.None? && c.real_.None?
  {
    var cost := ManagedCostText(pool.hourly);
    assert cost[0] == '-' && "customer cost"[0] == 'c';
    assert "vLLM"[0] == 'v' && "llama.cpp"[0] == 'l';
  }

  lemma NearAtLeastOne(exact: real)
    ensures var least, rate := if exact > 1.0 then exact else 1.0, RoundTo(AtLeastOne(exact), 10.0);
            (least - rate) * 10.0 <= 0.5 && (rate - least) * 10.0 <= 0.5
  {
    RoundToNear(AtLeastOne(exact), 10.0);
  }

  /** The rate of a row is seven times memory and capacity, at least one, to one decimal. */
  lemma RateNear(gguf: bool, measured: Option<(int, real)>, pool: Pool)
    requires !pool.kind.Local?
    ensures Capability(pool) == pool.maxVram as real * pool.capacity as real * 7.0
    ensures var exact := Capability(pool);
            var least := if exact > 1.0 then exact else 1.0;
            var rate := RowOf(gguf, measured, pool).tokensPerSec;
            (least - rate) * 10.0 <= 0.5 && (rate - least) * 10.0 <= 0.5
  {
    NearAtLeastOne(Capability(pool));
  }

  /** The local row: measured when it could be, and otherwise 1200 ms for a GGUF model and 1500 for another. */
  lemma LocalRowExact(gguf: bool, measured: Option<(int, real)>)
    ensures var c := LocalRow(gguf, measured);
            && c.route == "local:local" && c.pool == "local" && c.runtime == "llama.cpp"
            && c.estimatedCost == "local cost"
            && (measured.Some? ==> c.p95 == measured.value.0 && c.tokensPerSec == measured.value.1 && c.status == Pass)
            && (measured.None? && gguf ==> c.p95 == 1200 && c.tokensPerSec == 18.0 && c.status == Pass)
            && (measured.None? && !gguf ==> c.p95 == 1500 && c.tokensPerSec == 8.0 && c.status == Borderline)
            && c.simulated == Some(measured.None?) && c.real_ == Some(measured.Some?)
  {
  }

  /** A benchmark lists passing rows before the others, and faster ones first among each. */
  lemma BenchmarkOrder(gguf: bool, measured: Option<(int, real)>, pools: seq<Pool>, i: nat, j: nat)
    requires i < j < |Benchmark(gguf, measured, pools)|
    ensures var a, b := Benchmark(gguf, measured, pools)[i], Benchmark(gguf, measured, pools)[j];
            && (b.status == Pass ==> a.status == Pass)
            && ((a.status == Pass <==> b.status == Pass) ==> a.p95 <= b.p95)
    ensures multiset(Benchmark(gguf, measured, pools)) == multiset(Rows(gguf, measured, pools))
  {
    StableSortSorts(Rows(gguf, measured, pools), Ahead);
    assert Ahead(Benchmark(gguf, measured, pools)[i], Benchmark(gguf, measured, pools)[j]);
  }

  // ---------------------------------------------------------------- names

  /** Pools are kept under their names, and the local one is called so. */
  predicate Registered(pools: seq<Pool>) {
    && (forall i, j :: 0 <= i < j < |pools| ==> pools[i].name != pools[j].name)
    && (forall i :: 0 <= i < |pools| && pools[i].kind.Local? ==> pools[i].name == "local")
  }

  lemma RowNamed(gguf: bool, measured: Option<(int, real)>, pool: Pool)
    requires pool.kind.Local? ==> pool.name == "local"
    ensures RowOf(gguf, measured, pool).route == RouteName(pool) && RowOf(gguf, measured, pool).pool == pool.name
  {
    if pool.kind.Local? {
      assert "local" + ":" + "local" == "local:local";
    }
  }

  /** The rows of a benchmark have distinct names and distinct pools. */
  lemma BenchmarkDistinct(gguf: bool, measured: Option<(int, real)>, pools: seq<Pool>)
    requires Registered(pools)
    ensures DistinctBy(Benchmark(gguf, measured, pools), Name())
    ensures DistinctBy(Benchmark(gguf, measured, pools), PoolName())
  {
    var rows := Rows(gguf, measured, pools);
    forall i, j | 0 <= i < j < |rows|
      ensures rows[i].route != rows[j].route && rows[i].pool != rows[j].pool
    {
      RowNamed(gguf, measured, pools[i]);
      RowNamed(gguf, measured, pools[j]);
      if rows[i].route == rows[j].route {
        ColonSplit(KindText(pools[i].kind), pools[i].name, KindText(pools[j].kind), pools[j].name);
      }
    }
    StableSortSorts(rows, Ahead);
    PermutationKeepsDistinct(rows, Benchmark(gguf, measured, pools), Name());
    PermutationKeepsDistinct(rows, Benchmark(gguf, measured, pools), PoolName());
  }
}
