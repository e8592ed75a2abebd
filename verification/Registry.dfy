/** The mutable state around the index: running benchmarks, certifying pools, setting costs and ranking placements. */
module Registry {
  import opened Text
  import opened Sorting
  import opened Compatibility
  import P = Placement

  datatype Pool = Pool(kind: string, provider: string, status: string, hardware: Option<string>,
                       estimatedCost: Option<real>)

  datatype Gpu = Gpu(vendor: Option<string>, name: Option<string>, memoryGb: Option<int>)

  /** What the container runtime reports for one benchmark run. */
  datatype Observation = Observation(
    id: string, dockerAvailable: bool, inventoryStatus: string, gpu: Option<Gpu>, started: bool, image: Option<string>,
    measured: Option<(int, real)>, now: nat)

  datatype ModelRecord = ModelRecord(name: string, source: string, runtimeHint: string, createdAt: nat, lastSeen: nat)
  datatype HardwareRecord = HardwareRecord(provider: string, vendor: string, accelerator: string, memoryGb: int,
                                           lastSeen: nat)
  datatype RuntimeRecord = RuntimeRecord(name: string, image: Option<string>, lastSeen: nat)

  datatype RunOutcome =
    | UnknownCompute | NotDocker | UnsupportedRuntime | DockerUnavailable | StartFailed | Logged(result: Result)

  function Or<T>(o: Option<T>, default: T): T {
    if o.Some? then o.value else default
  }

  // ---------------------------------------------------------------- costs and candidates

  /** What ranking reads besides the index and the log. */
  datatype Market = Market(pools: map<string, Pool>, costs: map<string, real>)

  /** A set cost wins over the pool's estimate, which wins over the default. */
  function CostOf(m: Market, compute: string): real {
    if "docker:" + compute in m.costs then m.costs["docker:" + compute]
    else if compute in m.pools then Or(m.pools[compute].estimatedCost, 0.72)
    else 0.72
  }

  function FactsOf(m: Market, r: Result): P.Facts {
    var available := r.compute in m.pools && m.pools[r.compute].status in {"available", "certified"};
    P.Facts(true, available, r.ttftMs as real, r.tokensPerSecond, CostOf(m, r.compute))
  }

  /** The request a ranking answers; the budget is already a number. */
  datatype Request = Request(modelId: string, strategy: string, sla: string, maxCost: Option<real>)

  datatype Candidate = Candidate(score: real, key: Key, resultId: string, runtime: string, compute: string,
                                 facts: P.Facts)

  predicate WithinBudget(q: Request, cost: real) {
    q.maxCost.None? || cost <= q.maxCost.value
  }

  function CandidateOf(m: Market, q: Request, r: Result): Candidate {
    var facts := FactsOf(m, r);
    Candidate(P.Score(facts, q.strategy, q.sla), r.key, r.id, r.runtime, r.compute, facts)
  }

  /** A result that can be placed: it succeeded, is about the requested model and fits the budget. */
  predicate Eligible(m: Market, q: Request, r: Result) {
    r.success && r.key.modelId == q.modelId && WithinBudget(q, CostOf(m, r.compute))
  }

  function CandidatesOf(m: Market, q: Request, rs: seq<Result>): seq<Candidate> {
    if rs == [] then []
    else (if Eligible(m, q, rs[0]) then [CandidateOf(m, q, rs[0])] else []) + CandidatesOf(m, q, rs[1..])
  }

  function ByScore(): (Candidate, Candidate) -> bool {
    (a: Candidate, b: Candidate) => a.score >= b.score
  }

  /** The ranking a direct scan of the log gives. */
  function RankedLog(m: Market, q: Request, log: seq<Result>): seq<Candidate> {
    StableSort(CandidatesOf(m, q, Latest(log)), ByScore())
  }

  lemma {:induction false} CandidatesExact(m: Market, q: Request, rs: seq<Result>, c: Candidate)
    ensures c in CandidatesOf(m, q, rs) <==> exists r :: r in rs && Eligible(m, q, r) && c == CandidateOf(m, q, r)
  {
    if rs != [] {
      CandidatesExact(m, q, rs[1..], c);
      assert rs == [rs[0]] + rs[1..];
    }
  }

  lemma {:induction false} CandidatesDistinct(m: Market, q: Request, rs: seq<Result>)
    requires DistinctKeys(rs)
    ensures forall i, j :: 0 <= i < j < |CandidatesOf(m, q, rs)| ==>
            CandidatesOf(m, q, rs)[i].key != CandidatesOf(m, q, rs)[j].key
  {
    if rs != [] {
      CandidatesDistinct(m, q, rs[1..]);
      var rest := CandidatesOf(m, q, rs[1..]);
      forall i | 0 <= i < |rest|
        ensures rest[i].key != rs[0].key
      {
        CandidatesExact(m, q, rs[1..], rest[i]);
        var r :| r in rs[1..] && Eligible(m, q, r) && rest[i] == CandidateOf(m, q, r);
        var k :| 0 <= k < |rs[1..]| && rs[1..][k] == r;
        assert rs[k + 1] == r;
      }
    }
  }

  /** The ranking lists exactly the last, successful, affordable results of the model, best score first. */
  lemma RankingExact(m: Market, q: Request, log: seq<Result>, c: Candidate)
    ensures c in RankedLog(m, q, log) <==>
            exists i: nat :: i < |log| && LastOfKey(log, i) && Eligible(m, q, log[i]) && c == CandidateOf(m, q, log[i])
    ensures Sorted(RankedLog(m, q, log), ByScore())
  {
    var all := CandidatesOf(m, q, Latest(log));
    StableSortSorts(all, ByScore());
    SameMembers(RankedLog(m, q, log), all, c);
    CandidatesExact(m, q, Latest(log), c);
    if c in all {
      var r :| r in Latest(log) && Eligible(m, q, r) && c == CandidateOf(m, q, r);
      LatestExact(log, r);
    }
    forall i: nat | i < |log| && LastOfKey(log, i)
      ensures log[i] in Latest(log)
    {
      LatestExact(log, log[i]);
    }
  }

  /** Candidates of equal score keep the order of the index, in which the last results were logged. */
  lemma EqualScoresKeepOrder(m: Market, q: Request, log: seq<Result>, c: Candidate)
    ensures Ties(RankedLog(m, q, log), c, ByScore()) == Ties(CandidatesOf(m, q, Latest(log)), c, ByScore())
  {
    StableSortIsStable(CandidatesOf(m, q, Latest(log)), c, ByScore());
  }

  /** Scores and ties leave one ranking only, so any stable sort of the candidates gives it. */
  lemma RankingUnique(m: Market, q: Request, log: seq<Result>, xs: seq<Candidate>)
    requires Sorted(xs, ByScore())
    requires forall c :: Ties(xs, c, ByScore()) == Ties(CandidatesOf(m, q, Latest(log)), c, ByScore())
    ensures xs == RankedLog(m, q, log)
  {
    StableSortSorts(CandidatesOf(m, q, Latest(log)), ByScore());
    forall c
      ensures Ties(xs, c, ByScore()) == Ties(RankedLog(m, q, log), c, ByScore())
    {
      EqualScoresKeepOrder(m, q, log, c);
    }
    StableSortUnique(xs, RankedLog(m, q, log), ByScore());
  }

  /** No key is ranked twice. */
  lemma RankingDistinct(m: Market, q: Request, log: seq<Result>)
    ensures forall i, j :: 0 <= i < j < |RankedLog(m, q, log)| ==>
            RankedLog(m, q, log)[i].key != RankedLog(m, q, log)[j].key
  {
    var all, ranked := CandidatesOf(m, q, Latest(log)), RankedLog(m, q, log);
    LatestDistinct(log);
    CandidatesDistinct(m, q, Latest(log));
    StableSortSorts(all, ByScore());
    PermutationKeepsDistinct(all, ranked, (c: Candidate) => c.key);
  }

  /** A candidate that is no worse in any respect than the selected one has the same score. */
  lemma DominatingCandidateTies(m: Market, q: Request, log: seq<Result>, i: nat)
    requires i < |RankedLog(m, q, log)|
    requires P.Dominates(RankedLog(m, q, log)[i].facts, RankedLog(m, q, log)[0].facts)
    ensures RankedLog(m, q, log)[i].score == RankedLog(m, q, log)[0].score
  {
    var ranked := RankedLog(m, q, log);
    var c, best := ranked[i], ranked[0];
    RankingExact(m, q, log, c);
    RankingExact(m, q, log, best);
    P.ScoreMonotone(c.facts, best.facts, q.strategy, q.sla);
    assert i > 0 ==> ByScore()(ranked[0], ranked[i]);
  }

  /**
   * The facts decide the ranking: of two ranked results the one that leads by more than a ten-thousandth of a point
   * comes first.
   */
  lemma LeaderComesFirst(m: Market, q: Request, log: seq<Result>, r: Result, s: Result, i: nat, j: nat)
    requires i < |RankedLog(m, q, log)| && RankedLog(m, q, log)[i] == CandidateOf(m, q, r)
    requires j < |RankedLog(m, q, log)| && RankedLog(m, q, log)[j] == CandidateOf(m, q, s)
    requires P.LeadFor(FactsOf(m, r), FactsOf(m, s), q.strategy, q.sla) > 0.0001
    ensures i < j
  {
    P.LeadDecides(FactsOf(m, r), FactsOf(m, s), q.strategy, q.sla);
    RankingExact(m, q, log, CandidateOf(m, q, r));
  }

  /** Results are ranked when they succeeded, are of the model and within the budget; and what a rank shows of them. */
  lemma CandidateShows(m: Market, q: Request, r: Result)
    ensures Eligible(m, q, r) <==>
              r.success && r.key.modelId == q.modelId && (q.maxCost.None? || FactsOf(m, r).cost <= q.maxCost.value)
    ensures var c := CandidateOf(m, q, r);
            && c.key == r.key && c.resultId == r.id && c.runtime == r.runtime && c.compute == r.compute
            && c.facts == FactsOf(m, r) && c.score == P.Score(FactsOf(m, r), q.strategy, q.sla)
  {
  }

  /** What a ranked result is judged by: its measurements, its pool's status, and the cost set or estimated there. */
  lemma FactsExact(m: Market, r: Result)
    ensures var f := FactsOf(m, r);
            && f.verified && f.ttftMs == r.ttftMs as real && f.tokensPerSecond == r.tokensPerSecond
            && (f.available <==> r.compute in m.pools && (m.pools[r.compute].status == "available" ||
                                                          m.pools[r.compute].status == "certified"))
            && ("docker:" + r.compute in m.costs ==> f.cost == m.costs["docker:" + r.compute])
            && ("docker:" + r.compute !in m.costs ==>
                  f.cost == if r.compute in m.pools && m.pools[r.compute].estimatedCost.Some?
                            then m.pools[r.compute].estimatedCost.value else 0.72)
  {
  }

  /** A set cost is read back in a ranking exactly when the pool's provider is Docker's own. */
  lemma SetCostIsRead(m: Market, compute: string, value: real)
    requires compute in m.pools
    ensures var after := m.(costs := m.costs[m.pools[compute].provider + ":" + compute := value]);
            CostOf(after, compute) == if m.pools[compute].provider == "docker" then value else CostOf(m, compute)
  {
    var provider := m.pools[compute].provider;
    assert "docker:" + compute == "docker" + ":" + compute;
    if provider + ":" + compute == "docker" + ":" + compute {
      assert (provider + ":" + compute)[..|provider|] == provider;
      assert |provider| == |"docker"|;
      assert ("docker" + ":" + compute)[..|provider|] == "docker";
    }
  }

  // ---------------------------------------------------------------- reading the index

  /** The last logged result of an id. */
  function ResultById(log: seq<Result>, id: string): Option<Result> {
    if log == [] then None
    else if log[|log| - 1].id == id then Some(log[|log| - 1])
    else ResultById(log[..|log| - 1], id)
  }

  predicate DistinctIds(log: seq<Result>) {
    forall i, j :: 0 <= i < j < |log| ==> log[i].id != log[j].id
  }

  lemma {:induction false} ResultFound(log: seq<Result>, r: Result)
    requires DistinctIds(log) && r in log
    ensures ResultById(log, r.id) == Some(r)
  {
    var n := |log| - 1;
    if log[n] != r {
      var i :| 0 <= i < |log| && log[i] == r;
      assert log[..n][i] == r;
      ResultFound(log[..n], r);
    }
  }

  /** The candidate an index record leads to, if any. */
  function FromRecord(m: Market, q: Request, log: seq<Result>, runtimes: map<string, RuntimeRecord>, record: Record)
    : seq<Candidate>
  {
    if !record.Benchmarked? || !record.verified || record.key.modelId != q.modelId then []
    else
      var found := ResultById(log, record.resultId);
      if found.None? || !found.value.success then []
      else
        var r := found.value;
        var runtime := if record.key.runtimeId in runtimes then runtimes[record.key.runtimeId].name else r.runtime;
        if !WithinBudget(q, CostOf(m, r.compute)) then []
        else
          var facts := FactsOf(m, r).(verified := record.verified);
          [Candidate(P.Score(facts, q.strategy, q.sla), record.key, r.id, runtime, r.compute, facts)]
  }

  function FromRecords(m: Market, q: Request, log: seq<Result>, runtimes: map<string, RuntimeRecord>,
      records: seq<Record>): seq<Candidate> {
    if records == [] then []
    else FromRecord(m, q, log, runtimes, records[0]) + FromRecords(m, q, log, runtimes, records[1..])
  }

  lemma {:induction false} FromRecordsSnoc(m: Market, q: Request, log: seq<Result>,
      runtimes: map<string, RuntimeRecord>, records: seq<Record>, x: Record)
    ensures FromRecords(m, q, log, runtimes, records + [x]) ==
            FromRecords(m, q, log, runtimes, records) + FromRecord(m, q, log, runtimes, x)
  {
    if records == [] {
      assert [] + [x] == [x] && [x][1..] == [];
    } else {
      FromRecordsSnoc(m, q, log, runtimes, records[1..], x);
      assert (records + [x])[1..] == records[1..] + [x] && (records + [x])[0] == records[0];
      AppendAssociative(FromRecord(m, q, log, runtimes, records[0]), FromRecords(m, q, log, runtimes, records[1..]),
                        FromRecord(m, q, log, runtimes, x));
    }
  }

  lemma FromRecordsNext(m: Market, q: Request, log: seq<Result>, runtimes: map<string, RuntimeRecord>,
                        records: seq<Record>, i: nat)
    requires i < |records|
    ensures FromRecords(m, q, log, runtimes, records[..i + 1]) ==
            FromRecords(m, q, log, runtimes, records[..i]) + FromRecord(m, q, log, runtimes, records[i])
  {
    FromRecordsSnoc(m, q, log, runtimes, records[..i], records[i]);
    assert records[..i + 1] == records[..i] + [records[i]];
  }

  lemma CertifiedAddsNothing(m: Market, q: Request, log: seq<Result>, runtimes: map<string, RuntimeRecord>,
                             records: seq<Record>)
    requires records != [] && !records[0].Benchmarked?
    ensures FromRecords(m, q, log, runtimes, records) == FromRecords(m, q, log, runtimes, records[1..])
    ensures BenchmarkRecords(records) == BenchmarkRecords(records[1..])
  {
    assert FromRecord(m, q, log, runtimes, records[0]) == [];
    assert [] + FromRecords(m, q, log, runtimes, records[1..]) == FromRecords(m, q, log, runtimes, records[1..]);
  }

  lemma {:induction false} OnlyBenchmarksMatter(m: Market, q: Request, log: seq<Result>,
      runtimes: map<string, RuntimeRecord>, records: seq<Record>)
    ensures FromRecords(m, q, log, runtimes, records) == FromRecords(m, q, log, runtimes, BenchmarkRecords(records))
  {
    if records != [] {
      OnlyBenchmarksMatter(m, q, log, runtimes, records[1..]);
      if records[0].Benchmarked? {
        assert BenchmarkRecords(records) == [records[0]] + BenchmarkRecords(records[1..]);
        assert BenchmarkRecords(records)[1..] == BenchmarkRecords(records[1..]);
      } else {
        CertifiedAddsNothing(m, q, log, runtimes, records);
      }
    }
  }

  /** A result whose runtime record carries its runtime's name. */
  predicate RuntimeKnown(runtimes: map<string, RuntimeRecord>, r: Result) {
    r.key.runtimeId in runtimes && runtimes[r.key.runtimeId].name == r.runtime
  }

  /** Through the index the same candidates are found as directly from the kept results. */
  lemma {:induction false} IndexFindsLog(id: Ids, m: Market, q: Request, log: seq<Result>,
                                         runtimes: map<string, RuntimeRecord>, rs: seq<Result>)
    requires DistinctIds(log)
    requires forall r :: r in rs ==> r in log && RuntimeKnown(runtimes, r)
    ensures FromRecords(m, q, log, runtimes, RecordsOf(id, rs)) == CandidatesOf(m, q, rs)
  {
    if rs != [] {
      assert forall r :: r in rs[1..] ==> r in rs;
      IndexFindsLog(id, m, q, log, runtimes, rs[1..]);
      assert RecordsOf(id, rs)[1..] == RecordsOf(id, rs[1..]);
      assert rs[0] in rs;
      ResultFound(log, rs[0]);
      assert FromRecord(m, q, log, runtimes, RecordOf(id, rs[0])) ==
             if Eligible(m, q, rs[0]) then [CandidateOf(m, q, rs[0])] else [];
    }
  }

  // ---------------------------------------------------------------- the state

  function HardwareText(provider: string, vendor: string, accelerator: string, memoryGb: int): string {
    provider + ":" + vendor + ":" + accelerator + ":" + IntText(memoryGb)
  }

  function RuntimeText(runtime: string, image: Option<string>): string {
    runtime + ":" + Or(image, "local")
  }

  /** The hardware a run is accounted to: the first GPU seen, or what the pool says; the pool's name has no part. */
  function HardwareOf(pool: Pool, o: Observation): HardwareRecord {
    var gpu := Or(o.gpu, Gpu(None, None, None));
    HardwareRecord(pool.provider, Or(gpu.vendor, "cpu"), Or(gpu.name, Or(pool.hardware, "Docker local")),
                   Or(gpu.memoryGb, 0), o.now)
  }

  function Description(h: HardwareRecord): string {
    HardwareText(h.provider, h.vendor, h.accelerator, h.memoryGb)
  }

  function HardwareId(id: Ids, h: HardwareRecord): string {
    id.make(OfHardware, Description(h))
  }

  /** The key a run is logged under. */
  function KeyOf(id: Ids, source: string, runtime: string, pool: Pool, profile: string, o: Observation): Key {
    Key(ModelId(id, source), RuntimeId(id, runtime, o.image), HardwareId(id, HardwareOf(pool, o)), profile)
  }

  /** The result a run is logged with; a failed measurement counts as zeros. */
  function ResultOf(key: Key, source: string, runtime: string, compute: string, o: Observation): Result {
    var measured := Or(o.measured, (0, 0.0));
    Result(o.id, key, source, runtime, compute, o.measured.Some?, measured.0, measured.1)
  }

  /** What a completed run leaves in the log. */
  function RunResult(id: Ids, source: string, runtime: string, compute: string, pool: Pool, profile: string,
                     o: Observation): Result
  {
    ResultOf(KeyOf(id, source, runtime, pool, profile, o), source, runtime, compute, o)
  }

  predicate Runnable(runtime: string) {
    runtime in {"llama.cpp", "vllm"}
  }

  // ---------------------------------------------------------------- identity records

  datatype Identities = Identities(models: map<string, ModelRecord>, hardware: map<string, HardwareRecord>,
                                   runtimes: map<string, RuntimeRecord>)

  function ModelId(id: Ids, source: string): string {
    id.make(OfModel, source)
  }

  function RuntimeId(id: Ids, runtime: string, image: Option<string>): string {
    id.make(OfRuntime, RuntimeText(runtime, image))
  }

  /** Every record is kept under the id of what it describes. */
  ghost predicate Named(id: Ids, known: Identities) {
    && (forall k :: k in known.models ==> k == ModelId(id, known.models[k].source))
    && (forall k :: k in known.hardware ==> k == HardwareId(id, known.hardware[k]))
    && (forall k :: k in known.runtimes ==>
          Runnable(known.runtimes[k].name) && k == RuntimeId(id, known.runtimes[k].name, known.runtimes[k].image))
  }

  /** Every identifier of a logged result is on record; model and runtime are those the result names. */
  predicate Resolvable(id: Ids, known: Identities, r: Result) {
    && ColonFree(r.key)
    && r.key.modelId == ModelId(id, r.source)
    && r.key.modelId in known.models && known.models[r.key.modelId].source == r.source
    && RuntimeKnown(known.runtimes, r)
    && r.key.hardwareId in known.hardware
  }

  ghost predicate AllResolvable(id: Ids, known: Identities, log: seq<Result>) {
    forall r :: r in log ==> Resolvable(id, known, r)
  }

  lemma RunResolvable(id: Ids, known: Identities, source: string, runtime: string, compute: string, o: Observation,
                      key: Key)
    requires ColonFree(key) && key.modelId == ModelId(id, source)
    requires key.modelId in known.models && known.models[key.modelId].source == source
    requires key.runtimeId in known.runtimes && known.runtimes[key.runtimeId].name == runtime
    requires key.hardwareId in known.hardware
    ensures Resolvable(id, known, ResultOf(key, source, runtime, compute, o))
    ensures ResultOf(key, source, runtime, compute, o).id == o.id
    ensures ResultOf(key, source, runtime, compute, o).key == key
  {
  }

  /** Records are added, or seen again. */
  ghost predicate Extends(known: Identities, more: Identities) {
    && (forall k :: k in known.models ==> k in more.models && more.models[k].source == known.models[k].source)
    && (forall k :: k in known.hardware ==> k in more.hardware)
    && (forall k :: k in known.runtimes ==> k in more.runtimes && more.runtimes[k].name == known.runtimes[k].name)
  }

  lemma OneMoreResolvable(id: Ids, known: Identities, log: seq<Result>, r: Result)
    requires AllResolvable(id, known, log) && Resolvable(id, known, r)
    ensures AllResolvable(id, known, log + [r])
  {
  }

  lemma KeysColonFree(id: Ids, known: Identities, log: seq<Result>)
    requires AllResolvable(id, known, log)
    ensures forall r :: r in log ==> ColonFree(r.key) && RuntimeKnown(known.runtimes, r)
  {
  }

  /** The first record of an id stays; only the sighting moves. */
  function SeenModel(known: Identities, k: string, record: ModelRecord): Identities {
    var kept := if k in known.models then known.models[k].(lastSeen := record.lastSeen) else record;
    known.(models := known.models[k := kept])
  }

  function SeenHardware(known: Identities, k: string, record: HardwareRecord): Identities {
    var kept := if k in known.hardware then known.hardware[k].(lastSeen := record.lastSeen) else record;
    known.(hardware := known.hardware[k := kept])
  }

  function SeenRuntime(known: Identities, k: string, record: RuntimeRecord): Identities {
    var kept := if k in known.runtimes then known.runtimes[k].(lastSeen := record.lastSeen) else record;
    known.(runtimes := known.runtimes[k := kept])
  }

  /** Seen again, a record keeps all it says but the time it was last seen; seen first, it is kept as it is. */
  lemma SeenAgain(known: Identities, k: string, m: ModelRecord, h: HardwareRecord, r: RuntimeRecord)
    ensures var after := SeenModel(known, k, m).models[k];
            after == if k in known.models then known.models[k].(lastSeen := m.lastSeen) else m
    ensures var after := SeenHardware(known, k, h).hardware[k];
            after == if k in known.hardware then known.hardware[k].(lastSeen := h.lastSeen) else h
    ensures var after := SeenRuntime(known, k, r).runtimes[k];
            after == if k in known.runtimes then known.runtimes[k].(lastSeen := r.lastSeen) else r
  {
  }

  lemma ModelSeen(id: Ids, known: Identities, record: ModelRecord)
    requires StableIds(id) && Named(id, known)
    ensures var k := ModelId(id, record.source);
            var more := SeenModel(known, k, record);
            Named(id, more) && Extends(known, more) && more.models[k].source == record.source
  {
    var k := ModelId(id, record.source);
    if k in known.models {
      assert id.origin(ModelId(id, known.models[k].source)) == (OfModel, known.models[k].source);
      assert id.origin(k) == (OfModel, record.source);
    }
  }

  lemma RuntimeSeen(id: Ids, known: Identities, record: RuntimeRecord)
    requires StableIds(id) && Named(id, known) && Runnable(record.name)
    ensures var k := RuntimeId(id, record.name, record.image);
            var more := SeenRuntime(known, k, record);
            Named(id, more) && Extends(known, more) && more.runtimes[k].name == record.name
  {
    var k := RuntimeId(id, record.name, record.image);
    if k in known.runtimes {
      var kept := known.runtimes[k];
      assert id.origin(RuntimeId(id, kept.name, kept.image)) == (OfRuntime, RuntimeText(kept.name, kept.image));
      assert id.origin(k) == (OfRuntime, RuntimeText(record.name, record.image));
      RunnableNames(kept.name, Or(kept.image, "local"), record.name, Or(record.image, "local"));
    }
  }

  class State {
    const id: Ids
    var pools: map<string, Pool>
    /** The sources of registered model names. */
    var models: map<string, string>
    var costs: map<string, real>
    var results: seq<Result>
    var records: seq<Record>
    var modelRecords: map<string, ModelRecord>
    var hardwareNodes: map<string, HardwareRecord>
    var runtimeProfiles: map<string, RuntimeRecord>

    function Known(): Identities
      reads this`modelRecords, this`hardwareNodes, this`runtimeProfiles
    {
      Identities(modelRecords, hardwareNodes, runtimeProfiles)
    }

    ghost predicate Valid()
      reads this`modelRecords, this`hardwareNodes, this`runtimeProfiles, this`results, this`records
    {
      && StableIds(id)
      && DistinctIds(results)
      && Named(id, Known())
      && AllResolvable(id, Known(), results)
      && BenchmarkRecords(records) == RecordsOf(id, Latest(results))
    }

    constructor (id: Ids, pools: map<string, Pool>, models: map<string, string>)
      requires StableIds(id)
      ensures Valid() && results == [] && records == []
    {
      this.id, this.pools, this.models, costs := id, pools, models, map[];
      results, records := [], [];
      modelRecords, hardwareNodes, runtimeProfiles := map[], map[], map[];
    }

    function Source(modelSource: string): string
      reads this`models
    {
      if modelSource in models then models[modelSource] else modelSource
    }

    function CurrentMarket(): Market
      reads this
    {
      Market(pools, costs)
    }

    // ---------------------------------------------- identity records: the first record stays, the sighting moves

    method RecordModel(name: string, source: string, runtime: string, now: nat) returns (modelId: string)
      requires Valid()
      modifies this`modelRecords
      ensures Valid() && Extends(old(Known()), Known())
      ensures modelId == ModelId(id, source) && modelId in modelRecords && modelRecords[modelId].source == source
      ensures Known() == SeenModel(old(Known()), modelId, ModelRecord(name, source, runtime, now, now))
    {
      modelId := ModelId(id, source);
      var record := ModelRecord(name, source, runtime, now, now);
      ModelSeen(id, Known(), record);
      if modelId in modelRecords {
        record := modelRecords[modelId].(lastSeen := now);
      }
      modelRecords := modelRecords[modelId := record];
    }

    method RecordHardware(h: HardwareRecord) returns (hardwareId: string)
      requires Valid()
      modifies this`hardwareNodes
      ensures Valid() && Extends(old(Known()), Known())
      ensures hardwareId == HardwareId(id, h)
      ensures hardwareId in hardwareNodes && Description(hardwareNodes[hardwareId]) == Description(h)
      ensures Known() == SeenHardware(old(Known()), hardwareId, h)
    {
      hardwareId := HardwareId(id, h);
      var record := h;
      if hardwareId in hardwareNodes {
        record := hardwareNodes[hardwareId].(lastSeen := h.lastSeen);
      }
      hardwareNodes := hardwareNodes[hardwareId := record];
    }

    method RecordRuntime(runtime: string, image: Option<string>, now: nat) returns (runtimeId: string)
      requires Valid() && Runnable(runtime)
      modifies this`runtimeProfiles
      ensures Valid() && Extends(old(Known()), Known())
      ensures runtimeId == RuntimeId(id, runtime, image)
      ensures runtimeId in runtimeProfiles && runtimeProfiles[runtimeId].name == runtime
      ensures Known() == SeenRuntime(old(Known()), runtimeId, RuntimeRecord(runtime, image, now))
    {
      runtimeId := RuntimeId(id, runtime, image);
      var record := RuntimeRecord(runtime, image, now);
      RuntimeSeen(id, Known(), record);
      if runtimeId in runtimeProfiles {
        record := runtimeProfiles[runtimeId].(lastSeen := now);
      }
      runtimeProfiles := runtimeProfiles[runtimeId := record];
    }

    // -------------------------------------------------------------- operations

    /** Upserts the index record of a result: the old record of its key or id goes, the new one is last. */
    method RecordCompatibility(r: Result)
      modifies this`records
      ensures records == Remaining(old(records), RecordId(id, r.key), r.key) + [RecordOf(id, r)]
    {
      var recordId := RecordId(id, r.key);
      var kept: seq<Record> := [];
      var i := 0;
      while i < |records|
        invariant 0 <= i <= |records| && records == old(records)
        invariant kept + Remaining(records[i..], recordId, r.key) == Remaining(records, recordId, r.key)
      {
        assert records[i..][1..] == records[i + 1..];
        ghost var head := if Replaces(recordId, r.key, records[i]) then [] else [records[i]];
        AppendAssociative(kept, head, Remaining(records[i + 1..], recordId, r.key));
        if !Replaces(recordId, r.key, records[i]) {
          kept := kept + [records[i]];
        } else {
          assert kept + [] == kept;
        }
        i := i + 1;
      }
      assert records[i..] == [] && kept + [] == kept;
      records := kept + [RecordOf(id, r)];
    }

    /** Appends a result to the log and upserts its index record. */
    method LogResult(r: Result)
      requires Valid() && Resolvable(id, Known(), r)
      requires forall x :: x in results ==> x.id != r.id
      modifies this`results, this`records
      ensures Valid() && results == old(results) + [r]
      ensures records == Remaining(old(records), RecordId(id, r.key), r.key) + [RecordOf(id, r)]
    {
      KeysColonFree(id, Known(), results);
      UpsertMirrors(id, records, results, r);
      OneMoreResolvable(id, Known(), results, r);
      results := results + [r];
      RecordCompatibility(r);
    }

    /** Records the model, hardware and runtime of a run and returns the key they form. */
    method Identify(name: string, source: string, runtime: string, pool: Pool, profile: string, o: Observation)
      returns (key: Key)
      requires Valid() && Runnable(runtime)
      modifies this`modelRecords, this`hardwareNodes, this`runtimeProfiles
      ensures Valid() && Extends(old(Known()), Known())
      ensures key == KeyOf(id, source, runtime, pool, profile, o) && ColonFree(key)
              && key.modelId == ModelId(id, source)
      ensures key.modelId in modelRecords && modelRecords[key.modelId].source == source
      ensures key.runtimeId in runtimeProfiles && runtimeProfiles[key.runtimeId].name == runtime
      ensures key.hardwareId in hardwareNodes
      ensures Description(hardwareNodes[key.hardwareId]) == Description(HardwareOf(pool, o))
    {
      var modelId := RecordModel(name, source, runtime, o.now);
      var hardwareId := RecordHardware(HardwareOf(pool, o));
      var runtimeId := RecordRuntime(runtime, o.image, o.now);
      key := Key(modelId, runtimeId, hardwareId, profile);
    }

    /** A run that started: the pool's status, the identity records, the log and the index are updated. */
    method CompleteRun(modelSource: string, runtime: string, compute: string, profile: string, o: Observation)
      returns (r: Result)
      requires Valid() && compute in pools && Runnable(runtime)
      requires forall x :: x in results ==> x.id != o.id
      modifies this`pools, this`modelRecords, this`hardwareNodes, this`runtimeProfiles, this`results, this`records
      ensures Valid() && results == old(results) + [r]
      ensures r == RunResult(id, Source(modelSource), runtime, compute, old(pools)[compute], profile, o)
      ensures records == Remaining(old(records), RecordId(id, r.key), r.key) + [RecordOf(id, r)]
      ensures pools == old(pools)[compute := old(pools)[compute].(status := o.inventoryStatus)]
    {
      var source, pool := Source(modelSource), pools[compute];
      pools := pools[compute := pool.(status := o.inventoryStatus)];
      assert Valid();
      var key := Identify(modelSource, source, runtime, pool, profile, o);
      RunResolvable(id, Known(), source, runtime, compute, o, key);
      r := ResultOf(key, source, runtime, compute, o);
      LogResult(r);
    }

    /** Why a run is refused, if it is; the first failing check decides. */
    function Refusal(runtime: string, compute: string, o: Observation): Option<RunOutcome>
      reads this
    {
      if compute !in pools then Some(UnknownCompute)
      else if pools[compute].kind != "docker" then Some(NotDocker)
      else if !Runnable(runtime) then Some(UnsupportedRuntime)
      else if !o.dockerAvailable then Some(DockerUnavailable)
      else if !o.started then Some(StartFailed)
      else None
    }

    /** A run goes ahead exactly on a known Docker pool with a supported runtime, Docker there and a server starting. */
    lemma RefusalExact(runtime: string, compute: string, o: Observation)
      ensures var refused := Refusal(runtime, compute, o);
              && (refused.None? <==> compute in pools && pools[compute].kind == "docker"
                                     && (runtime == "llama.cpp" || runtime == "vllm") && o.dockerAvailable && o.started)
              && (refused == Some(UnknownCompute) <==> compute !in pools)
              && (refused == Some(NotDocker) <==> compute in pools && pools[compute].kind != "docker")
              && (refused == Some(StartFailed) ==> o.dockerAvailable && !o.started)
              && (refused == Some(DockerUnavailable) ==> !o.dockerAvailable)
    {
    }

    /** Runs one benchmark: a refused run changes nothing, any other run is logged and indexed. */
    method RunBenchmark(modelSource: string, runtime: string, compute: string, profile: string, o: Observation)
      returns (outcome: RunOutcome)
      requires Valid()
      requires forall r :: r in results ==> r.id != o.id
      modifies this
      ensures Valid() && models == old(models) && costs == old(costs)
      ensures outcome.Logged? <==> old(Refusal(runtime, compute, o)).None?
      ensures !outcome.Logged? ==>
                && Some(outcome) == old(Refusal(runtime, compute, o))
                && results == old(results) && records == old(records) && pools == old(pools)
                && modelRecords == old(modelRecords) && hardwareNodes == old(hardwareNodes)
                && runtimeProfiles == old(runtimeProfiles)
      ensures outcome.Logged? ==>
                && results == old(results) + [outcome.result]
                && outcome.result == RunResult(id, old(Source(modelSource)), runtime, compute, old(pools)[compute],
                                               profile, o)
                && (outcome.result.success <==> o.measured.Some?)
                && outcome.result.ttftMs == (if o.measured.Some? then o.measured.value.0 else 0)
                && outcome.result.tokensPerSecond == (if o.measured.Some? then o.measured.value.1 else 0.0)
                && outcome.result.id == o.id && outcome.result.compute == compute && outcome.result.runtime == runtime
                && records == Remaining(old(records), RecordId(id, outcome.result.key), outcome.result.key)
                              + [RecordOf(id, outcome.result)]
                && pools == old(pools)[compute := old(pools)[compute].(status := o.inventoryStatus)]
    {
      var refused := Refusal(runtime, compute, o);
      if refused.Some? {
        return refused.value;
      }
      var r := CompleteRun(modelSource, runtime, compute, profile, o);
      return Logged(r);
    }

    /**
     * Certifying a pool rewrites its certification records, one for each runtime, and sets its status; the local
     * pool is created first. It fails once a benchmark record, which names no pool, is indexed.
     */
    method VerifyPool(name: string, runtimes: seq<string>, status: string) returns (ok: bool)
      requires Valid()
      modifies this`pools, this`records
      ensures Valid()
      ensures ok <==> (name in old(pools) || name == LOCAL) && results == []
      ensures pools == if ok then CertifiedPools(old(pools), name, status) else old(pools)
      ensures records == if ok then WithoutPool(old(records), name) + Certifications(name, runtimes, status)
                         else old(records)
    {
      var known := if name == LOCAL then WithLocal(pools) else pools;
      if name !in known {
        return false;
      }
      BenchmarksOfEmptyLog(records, results, id);
      if BenchmarkRecords(records) != [] {
        return false;
      }
      CertificationsOnly(records, name, Certifications(name, runtimes, status));
      records := WithoutPool(records, name) + Certifications(name, runtimes, status);
      pools := known[name := known[name].(status := status)];
      return true;
    }

    method SetCost(compute: string, value: real) returns (ok: bool)
      requires Valid()
      modifies this`costs
      ensures Valid()
      ensures ok <==> compute in pools
      ensures costs == if ok then old(costs)[pools[compute].provider + ":" + compute := value] else old(costs)
    {
      if compute !in pools {
        return false;
      }
      costs := costs[pools[compute].provider + ":" + compute := value];
      return true;
    }

    /** Reading the records gives the candidates that the log gives. */
    lemma IndexGivesLog(market: Market, q: Request)
      requires Valid()
      ensures FromRecords(market, q, results, runtimeProfiles, records) == CandidatesOf(market, q, Latest(results))
    {
      OnlyBenchmarksMatter(market, q, results, runtimeProfiles, records);
      LatestDistinct(results);
      KeysColonFree(id, Known(), results);
      IndexFindsLog(id, market, q, results, runtimeProfiles, Latest(results));
    }

    /** The candidates of the index records, in their order. */
    method WalkIndex(market: Market, q: Request) returns (candidates: seq<Candidate>)
      ensures candidates == FromRecords(market, q, results, runtimeProfiles, records)
    {
      candidates := [];
      var i := 0;
      while i < |records|
        invariant 0 <= i <= |records|
        invariant candidates == FromRecords(market, q, results, runtimeProfiles, records[..i])
      {
        FromRecordsNext(market, q, results, runtimeProfiles, records, i);
        candidates := candidates + FromRecord(market, q, results, runtimeProfiles, records[i]);
        i := i + 1;
      }
      assert records[..i] == records;
    }

    /** Ranks placements by walking the index; the answer is the ranking of a direct scan of the log. */
    method RankPlacements(source: string, strategy: string, sla: string, maxCost: Option<real>)
      returns (ranked: seq<Candidate>)
      requires Valid()
      ensures ranked == RankedLog(CurrentMarket(), Request(ModelId(id, source), strategy, sla, maxCost), results)
    {
      var q := Request(ModelId(id, source), strategy, sla, maxCost);
      var candidates := WalkIndex(CurrentMarket(), q);
      IndexGivesLog(CurrentMarket(), q);
      ranked := StableSort(candidates, ByScore());
    }
  }

  lemma RunnableNames(a: string, x: string, b: string, y: string)
    requires Runnable(a) && Runnable(b) && a + ":" + x == b + ":" + y
    ensures a == b
  {
    ColonSplit(a, x, b, y);
  }

  const LOCAL := "local"

  const LOCAL_HARDWARE := "Local CPU/Metal"

  /** The local pool is created when it is missing; of an existing one only a missing hardware text is filled in. */
  function WithLocal(pools: map<string, Pool>): (more: map<string, Pool>)
    ensures LOCAL in more && forall k :: k in pools ==> k in more && (k != LOCAL ==> more[k] == pools[k])
    ensures forall k :: k in more ==> k in pools || k == LOCAL
  {
    if LOCAL in pools then pools[LOCAL := pools[LOCAL].(hardware := Some(Or(pools[LOCAL].hardware, LOCAL_HARDWARE)))]
    else pools[LOCAL := Pool("local", "local", "registered", Some(LOCAL_HARDWARE), None)]
  }

  /** Verifying the local pool on a fresh state makes it; one that is there keeps all but a missing hardware text. */
  lemma LocalPoolMade(pools: map<string, Pool>)
    ensures "local" !in pools ==>
              WithLocal(pools)["local"] == Pool("local", "local", "registered", Some("Local CPU/Metal"), None)
    ensures "local" in pools ==>
              var was, now := pools["local"], WithLocal(pools)["local"];
              && now.kind == was.kind && now.provider == was.provider && now.status == was.status
              && now.estimatedCost == was.estimatedCost
              && now.hardware == if was.hardware.Some? then was.hardware else Some("Local CPU/Metal")
  {
  }

  /** The pools after certifying one of them. */
  function CertifiedPools(pools: map<string, Pool>, name: string, status: string): (more: map<string, Pool>)
    requires name in pools || name == LOCAL
    ensures name in more && more[name].status == status
    ensures forall k :: k in pools && k != name ==> k in more && more[k] == pools[k]
    ensures forall k :: k in more ==> k in pools || k == name
  {
    var known := if name == LOCAL then WithLocal(pools) else pools;
    known[name := known[name].(status := status)]
  }

  function Certifications(name: string, runtimes: seq<string>, status: string): (added: seq<Record>)
    ensures |added| == |runtimes| && forall r :: r in added ==> r.Certified?
    ensures forall i :: 0 <= i < |runtimes| ==> added[i] == Certified(name, runtimes[i], status)
  {
    if runtimes == [] then [] else [Certified(name, runtimes[0], status)] + Certifications(name, runtimes[1..], status)
  }

  function WithoutPool(records: seq<Record>, name: string): (kept: seq<Record>)
    ensures forall r :: r in kept <==> r in records && !(r.Certified? && r.pool == name)
  {
    if records == [] then []
    else (if records[0].Certified? && records[0].pool == name then [] else [records[0]])
         + WithoutPool(records[1..], name)
  }

  lemma BenchmarksOfEmptyLog(records: seq<Record>, log: seq<Result>, id: Ids)
    requires BenchmarkRecords(records) == RecordsOf(id, Latest(log))
    ensures BenchmarkRecords(records) == [] <==> log == []
  {
    if log != [] {
      LatestSnoc(log[..|log| - 1], log[|log| - 1]);
      assert log == log[..|log| - 1] + [log[|log| - 1]];
      assert |Latest(log)| > 0;
      assert |BenchmarkRecords(records)| > 0;
    }
  }

  /** Without benchmark records, rewriting certifications leaves none. */
  lemma {:induction false} CertificationsOnly(records: seq<Record>, name: string, added: seq<Record>)
    requires BenchmarkRecords(records) == [] && forall r :: r in added ==> r.Certified?
    ensures BenchmarkRecords(WithoutPool(records, name) + added) == []
  {
    if records == [] {
      CertifiedHasNoBenchmarks(added);
      assert [] + added == added;
    } else {
      CertificationsOnly(records[1..], name, added);
      var head := if records[0].Certified? && records[0].pool == name then [] else [records[0]];
      AppendAssociative(head, WithoutPool(records[1..], name), added);
      BenchmarkRecordsAppend(head, WithoutPool(records[1..], name) + added);
      assert [records[0]][1..] == [];
    }
  }

  lemma {:induction false} CertifiedHasNoBenchmarks(added: seq<Record>)
    requires forall r :: r in added ==> r.Certified?
    ensures BenchmarkRecords(added) == []
  {
    if added != [] {
      assert added[0] in added;
      assert forall r :: r in added[1..] ==> r in added;
      CertifiedHasNoBenchmarks(added[1..]);
    }
  }
}
