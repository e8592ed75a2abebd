/** The benchmark log, the compatibility index kept beside it, and the placement ranking that reads the index. */
module Compatibility {
  import opened Text

  // ---------------------------------------------------------------- identifiers

  /** The prefixes of identifiers: model, rt, hw and compat. */
  datatype Prefix = OfModel | OfRuntime | OfHardware | OfRecord

  /** How identifiers are made from a prefix and a text; `origin` says that one tells what it was made from. */
  datatype Ids = Ids(make: (Prefix, string) -> string, origin: string -> (Prefix, string))

  /** No two inputs share an identifier, and none contains a colon. */
  ghost predicate StableIds(id: Ids) {
    forall p, v :: ':' !in id.make(p, v) && id.origin(id.make(p, v)) == (p, v)
  }

  // An escape that avoids colons: `;` stands for a colon when `c` follows and for itself when `s` follows.

  function EscapedChar(c: char): (e: string)
    ensures ':' !in e
  {
    if c == ':' then [';', 'c'] else if c == ';' then [';', 's'] else [c]
  }

  function Escaped(text: string): (e: string)
    ensures ':' !in e
  {
    if text == "" then "" else EscapedChar(text[0]) + Escaped(text[1..])
  }

  function Unescaped(e: string): string {
    if e == "" then ""
    else if e[0] == ';' && |e| > 1 then [if e[1] == 'c' then ':' else ';'] + Unescaped(e[2..])
    else [e[0]] + Unescaped(e[1..])
  }

  function Mark(p: Prefix): char {
    match p
    case OfModel => 'm'
    case OfRuntime => 'r'
    case OfHardware => 'h'
    case OfRecord => 'c'
  }

  function MakeId(p: Prefix, text: string): string {
    [Mark(p)] + Escaped(text)
  }

  function OriginOf(e: string): (Prefix, string) {
    if e == "" then (OfModel, "")
    else
      (if e[0] == 'm' then OfModel else if e[0] == 'r' then OfRuntime else if e[0] == 'h' then OfHardware else OfRecord,
       Unescaped(e[1..]))
  }

  lemma {:induction false} EscapeRoundTrip(text: string)
    ensures Unescaped(Escaped(text)) == text
  {
    if text != "" {
      EscapeRoundTrip(text[1..]);
    }
  }

  lemma MadeIdTells(p: Prefix, text: string)
    ensures ':' !in MakeId(p, text) && OriginOf(MakeId(p, text)) == (p, text)
  {
    EscapeRoundTrip(text);
    assert MakeId(p, text)[1..] == Escaped(text);
  }

  /** Injective identifiers without colons exist. */
  lemma StableIdsExist()
    ensures StableIds(Ids(MakeId, OriginOf))
  {
    var id := Ids(MakeId, OriginOf);
    forall p, v
      ensures ':' !in id.make(p, v) && id.origin(id.make(p, v)) == (p, v)
    {
      MadeIdTells(p, v);
    }
  }

  /** What an index entry is about. */
  datatype Key = Key(modelId: string, runtimeId: string, hardwareId: string, profile: string)

  function KeyText(k: Key): string {
    k.modelId + ":" + k.runtimeId + ":" + k.hardwareId + ":" + k.profile
  }

  predicate ColonFree(k: Key) {
    ':' !in k.modelId && ':' !in k.runtimeId && ':' !in k.hardwareId
  }

  /** The text of a key determines the key, whatever the profile contains. */
  lemma KeyTextInjective(j: Key, k: Key)
    requires ColonFree(j) && ColonFree(k) && KeyText(j) == KeyText(k)
    ensures j == k
  {
    var jr, kr := j.hardwareId + ":" + j.profile, k.hardwareId + ":" + k.profile;
    assert KeyText(j) == j.modelId + ":" + (j.runtimeId + ":" + jr);
    assert KeyText(k) == k.modelId + ":" + (k.runtimeId + ":" + kr);
    ColonSplit(j.modelId, j.runtimeId + ":" + jr, k.modelId, k.runtimeId + ":" + kr);
    ColonSplit(j.runtimeId, jr, k.runtimeId, kr);
    ColonSplit(j.hardwareId, j.profile, k.hardwareId, k.profile);
  }

  // ---------------------------------------------------------------- the log

  datatype Result = Result(
    id: string, key: Key, source: string, runtime: string, compute: string, success: bool,
    ttftMs: int, tokensPerSecond: real)

  predicate HasKey(log: seq<Result>, k: Key) {
    exists i :: 0 <= i < |log| && log[i].key == k
  }

  /** The last result of every key, in log order. */
  function Latest(log: seq<Result>): seq<Result> {
    if log == [] then []
    else (if HasKey(log[1..], log[0].key) then [] else [log[0]]) + Latest(log[1..])
  }

  function DropKey(rs: seq<Result>, k: Key): seq<Result> {
    if rs == [] then [] else (if rs[0].key == k then [] else [rs[0]]) + DropKey(rs[1..], k)
  }

  /** No result after position `i` has the key of the one there. */
  predicate LastOfKey(log: seq<Result>, i: nat)
    requires i < |log|
  {
    !HasKey(log[i + 1..], log[i].key)
  }

  /** `r` is logged somewhere without a later result of its key. */
  ghost predicate Stands(log: seq<Result>, r: Result) {
    exists i: nat :: i < |log| && log[i] == r && LastOfKey(log, i)
  }

  /** A result is kept exactly when it is logged without a later result of its key. */
  lemma {:induction false} LatestExact(log: seq<Result>, r: Result)
    ensures r in Latest(log) <==> exists i: nat :: i < |log| && log[i] == r && LastOfKey(log, i)
  {
    if log != [] {
      LatestExact(log[1..], r);
      assert r in Latest(log[1..]) <==> Stands(log[1..], r);
    }
    assert Stands(log, r) <==> r in Latest(log);
  }

  lemma EarlierReplaced(log: seq<Result>, s: Result, i: nat)
    requires i < |log| && log[i].key == s.key
    ensures !LastOfKey(log + [s], i)
  {
    assert (log + [s])[i + 1..][|log| - i - 1] == s;
  }

  /** The newest result takes the place of every earlier one of its key. */
  lemma NewestTakesPlace(log: seq<Result>, s: Result)
    ensures forall i: nat :: i < |log| && log[i].key == s.key ==> !LastOfKey(log + [s], i)
  {
    forall i: nat | i < |log| && log[i].key == s.key
      ensures !LastOfKey(log + [s], i)
    {
      EarlierReplaced(log, s, i);
    }
  }

  predicate DistinctKeys(rs: seq<Result>) {
    forall i, j :: 0 <= i < j < |rs| ==> rs[i].key != rs[j].key
  }

  lemma {:induction false} LatestInside(log: seq<Result>, r: Result)
    requires r in Latest(log)
    ensures r in log && HasKey(log, r.key)
  {
    if HasKey(log[1..], log[0].key) || r != log[0] {
      assert r in Latest(log[1..]);
      LatestInside(log[1..], r);
      var i :| 0 <= i < |log[1..]| && log[1..][i] == r;
      assert log[i + 1] == r;
    }
  }

  lemma {:induction false} LatestDistinct(log: seq<Result>)
    ensures DistinctKeys(Latest(log))
    ensures forall r :: r in Latest(log) ==> r in log
  {
    forall r | r in Latest(log)
      ensures r in log
    {
      LatestInside(log, r);
    }
    if log != [] {
      LatestDistinct(log[1..]);
      var rest := Latest(log[1..]);
      forall i | 0 <= i < |rest|
        ensures HasKey(log[1..], rest[i].key)
      {
        LatestInside(log[1..], rest[i]);
      }
    }
  }

  lemma HasKeySnoc(log: seq<Result>, r: Result, k: Key)
    ensures HasKey(log + [r], k) <==> HasKey(log, k) || r.key == k
  {
    if HasKey(log, k) {
      var i :| 0 <= i < |log| && log[i].key == k;
      assert (log + [r])[i].key == k;
    }
    assert (log + [r])[|log|] == r;
  }

  /** Logging a result replaces the kept result of its key and puts the new one last. */
  lemma {:induction false} LatestSnoc(log: seq<Result>, r: Result)
    ensures Latest(log + [r]) == DropKey(Latest(log), r.key) + [r]
  {
    if log == [] {
      assert log + [r] == [r] && [r][1..] == [];
      assert Latest([r]) == [r];
    } else {
      var h, t := log[0], log[1..];
      assert (log + [r])[1..] == t + [r] && (log + [r])[0] == h;
      LatestSnoc(t, r);
      HasKeySnoc(t, r, h.key);
      var head := if HasKey(t + [r], h.key) then [] else [h];
      assert Latest(log + [r]) == head + (DropKey(Latest(t), r.key) + [r]);
      AppendAssociative(head, DropKey(Latest(t), r.key), [r]);
      if HasKey(t, h.key) {
        assert Latest(log) == Latest(t);
      } else {
        assert Latest(log) == [h] + Latest(t);
        assert DropKey(Latest(log), r.key) == (if h.key == r.key then [] else [h]) + DropKey(Latest(t), r.key);
      }
    }
  }

  // ---------------------------------------------------------------- the index

  /** Index records: written by a benchmark, or by certifying a pool (no id, no source). */
  datatype Record =
    | Benchmarked(id: string, key: Key, verified: bool, resultId: string, success: bool, ttftMs: int,
                  tokensPerSecond: real)
    | Certified(pool: string, runtime: string, status: string)

  function RecordId(id: Ids, k: Key): string {
    id.make(OfRecord, KeyText(k))
  }

  function RecordOf(id: Ids, r: Result): Record {
    Benchmarked(RecordId(id, r.key), r.key, r.success, r.id, r.success, r.ttftMs, r.tokensPerSecond)
  }

  /** A record repeats what its result says; it is verified exactly when the run succeeded. */
  lemma RecordTells(id: Ids, r: Result)
    ensures var b := RecordOf(id, r);
            && b.Benchmarked? && b.key == r.key && b.resultId == r.id
            && (b.verified <==> r.success) && (b.success <==> r.success)
            && b.ttftMs == r.ttftMs && b.tokensPerSecond == r.tokensPerSecond
  {
  }

  function RecordsOf(id: Ids, rs: seq<Result>): seq<Record> {
    seq(|rs|, i requires 0 <= i < |rs| => RecordOf(id, rs[i]))
  }

  function BenchmarkRecords(records: seq<Record>): seq<Record> {
    if records == [] then []
    else (if records[0].Benchmarked? then [records[0]] else []) + BenchmarkRecords(records[1..])
  }

  /** The records a new one replaces: the same id, or a benchmark record of the same key. */
  predicate Replaces(recordId: string, k: Key, existing: Record) {
    existing.Benchmarked? && (existing.id == recordId || existing.key == k)
  }

  function Remaining(records: seq<Record>, recordId: string, k: Key): seq<Record> {
    if records == [] then []
    else (if Replaces(recordId, k, records[0]) then [] else [records[0]]) + Remaining(records[1..], recordId, k)
  }

  lemma {:induction false} BenchmarkRecordsAppend(a: seq<Record>, b: seq<Record>)
    ensures BenchmarkRecords(a + b) == BenchmarkRecords(a) + BenchmarkRecords(b)
  {
    if a == [] {
      assert a + b == b;
    } else {
      BenchmarkRecordsAppend(a[1..], b);
      assert (a + b)[1..] == a[1..] + b && (a + b)[0] == a[0];
      AppendAssociative(if a[0].Benchmarked? then [a[0]] else [], BenchmarkRecords(a[1..]), BenchmarkRecords(b));
    }
  }

  lemma {:induction false} RemainingAppend(a: seq<Record>, b: seq<Record>, recordId: string, k: Key)
    ensures Remaining(a + b, recordId, k) == Remaining(a, recordId, k) + Remaining(b, recordId, k)
  {
    if a == [] {
      assert a + b == b;
    } else {
      RemainingAppend(a[1..], b, recordId, k);
      assert (a + b)[1..] == a[1..] + b && (a + b)[0] == a[0];
      AppendAssociative(if Replaces(recordId, k, a[0]) then [] else [a[0]], Remaining(a[1..], recordId, k),
                        Remaining(b, recordId, k));
    }
  }

  /** Replacing commutes with looking at benchmark records only. */
  lemma {:induction false} RemainingBenchmarks(records: seq<Record>, recordId: string, k: Key)
    ensures BenchmarkRecords(Remaining(records, recordId, k)) == Remaining(BenchmarkRecords(records), recordId, k)
  {
    if records != [] {
      RemainingBenchmarks(records[1..], recordId, k);
      var kept := if Replaces(recordId, k, records[0]) then [] else [records[0]];
      BenchmarkRecordsAppend(kept, Remaining(records[1..], recordId, k));
      var first := if records[0].Benchmarked? then [records[0]] else [];
      RemainingAppend(first, BenchmarkRecords(records[1..]), recordId, k);
      assert [records[0]][1..] == [];
      assert BenchmarkRecords(kept) == Remaining(first, recordId, k);
    }
  }

  lemma SameRecordId(id: Ids, j: Key, k: Key)
    requires StableIds(id) && ColonFree(j) && ColonFree(k)
    ensures RecordId(id, j) == RecordId(id, k) <==> j == k
  {
    if RecordId(id, j) == RecordId(id, k) {
      assert id.origin(RecordId(id, j)) == (OfRecord, KeyText(j))
             && id.origin(RecordId(id, k)) == (OfRecord, KeyText(k));
      KeyTextInjective(j, k);
    }
  }

  lemma RecordsOfAppend(id: Ids, a: seq<Result>, b: seq<Result>)
    ensures RecordsOf(id, a + b) == RecordsOf(id, a) + RecordsOf(id, b)
  {
  }

  /** On records of results, replacing by id or key is dropping the key. */
  lemma {:induction false} RemainingRecords(id: Ids, rs: seq<Result>, k: Key)
    requires StableIds(id) && ColonFree(k)
    requires forall r :: r in rs ==> ColonFree(r.key)
    ensures Remaining(RecordsOf(id, rs), RecordId(id, k), k) == RecordsOf(id, DropKey(rs, k))
  {
    if rs != [] {
      assert forall r :: r in rs[1..] ==> r in rs;
      RemainingRecords(id, rs[1..], k);
      assert RecordsOf(id, rs)[1..] == RecordsOf(id, rs[1..]);
      SameRecordId(id, rs[0].key, k);
      RecordsOfAppend(id, [rs[0]], DropKey(rs[1..], k));
      assert RecordsOf(id, [rs[0]]) == [RecordOf(id, rs[0])];
    }
  }

  /** The index after an upsert mirrors the log after appending. */
  lemma UpsertMirrors(id: Ids, records: seq<Record>, log: seq<Result>, r: Result)
    requires StableIds(id) && ColonFree(r.key)
    requires forall x :: x in log ==> ColonFree(x.key)
    requires BenchmarkRecords(records) == RecordsOf(id, Latest(log))
    ensures BenchmarkRecords(Remaining(records, RecordId(id, r.key), r.key) + [RecordOf(id, r)]) ==
            RecordsOf(id, Latest(log + [r]))
  {
    LatestDistinct(log);
    RemainingBenchmarks(records, RecordId(id, r.key), r.key);
    RemainingRecords(id, Latest(log), r.key);
    BenchmarkRecordsAppend(Remaining(records, RecordId(id, r.key), r.key), [RecordOf(id, r)]);
    assert [RecordOf(id, r)][1..] == [];
    assert BenchmarkRecords([RecordOf(id, r)]) == [RecordOf(id, r)];
    LatestSnoc(log, r);
    var kept := DropKey(Latest(log), r.key);
    assert RecordsOf(id, kept + [r]) == RecordsOf(id, kept) + [RecordOf(id, r)];
  }

  /** A mirroring index names every key once, and for each key the last result logged for it. */
  lemma {:induction false} IndexExact(id: Ids, records: seq<Record>, log: seq<Result>)
    requires BenchmarkRecords(records) == RecordsOf(id, Latest(log))
    ensures var index := BenchmarkRecords(records);
            && (forall i, j :: 0 <= i < j < |index| && index[i].Benchmarked? && index[j].Benchmarked? ==>
                  index[i].key != index[j].key)
            && (forall b :: b in index <==>
                  exists i: nat :: i < |log| && LastOfKey(log, i) && b == RecordOf(id, log[i]))
  {
    LatestDistinct(log);
    var latest, index := Latest(log), BenchmarkRecords(records);
    forall b | b in index
      ensures exists i: nat :: i < |log| && LastOfKey(log, i) && b == RecordOf(id, log[i])
    {
      var k :| 0 <= k < |index| && index[k] == b;
      LatestExact(log, latest[k]);
    }
    forall i: nat | i < |log| && LastOfKey(log, i)
      ensures RecordOf(id, log[i]) in index
    {
      LatestExact(log, log[i]);
      var k :| 0 <= k < |latest| && latest[k] == log[i];
      assert index[k] == RecordOf(id, log[i]);
    }
  }
}
