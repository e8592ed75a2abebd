/** Which benchmark runs share a key, and so take each other's place in the index and the ranking. */
module RunKeys {
  import opened Text
  import opened Compatibility
  import opened Registry

  /** A completed run: what was asked, the pool it ran on and what was seen there. */
  datatype Run = Run(source: string, runtime: string, compute: string, pool: Pool, profile: string, seen: Observation)
  {
    function Hardware(): HardwareRecord {
      HardwareOf(pool, seen)
    }

    function Image(): string {
      Or(seen.image, "local")
    }

    function KeyIn(id: Ids): Key {
      KeyOf(id, source, runtime, pool, profile, seen)
    }

    function LoggedIn(id: Ids): Result {
      RunResult(id, source, runtime, compute, pool, profile, seen)
    }
  }

  // ---------------------------------------------------------------- hardware descriptions

  /** What a hardware description says before the memory. */
  function Device(h: HardwareRecord): string {
    h.provider + ":" + h.vendor + ":" + h.accelerator
  }

  lemma {:induction false} NatTextInjective(a: nat, b: nat)
    requires NatText(a) == NatText(b)
    ensures a == b
  {
    ParseNatText(a);
    ParseNatText(b);
  }

  lemma IntTextInjective(a: int, b: int)
    requires IntText(a) == IntText(b)
    ensures a == b
  {
    assert a >= 0 ==> IsDigit(IntText(a)[0]);
    assert b >= 0 ==> IsDigit(IntText(b)[0]);
    if a < 0 {
      assert IntText(a)[1..] == NatText(-a) && IntText(b)[1..] == NatText(-b);
      NatTextInjective(-a, -b);
    } else {
      NatTextInjective(a, b);
    }
  }

  /** A text without colons can be cut off at the last colon. */
  lemma LastColonSplit(a: string, x: string, b: string, y: string)
    requires ':' !in x && ':' !in y
    requires a + ":" + x == b + ":" + y
    ensures a == b && x == y
  {
    var s := a + ":" + x;
    assert s[|a|] == ':' && s == b + ":" + y;
    assert (b + ":" + y)[|b|] == ':';
    assert forall i :: |a| < i < |s| ==> s[i] == x[i - |a| - 1] && s[i] in x;
    assert forall i :: |b| < i < |s| ==> s[i] == y[i - |b| - 1] && s[i] in y;
    assert |a| == |b|;
    assert a == s[..|a|] == b;
    assert x == s[|a| + 1..] == y;
  }

  /** Two descriptions are one text exactly when device and memory agree. */
  lemma DescriptionExact(g: HardwareRecord, h: HardwareRecord)
    ensures Description(g) == Description(h) <==> Device(g) == Device(h) && g.memoryGb == h.memoryGb
  {
    assert Description(g) == Device(g) + ":" + IntText(g.memoryGb);
    assert Description(h) == Device(h) + ":" + IntText(h.memoryGb);
    if Description(g) == Description(h) {
      LastColonSplit(Device(g), IntText(g.memoryGb), Device(h), IntText(h.memoryGb));
      IntTextInjective(g.memoryGb, h.memoryGb);
    }
  }

  predicate PlainParts(h: HardwareRecord) {
    ':' !in h.provider && ':' !in h.vendor
  }

  /** Without colons in provider and vendor, a description tells its four parts. */
  lemma DescriptionTells(g: HardwareRecord, h: HardwareRecord)
    requires PlainParts(g) && PlainParts(h)
    ensures Description(g) == Description(h) <==> g.(lastSeen := 0) == h.(lastSeen := 0)
  {
    DescriptionExact(g, h);
    assert Device(g) == g.provider + ":" + (g.vendor + ":" + g.accelerator);
    assert Device(h) == h.provider + ":" + (h.vendor + ":" + h.accelerator);
    if Device(g) == Device(h) {
      ColonSplit(g.provider, g.vendor + ":" + g.accelerator, h.provider, h.vendor + ":" + h.accelerator);
      ColonSplit(g.vendor, g.accelerator, h.vendor, h.accelerator);
    }
  }

  /** With colons, different hardware can have one description. */
  lemma ColonsMerge(provider: string, vendor: string, accelerator: string, memoryGb: int, now: nat)
    ensures var g := HardwareRecord(provider, vendor + ":x", accelerator, memoryGb, now);
            var h := HardwareRecord(provider, vendor, "x:" + accelerator, memoryGb, now);
            g != h && Description(g) == Description(h)
  {
    var g := HardwareRecord(provider, vendor + ":x", accelerator, memoryGb, now);
    var h := HardwareRecord(provider, vendor, "x:" + accelerator, memoryGb, now);
    assert |g.vendor| != |h.vendor|;
    assert Device(g) == provider + ":" + vendor + ":x:" + accelerator == Device(h);
    DescriptionExact(g, h);
  }

  // ---------------------------------------------------------------- when two runs share a key

  /** What a key is made of; the pool and its name are no part of it beyond the hardware described. */
  predicate SameSubject(a: Run, b: Run) {
    && a.source == b.source && a.profile == b.profile
    && a.runtime == b.runtime && a.Image() == b.Image()
    && Description(a.Hardware()) == Description(b.Hardware())
  }

  lemma SameRuntimeText(a: Run, b: Run)
    requires Runnable(a.runtime) && Runnable(b.runtime)
    ensures RuntimeText(a.runtime, a.seen.image) == RuntimeText(b.runtime, b.seen.image) <==>
            a.runtime == b.runtime && a.Image() == b.Image()
  {
    if RuntimeText(a.runtime, a.seen.image) == RuntimeText(b.runtime, b.seen.image) {
      ColonSplit(a.runtime, a.Image(), b.runtime, b.Image());
    }
  }

  /** Two runs share a key exactly when source, profile, runtime, image and hardware description agree. */
  lemma ShareKeyExactly(id: Ids, a: Run, b: Run)
    requires StableIds(id) && Runnable(a.runtime) && Runnable(b.runtime)
    ensures a.KeyIn(id) == b.KeyIn(id) <==> SameSubject(a, b)
  {
    SameRuntimeText(a, b);
    assert id.origin(ModelId(id, a.source)) == (OfModel, a.source);
    assert id.origin(ModelId(id, b.source)) == (OfModel, b.source);
    assert id.origin(RuntimeId(id, a.runtime, a.seen.image)) == (OfRuntime, RuntimeText(a.runtime, a.seen.image));
    assert id.origin(RuntimeId(id, b.runtime, b.seen.image)) == (OfRuntime, RuntimeText(b.runtime, b.seen.image));
    assert id.origin(HardwareId(id, a.Hardware())) == (OfHardware, Description(a.Hardware()));
    assert id.origin(HardwareId(id, b.Hardware())) == (OfHardware, Description(b.Hardware()));
  }

  lemma LastAfterAppend(log: seq<Result>, s: Result, i: nat)
    requires i < |log|
    ensures LastOfKey(log + [s], i) <==> LastOfKey(log, i) && log[i].key != s.key
  {
    var longer := log + [s];
    assert longer[i] == log[i];
    assert longer[i + 1..] == log[i + 1..] + [s];
    HasKeySnoc(log[i + 1..], s, log[i].key);
  }

  /** Only the last logged result stands for a key in the ranking. */
  lemma LastResultStands(m: Market, q: Request, log: seq<Result>, s: Result, c: Candidate)
    requires c in RankedLog(m, q, log + [s]) && c.key == s.key
    ensures c == CandidateOf(m, q, s)
  {
    var longer := log + [s];
    RankingExact(m, q, longer, c);
    NewestTakesPlace(log, s);
    var i: nat :| i < |longer| && LastOfKey(longer, i) && Eligible(m, q, longer[i])
        && c == CandidateOf(m, q, longer[i]);
    assert i == |log|;
  }

  /**
   * A later run takes the place of an earlier one exactly when they are about the same subject, whatever pools they
   * ran on; then the ranking shows the later run for their key.
   */
  lemma OtherPoolReplaces(id: Ids, m: Market, q: Request, log: seq<Result>, i: nat, a: Run, b: Run)
    requires StableIds(id) && Runnable(a.runtime) && Runnable(b.runtime)
    requires i < |log| && log[i] == a.LoggedIn(id) && LastOfKey(log, i)
    ensures LastOfKey(log + [b.LoggedIn(id)], i) <==> !SameSubject(a, b)
    ensures SameSubject(a, b) ==>
              forall c :: c in RankedLog(m, q, log + [b.LoggedIn(id)]) && c.key == a.KeyIn(id) ==>
                            c.resultId == b.seen.id && c.compute == b.compute
  {
    ShareKeyExactly(id, a, b);
    LastAfterAppend(log, b.LoggedIn(id), i);
    forall c | c in RankedLog(m, q, log + [b.LoggedIn(id)]) && c.key == b.KeyIn(id)
      ensures c.resultId == b.seen.id && c.compute == b.compute
    {
      LastResultStands(m, q, log, b.LoggedIn(id), c);
    }
  }

  /** The hardware record a logged run leads to describes the hardware of the run. */
  lemma HardwareOnRecord(id: Ids, known: Identities, log: seq<Result>, i: nat, a: Run)
    requires StableIds(id) && Named(id, known) && AllResolvable(id, known, log)
    requires i < |log| && log[i] == a.LoggedIn(id)
    ensures log[i].key.hardwareId in known.hardware
    ensures Description(known.hardware[log[i].key.hardwareId]) == Description(a.Hardware())
  {
    var k := log[i].key.hardwareId;
    assert Resolvable(id, known, log[i]);
    assert id.origin(HardwareId(id, known.hardware[k])) == (OfHardware, Description(known.hardware[k]));
    assert id.origin(HardwareId(id, a.Hardware())) == (OfHardware, Description(a.Hardware()));
  }

  /** What is taken for the hardware of a run: the first GPU seen, and where that is silent the pool's own text. */
  lemma HardwareDescribed(a: Run)
    ensures var h := a.Hardware();
            && h.provider == a.pool.provider && h.lastSeen == a.seen.now
            && (a.seen.gpu.None? ==>
                  && h.vendor == "cpu" && h.memoryGb == 0
                  && h.accelerator == if a.pool.hardware.Some? then a.pool.hardware.value else "Docker local")
            && (a.seen.gpu.Some? ==>
                  var gpu := a.seen.gpu.value;
                  && h.vendor == (if gpu.vendor.Some? then gpu.vendor.value else "cpu")
                  && h.memoryGb == (if gpu.memoryGb.Some? then gpu.memoryGb.value else 0)
                  && h.accelerator == if gpu.name.Some? then gpu.name.value
                                      else if a.pool.hardware.Some? then a.pool.hardware.value else "Docker local")
  {
  }

  /** An image that is not reported counts as the image called local. */
  lemma MissingImageIsLocal(a: Run)
    ensures a.Image() == if a.seen.image.Some? then a.seen.image.value else "local"
    ensures RuntimeText(a.runtime, a.seen.image) == a.runtime + ":" + a.Image()
  {
  }
}
