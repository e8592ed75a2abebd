/** The four documents of a generated Kubernetes manifest. */
module Kubernetes {
  import opened Text
  import opened Yaml
  import opened YamlRoundTrip

  // ---------------------------------------------------------------- resource names

  predicate NameChar(c: char) {
    'a' <= c <= 'z' || '0' <= c <= '9' || c == '-'
  }

  function DotsToDashes(s: string): string {
    if s == "" then "" else [if s[0] == '.' then '-' else s[0]] + DotsToDashes(s[1..])
  }

  /** Every maximal run of other characters becomes one dash. */
  function CollapseRuns(s: string, inRun: bool): (r: string)
    ensures forall c :: c in r ==> NameChar(c)
  {
    if s == "" then ""
    else if NameChar(s[0]) then [s[0]] + CollapseRuns(s[1..], false)
    else if inRun then CollapseRuns(s[1..], true)
    else "-" + CollapseRuns(s[1..], true)
  }

  function StripLeft(s: string): (r: string)
    ensures r == "" || r[0] != '-'
    ensures exists n: nat :: n <= |s| && r == s[n..]
  {
    if s != "" && s[0] == '-' then
      var r := StripLeft(s[1..]);
      assert forall n: nat :: n <= |s| - 1 ==> s[1..][n..] == s[n + 1..];
      r
    else
      assert s == s[0..];
      s
  }

  function StripRight(s: string): (r: string)
    ensures r == "" || r[|r| - 1] != '-'
    ensures r <= s
  {
    if s != "" && s[|s| - 1] == '-' then StripRight(s[..|s| - 1]) else s
  }

  /** A resource name; `lowered` is the requested name in lower case. */
  function K8sName(lowered: string): string {
    var name := StripRight(StripLeft(CollapseRuns(DotsToDashes(lowered), false)));
    if name == "" then "anygpu" else name
  }

  predicate IsResourceName(name: string) {
    && name != ""
    && (forall c :: c in name ==> NameChar(c))
    && name[0] != '-'
    && name[|name| - 1] != '-'
  }

  lemma K8sNameIsResourceName(lowered: string)
    ensures IsResourceName(K8sName(lowered))
  {
    var collapsed := CollapseRuns(DotsToDashes(lowered), false);
    var left := StripLeft(collapsed);
    StrippedChars(collapsed);
    var name := StripRight(left);
    if name == "" {
      assert K8sName(lowered) == "anygpu";
    } else {
      assert name[0] == left[0];
      assert forall c :: c in name ==> c in left;
    }
  }

  lemma StrippedChars(s: string)
    requires forall c :: c in s ==> NameChar(c)
    ensures forall c :: c in StripLeft(s) ==> NameChar(c)
  {
    var n: nat :| n <= |s| && StripLeft(s) == s[n..];
    assert forall c :: c in s[n..] ==> c in s;
  }

  /** A resource name is its own name. */
  lemma K8sNameIdempotent(name: string)
    requires IsResourceName(name)
    ensures K8sName(name) == name
  {
    NameCharsKept(name);
    NothingToStrip(name);
  }

  lemma NothingToStrip(name: string)
    requires name != "" && name[0] != '-' && name[|name| - 1] != '-'
    ensures StripLeft(name) == name && StripRight(name) == name
  {
  }

  lemma {:induction false} NameCharsKept(s: string)
    requires forall c :: c in s ==> NameChar(c)
    ensures DotsToDashes(s) == s && CollapseRuns(s, false) == s
  {
    if s != "" {
      assert s[0] in s;
      assert forall c :: c in s[1..] ==> c in s;
      NameCharsKept(s[1..]);
      assert s == [s[0]] + s[1..];
    }
  }

  predicate Alnum(c: char) {
    'a' <= c <= 'z' || '0' <= c <= '9'
  }

  function Alnums(s: string): string {
    if s == "" then "" else (if Alnum(s[0]) then [s[0]] else []) + Alnums(s[1..])
  }

  lemma {:induction false} AlnumsAppend(a: string, b: string)
    ensures Alnums(a + b) == Alnums(a) + Alnums(b)
  {
    if a == "" {
      assert a + b == b;
    } else {
      AlnumsAppend(a[1..], b);
      assert (a + b)[1..] == a[1..] + b && (a + b)[0] == a[0];
    }
  }

  lemma {:induction false} AlnumsOfDashes(s: string)
    ensures Alnums(DotsToDashes(s)) == Alnums(s)
  {
    if s != "" {
      AlnumsOfDashes(s[1..]);
      var head := if s[0] == '.' then '-' else s[0];
      assert DotsToDashes(s)[1..] == DotsToDashes(s[1..]) && DotsToDashes(s)[0] == head;
    }
  }

  lemma {:induction false} AlnumsOfRuns(s: string, inRun: bool)
    ensures Alnums(CollapseRuns(s, inRun)) == Alnums(s)
  {
    if s != "" {
      AlnumsOfRuns(s[1..], false);
      AlnumsOfRuns(s[1..], true);
      var rest := CollapseRuns(s[1..], true);
      assert ("-" + rest)[1..] == rest;
      assert ([s[0]] + CollapseRuns(s[1..], false))[1..] == CollapseRuns(s[1..], false);
    }
  }

  lemma {:induction false} AlnumsOfStripLeft(s: string)
    ensures Alnums(StripLeft(s)) == Alnums(s)
  {
    if s != "" && s[0] == '-' {
      AlnumsOfStripLeft(s[1..]);
      DashAside(s);
    }
  }

  lemma DashAside(s: string)
    requires s != "" && s[0] == '-'
    ensures StripLeft(s) == StripLeft(s[1..]) && Alnums(s) == Alnums(s[1..])
  {
  }

  lemma {:induction false} AlnumsOfStripRight(s: string)
    ensures Alnums(StripRight(s)) == Alnums(s)
  {
    if s != "" && s[|s| - 1] == '-' {
      AlnumsOfStripRight(s[..|s| - 1]);
      AlnumsAppend(s[..|s| - 1], "-");
      assert s == s[..|s| - 1] + "-";
      assert Alnums("-") == "";
    }
  }

  /** A resource name keeps the letters and digits of the requested name, in order; without any it is `anygpu`. */
  lemma LettersKept(lowered: string)
    ensures Alnums(lowered) != "" ==> Alnums(K8sName(lowered)) == Alnums(lowered)
    ensures Alnums(lowered) == "" ==> K8sName(lowered) == "anygpu"
  {
    var dashed := DotsToDashes(lowered);
    var collapsed := CollapseRuns(dashed, false);
    AlnumsOfDashes(lowered);
    AlnumsOfRuns(dashed, false);
    AlnumsOfStripLeft(collapsed);
    AlnumsOfStripRight(StripLeft(collapsed));
    var name := StripRight(StripLeft(collapsed));
    if name != "" {
      StrippedChars(collapsed);
      assert name[0] == StripLeft(collapsed)[0];
      assert StripLeft(collapsed)[0] in StripLeft(collapsed);
      assert Alnum(name[0]);
    }
  }

  /** A run of other characters becomes one dash, however long it is. */
  lemma {:induction false} RunBecomesDash(a: string, run: string, b: string)
    requires forall c :: c in a ==> NameChar(c)
    requires run != "" && forall c :: c in run ==> !NameChar(c)
    requires b == "" || NameChar(b[0])
    ensures CollapseRuns(a + run + b, false) == a + "-" + CollapseRuns(b, false)
  {
    if a == "" {
      assert a + run + b == run + b;
      assert (run + b)[0] == run[0] && (run + b)[1..] == run[1..] + b && run[0] in run;
      RestOfRun(run[1..], b);
      assert a + "-" == "-";
    } else {
      assert (a + run + b)[0] == a[0] && (a + run + b)[1..] == a[1..] + run + b && a[0] in a;
      RunBecomesDash(a[1..], run, b);
      assert [a[0]] + (a[1..] + "-" + CollapseRuns(b, false)) == a + "-" + CollapseRuns(b, false);
    }
  }

  lemma {:induction false} RestOfRun(run: string, b: string)
    requires forall c :: c in run ==> !NameChar(c)
    requires b == "" || NameChar(b[0])
    ensures CollapseRuns(run + b, true) == CollapseRuns(b, false)
  {
    if run == "" {
      assert run + b == b;
    } else {
      assert (run + b)[0] == run[0] && (run + b)[1..] == run[1..] + b && run[0] in run;
      RestOfRun(run[1..], b);
    }
  }

  // ---------------------------------------------------------------- the documents

  function Plain(s: string): Node {
    Leaf(Str(s))
  }

  function Metadata(name: string, namespace: string): Node {
    Map([Entry("name", Plain(name)), Entry("namespace", Plain(namespace))])
  }

  function Resource(apiVersion: string, kind: string, metadata: Node, bodyKey: string, body: Node): Node {
    Map([Entry("apiVersion", Plain(apiVersion)), Entry("kind", Plain(kind)), Entry("metadata", metadata),
         Entry(bodyKey, body)])
  }

  function ConfigMap(name: string, namespace: string, model: string, runtime: string): Node {
    Resource("v1", "ConfigMap", Metadata(name + "-config", namespace), "data",
             Map([Entry("model", Plain(model)), Entry("runtime", Plain(runtime))]))
  }

  function StorageRequest(): Node {
    Map([Entry("requests", Map([Entry("storage", Plain("50Gi"))]))])
  }

  function ClaimSpec(): Node {
    Map([Entry("accessModes", List([Plain("ReadWriteOnce")])), Entry("resources", StorageRequest())])
  }

  function VolumeClaim(name: string, namespace: string): Node {
    Resource("v1", "PersistentVolumeClaim", Metadata(name + "-model-cache", namespace), "spec", ClaimSpec())
  }

  function ContainerPorts(port: int): Node {
    List([Map([Entry("containerPort", Leaf(Int(port)))])])
  }

  function VolumeMounts(mountPath: string): Node {
    List([Map([Entry("name", Plain("model-cache")), Entry("mountPath", Plain(mountPath))])])
  }

  function GpuLimits(): Node {
    Map([Entry("limits", Map([Entry("nvidia.com/gpu", Leaf(Int(1)))]))])
  }

  /** The container; a requested GPU adds a resource limit at the end. */
  function Container(image: string, option: string, model: string, port: int, gpu: string, mountPath: string): Node {
    Map([Entry("name", Plain("runtime")),
         Entry("image", Plain(image)),
         Entry("args", List([Plain(option), Plain(model)])),
         Entry("ports", ContainerPorts(port)),
         Entry("volumeMounts", VolumeMounts(mountPath))]
        + if gpu == "none" then [] else [Entry("resources", GpuLimits())])
  }

  function Volumes(name: string): Node {
    List([Map([Entry("name", Plain("model-cache")),
               Entry("persistentVolumeClaim", Map([Entry("claimName", Plain(name + "-model-cache"))]))])])
  }

  /** The pod; a requested GPU adds a node selector at the end. */
  function PodSpec(name: string, container: Node, gpu: string): Node {
    Map([Entry("containers", List([container])), Entry("volumes", Volumes(name))]
        + if gpu == "none" then [] else [Entry("nodeSelector", Map([Entry("anygpu.ai/gpu", Plain(gpu))]))])
  }

  function AppLabel(name: string): Node {
    Map([Entry("app", Plain(name))])
  }

  function PodTemplate(name: string, pod: Node): Node {
    Map([Entry("metadata", Map([Entry("labels", AppLabel(name))])), Entry("spec", pod)])
  }

  function Selector(name: string): Node {
    Map([Entry("matchLabels", AppLabel(name))])
  }

  function DeploymentSpec(name: string, replicas: int, pod: Node): Node {
    Map([Entry("replicas", Leaf(Int(replicas))), Entry("selector", Selector(name)),
         Entry("template", PodTemplate(name, pod))])
  }

  function Deployment(name: string, namespace: string, replicas: int, pod: Node): Node {
    Resource("apps/v1", "Deployment", Metadata(name, namespace), "spec", DeploymentSpec(name, replicas, pod))
  }

  function ServicePorts(port: int): Node {
    List([Map([Entry("name", Plain("http")), Entry("port", Leaf(Int(port))), Entry("targetPort", Leaf(Int(port)))])])
  }

  function Service(name: string, namespace: string, port: int): Node {
    Resource("v1", "Service", Metadata(name, namespace), "spec",
             Map([Entry("selector", AppLabel(name)), Entry("ports", ServicePorts(port))]))
  }

  // ---------------------------------------------------------------- generating a manifest

  /** `value or default`: an absent or empty string takes the default. */
  function OrDefault(value: Option<string>, default: string): string {
    if value.Some? && value.value != "" then value.value else default
  }

  function RemovePrefix(s: string, p: string): string {
    if p <= s then s[|p|..] else s
  }

  /** What follows the last `c`, or the whole text. */
  function AfterLast(s: string, c: char): string {
    if IndexOf(s, c) == |s| then s else AfterLast(s[IndexOf(s, c) + 1..], c)
  }

  datatype Request = Request(
    name: string, source: string, runtime: Option<string>, gpu: Option<string>,
    namespace: Option<string>, replicas: Option<int>)

  const VLLM := "vllm"
  const LLAMA_CPP := "llama.cpp"
  const GGUF := ".gguf"

  function SelectedRuntime(r: Request, lower: string -> string): string {
    var source := lower(r.source);
    OrDefault(r.runtime, if |source| >= |GGUF| && source[|source| - |GGUF|..] == GGUF then LLAMA_CPP else VLLM)
  }

  function Namespace(r: Request): string {
    OrDefault(r.namespace, "default")
  }

  function Gpu(r: Request): string {
    OrDefault(r.gpu, "none")
  }

  function DeploymentName(r: Request, lower: string -> string): string {
    K8sName(lower(r.name)) + "-" + K8sName(lower(SelectedRuntime(r, lower)))
  }

  /** The model as the container's last argument names it. */
  function ModelArgument(source: string, runtime: string): string {
    if runtime == VLLM then RemovePrefix(source, "hf:") else "/models/" + AfterLast(source, '/')
  }

  function Image(runtime: string): string {
    if runtime == VLLM then "vllm/vllm-openai:latest" else "ghcr.io/ggml-org/llama.cpp:server"
  }

  function ModelOption(runtime: string): string {
    if runtime == VLLM then "--model" else "-m"
  }

  function MountPath(runtime: string): string {
    if runtime == VLLM then "/root/.cache/huggingface" else "/models"
  }

  function Port(runtime: string): int {
    if runtime == VLLM then 8000 else 8080
  }

  function RequestedReplicas(r: Request): int {
    if r.replicas.Some? then r.replicas.value else 1
  }

  function Pod(r: Request, lower: string -> string): Node {
    var runtime := SelectedRuntime(r, lower);
    PodSpec(DeploymentName(r, lower),
            Container(Image(runtime), ModelOption(runtime), ModelArgument(r.source, runtime), Port(runtime), Gpu(r),
                      MountPath(runtime)),
            Gpu(r))
  }

  function Documents(r: Request, lower: string -> string): seq<Node> {
    var runtime, name, namespace := SelectedRuntime(r, lower), DeploymentName(r, lower), Namespace(r);
    [ConfigMap(name, namespace, r.source, runtime),
     VolumeClaim(name, namespace),
     Deployment(name, namespace, RequestedReplicas(r), Pod(r, lower)),
     Service(name, namespace, Port(runtime))]
  }

  predicate Supported(r: Request, lower: string -> string) {
    SelectedRuntime(r, lower) in {VLLM, LLAMA_CPP}
  }

  /** The manifest text; nothing for a runtime without a manifest. */
  function GenerateManifest(r: Request, lower: string -> string): Option<string> {
    if Supported(r, lower) then Some(RenderManifest(Documents(r, lower))) else None
  }

  // ---------------------------------------------------------------- documents all of whose texts are accepted

  predicate HoldEntry(e: Entry, ok: string -> bool) {
    CleanKey(e.key) && Holds(e.value, ok)
  }

  predicate HoldEntries(entries: seq<Entry>, ok: string -> bool) {
    forall i :: 0 <= i < |entries| ==> HoldEntry(entries[i], ok)
  }

  /** No empty container, clean keys, and text that `ok` accepts. */
  predicate Holds(value: Node, ok: string -> bool) {
    match value
    case Leaf(s) => s.Str? ==> ok(s.text)
    case Map(entries) => entries != [] && HoldEntries(entries, ok)
    case List(items) => items != [] && forall i :: 0 <= i < |items| ==> Holds(items[i], ok)
  }

  /** What holds with the texts that survive printing is what reads back. */
  lemma {:induction false} HoldsReadable(value: Node)
    ensures Holds(value, Survives) <==> Readable(value)
    decreases value, 1
  {
    match value
    case Leaf(_) =>
    case Map(entries) => HoldsReadableEntries(entries);
    case List(items) => HoldsReadableItems(items);
  }

  lemma {:induction false} HoldsReadableEntries(entries: seq<Entry>)
    ensures HoldEntries(entries, Survives) <==> ReadableEntries(entries)
    decreases entries, 0
  {
    if entries != [] {
      HoldsReadable(entries[0].value);
      HoldsReadableEntries(entries[1..]);
      assert forall i :: 0 < i < |entries| ==> entries[i] == entries[1..][i - 1];
      assert forall i :: 0 <= i < |entries[1..]| ==> entries[1..][i] == entries[i + 1];
    }
  }

  lemma {:induction false} HoldsReadableItems(items: seq<Node>)
    ensures (forall i :: 0 <= i < |items| ==> Holds(items[i], Survives)) <==> ReadableItems(items)
    decreases items, 0
  {
    if items != [] {
      HoldsReadable(items[0]);
      HoldsReadableItems(items[1..]);
      assert forall i :: 0 < i < |items| ==> items[i] == items[1..][i - 1];
      assert forall i :: 0 <= i < |items[1..]| ==> items[1..][i] == items[i + 1];
    }
  }

  lemma List1(ok: string -> bool, a: Node)
    ensures Holds(List([a]), ok) <==> Holds(a, ok)
  {
    assert [a][0] == a;
  }

  lemma List2(ok: string -> bool, a: Node, b: Node)
    ensures Holds(List([a, b]), ok) <==> Holds(a, ok) && Holds(b, ok)
  {
    assert [a, b][0] == a && [a, b][1] == b;
  }

  /** A key of letters, dots and slashes. */
  predicate WordKey(key: string) {
    key != "" && forall i :: 0 <= i < |key| ==> 'a' <= key[i] <= 'z' || 'A' <= key[i] <= 'Z' || key[i] in {'.', '/'}
  }

  lemma Word(ok: string -> bool, key: string, value: Node)
    requires WordKey(key)
    ensures HoldEntry(Entry(key, value), ok) <==> Holds(value, ok)
  {
    assert key[0] != ' ' && key[0] != '-';
  }

  lemma WordMap1(ok: string -> bool, k: string, a: Node)
    requires WordKey(k)
    ensures Holds(Map([Entry(k, a)]), ok) <==> Holds(a, ok)
  {
    var es := [Entry(k, a)];
    Word(ok, k, a);
    assert es[0] == Entry(k, a);
  }

  lemma WordMap2(ok: string -> bool, k: string, a: Node, l: string, b: Node)
    requires WordKey(k) && WordKey(l)
    ensures Holds(Map([Entry(k, a), Entry(l, b)]), ok) <==> Holds(a, ok) && Holds(b, ok)
  {
    var es := [Entry(k, a), Entry(l, b)];
    Word(ok, k, a);
    Word(ok, l, b);
    assert es[0] == Entry(k, a) && es[1] == Entry(l, b);
  }

  lemma WordMap3(ok: string -> bool, k: string, a: Node, l: string, b: Node, m: string, c: Node)
    requires WordKey(k) && WordKey(l) && WordKey(m)
    ensures Holds(Map([Entry(k, a), Entry(l, b), Entry(m, c)]), ok) <==> Holds(a, ok) && Holds(b, ok) && Holds(c, ok)
  {
    var es := [Entry(k, a), Entry(l, b), Entry(m, c)];
    Word(ok, k, a);
    Word(ok, l, b);
    Word(ok, m, c);
    assert es[0] == Entry(k, a) && es[1] == Entry(l, b) && es[2] == Entry(m, c);
  }

  lemma WordMap4(ok: string -> bool, k: string, a: Node, l: string, b: Node, m: string, c: Node, n: string, d: Node)
    requires WordKey(k) && WordKey(l) && WordKey(m) && WordKey(n)
    ensures Holds(Map([Entry(k, a), Entry(l, b), Entry(m, c), Entry(n, d)]), ok) <==>
            Holds(a, ok) && Holds(b, ok) && Holds(c, ok) && Holds(d, ok)
  {
    var es := [Entry(k, a), Entry(l, b), Entry(m, c), Entry(n, d)];
    Word(ok, k, a);
    Word(ok, l, b);
    Word(ok, m, c);
    Word(ok, n, d);
    assert es[0] == Entry(k, a) && es[1] == Entry(l, b) && es[2] == Entry(m, c) && es[3] == Entry(n, d);
  }

  /** Text that could not be mistaken for anything else is accepted. */
  predicate PlainText(s: string) {
    s != "" && forall i :: 0 <= i < |s| ==> s[i] !in {' ', '\n', '"'}
  }

  ghost predicate Accepts(ok: string -> bool) {
    forall s :: PlainText(s) ==> ok(s)
  }

  lemma PlainHolds(ok: string -> bool, s: string)
    requires Accepts(ok) && PlainText(s)
    ensures ok(s) && Holds(Plain(s), ok)
  {
  }

  // ---------------------------------------------------------------- the blocks of the documents

  /** A resource name, with or without an ending, needs no quotes. */
  predicate SafeName(name: string) {
    name != "" && forall c :: c in name ==> NameChar(c)
  }

  lemma NameHolds(ok: string -> bool, name: string)
    requires Accepts(ok) && SafeName(name)
    ensures Holds(Plain(name), ok)
  {
    assert forall i :: 0 <= i < |name| ==> name[i] in name;
    PlainHolds(ok, name);
  }

  lemma EndingsSafe(name: string)
    requires SafeName(name)
    ensures SafeName(name + "-config") && SafeName(name + "-model-cache")
  {
  }

  lemma MetadataHolds(ok: string -> bool, name: string, namespace: string)
    requires Accepts(ok) && SafeName(name)
    ensures Holds(Metadata(name, namespace), ok) <==> ok(namespace)
  {
    NameHolds(ok, name);
    WordMap2(ok, "name", Plain(name), "namespace", Plain(namespace));
  }

  lemma ResourceHolds(ok: string -> bool, apiVersion: string, kind: string, metadata: Node, bodyKey: string, body: Node)
    requires Accepts(ok) && Holds(Plain(apiVersion), ok) && Holds(Plain(kind), ok) && WordKey(bodyKey)
    ensures Holds(Resource(apiVersion, kind, metadata, bodyKey, body), ok) <==> Holds(metadata, ok) && Holds(body, ok)
  {
    WordMap4(ok, "apiVersion", Plain(apiVersion), "kind", Plain(kind), "metadata", metadata, bodyKey, body);
  }

  lemma ConfigMapHolds(ok: string -> bool, name: string, namespace: string, model: string, runtime: string)
    requires Accepts(ok) && SafeName(name) && ok(runtime)
    ensures Holds(ConfigMap(name, namespace, model, runtime), ok) <==> ok(namespace) && ok(model)
  {
    EndingsSafe(name);
    MetadataHolds(ok, name + "-config", namespace);
    WordMap2(ok, "model", Plain(model), "runtime", Plain(runtime));
    PlainHolds(ok, "v1");
    PlainHolds(ok, "ConfigMap");
    ResourceHolds(ok, "v1", "ConfigMap", Metadata(name + "-config", namespace), "data",
                     Map([Entry("model", Plain(model)), Entry("runtime", Plain(runtime))]));
  }

  lemma StorageRequestHolds(ok: string -> bool)
    requires Accepts(ok)
    ensures Holds(StorageRequest(), ok)
  {
    PlainHolds(ok, "50Gi");
    WordMap1(ok, "storage", Plain("50Gi"));
    WordMap1(ok, "requests", Map([Entry("storage", Plain("50Gi"))]));
  }

  lemma ClaimSpecHolds(ok: string -> bool)
    requires Accepts(ok)
    ensures Holds(ClaimSpec(), ok)
  {
    StorageRequestHolds(ok);
    var modes := List([Plain("ReadWriteOnce")]);
    PlainHolds(ok, "ReadWriteOnce");
    List1(ok, Plain("ReadWriteOnce"));
    WordMap2(ok, "accessModes", modes, "resources", StorageRequest());
  }

  lemma VolumeClaimHolds(ok: string -> bool, name: string, namespace: string)
    requires Accepts(ok) && SafeName(name)
    ensures Holds(VolumeClaim(name, namespace), ok) <==> ok(namespace)
  {
    EndingsSafe(name);
    MetadataHolds(ok, name + "-model-cache", namespace);
    ClaimSpecHolds(ok);
    ClaimKindHolds(ok, Metadata(name + "-model-cache", namespace), ClaimSpec());
  }

  lemma ClaimKindHolds(ok: string -> bool, metadata: Node, spec: Node)
    requires Accepts(ok)
    ensures Holds(Resource("v1", "PersistentVolumeClaim", metadata, "spec", spec), ok) <==>
            Holds(metadata, ok) && Holds(spec, ok)
  {
    PlainHolds(ok, "v1");
    var kind := "Persistent" + "VolumeClaim";
    assert kind == "PersistentVolumeClaim";
    ResourceHolds(ok, "v1", kind, metadata, "spec", spec);
  }

  lemma AppLabelHolds(ok: string -> bool, name: string)
    requires Accepts(ok) && SafeName(name)
    ensures Holds(AppLabel(name), ok)
  {
    NameHolds(ok, name);
    WordMap1(ok, "app", Plain(name));
  }

  lemma ServicePortsHolds(ok: string -> bool, port: int)
    requires Accepts(ok)
    ensures Holds(ServicePorts(port), ok)
  {
    PlainHolds(ok, "http");
    WordMap3(ok, "name", Plain("http"), "port", Leaf(Int(port)), "targetPort", Leaf(Int(port)));
    List1(ok, ServicePorts(port).items[0]);
  }

  lemma ServiceHolds(ok: string -> bool, name: string, namespace: string, port: int)
    requires Accepts(ok) && SafeName(name)
    ensures Holds(Service(name, namespace, port), ok) <==> ok(namespace)
  {
    MetadataHolds(ok, name, namespace);
    AppLabelHolds(ok, name);
    ServicePortsHolds(ok, port);
    WordMap2(ok, "selector", AppLabel(name), "ports", ServicePorts(port));
    PlainHolds(ok, "v1");
    PlainHolds(ok, "Service");
    ResourceHolds(ok, "v1", "Service", Metadata(name, namespace), "spec",
                     Map([Entry("selector", AppLabel(name)), Entry("ports", ServicePorts(port))]));
  }

  lemma ContainerPortsHolds(ok: string -> bool, port: int)
    requires Accepts(ok)
    ensures Holds(ContainerPorts(port), ok)
  {
    WordMap1(ok, "containerPort", Leaf(Int(port)));
    List1(ok, Map([Entry("containerPort", Leaf(Int(port)))]));
  }

  lemma VolumeMountsHolds(ok: string -> bool, mountPath: string)
    requires Accepts(ok) && ok(mountPath)
    ensures Holds(VolumeMounts(mountPath), ok)
  {
    PlainHolds(ok, "model-cache");
    WordMap2(ok, "name", Plain("model-cache"), "mountPath", Plain(mountPath));
    List1(ok, Map([Entry("name", Plain("model-cache")), Entry("mountPath", Plain(mountPath))]));
  }

  lemma GpuLimitsHolds(ok: string -> bool)
    requires Accepts(ok)
    ensures Holds(GpuLimits(), ok)
  {
    WordMap1(ok, "nvidia.com/gpu", Leaf(Int(1)));
    WordMap1(ok, "limits", Map([Entry("nvidia.com/gpu", Leaf(Int(1)))]));
  }

  lemma ContainerTail(ok: string -> bool, port: int, mountPath: string)
    requires Accepts(ok) && ok(mountPath)
    ensures HoldEntries([Entry("ports", ContainerPorts(port)), Entry("volumeMounts", VolumeMounts(mountPath))], ok)
  {
    ContainerPortsHolds(ok, port);
    VolumeMountsHolds(ok, mountPath);
    WordMap2(ok, "ports", ContainerPorts(port), "volumeMounts", VolumeMounts(mountPath));
  }

  lemma ResourcesHolds(ok: string -> bool)
    requires Accepts(ok)
    ensures HoldEntries([Entry("resources", GpuLimits())], ok)
  {
    GpuLimitsHolds(ok);
    WordMap1(ok, "resources", GpuLimits());
  }

  lemma HoldAppend(ok: string -> bool, a: seq<Entry>, b: seq<Entry>)
    ensures HoldEntries(a + b, ok) <==> HoldEntries(a, ok) && HoldEntries(b, ok)
  {
    assert forall i :: 0 <= i < |a| ==> (a + b)[i] == a[i];
    assert forall i :: 0 <= i < |b| ==> (a + b)[|a| + i] == b[i];
  }

  lemma ContainerHolds(ok: string -> bool, image: string, option: string, model: string, port: int, gpu: string,
                       mountPath: string)
    requires Accepts(ok) && ok(image) && ok(option) && ok(mountPath)
    ensures Holds(Container(image, option, model, port, gpu, mountPath), ok) <==> ok(model)
  {
    var args := List([Plain(option), Plain(model)]);
    var head := [Entry("name", Plain("runtime")), Entry("image", Plain(image)), Entry("args", args)];
    var tail := [Entry("ports", ContainerPorts(port)), Entry("volumeMounts", VolumeMounts(mountPath))];
    var more := if gpu == "none" then [] else [Entry("resources", GpuLimits())];
    ContainerHead(ok, image, option, model);
    ContainerTail(ok, port, mountPath);
    ResourcesHolds(ok);
    HoldAppend(ok, head, tail);
    HoldAppend(ok, head + tail, more);
    assert Container(image, option, model, port, gpu, mountPath).entries == head + tail + more;
  }

  lemma ContainerHead(ok: string -> bool, image: string, option: string, model: string)
    requires Accepts(ok) && ok(image) && ok(option)
    ensures ok(model) <==>
            HoldEntries([Entry("name", Plain("runtime")), Entry("image", Plain(image)),
                         Entry("args", List([Plain(option), Plain(model)]))], ok)
  {
    var args := List([Plain(option), Plain(model)]);
    PlainHolds(ok, "runtime");
    List2(ok, Plain(option), Plain(model));
    WordMap3(ok, "name", Plain("runtime"), "image", Plain(image), "args", args);
  }

  lemma VolumesHolds(ok: string -> bool, name: string)
    requires Accepts(ok) && SafeName(name)
    ensures Holds(Volumes(name), ok)
  {
    EndingsSafe(name);
    NameHolds(ok, name + "-model-cache");
    WordMap1(ok, "claimName", Plain(name + "-model-cache"));
    var claim := Map([Entry("claimName", Plain(name + "-model-cache"))]);
    PlainHolds(ok, "model-cache");
    WordMap2(ok, "name", Plain("model-cache"), "persistentVolumeClaim", claim);
    List1(ok, Map([Entry("name", Plain("model-cache")), Entry("persistentVolumeClaim", claim)]));
  }

  lemma PodSpecHolds(ok: string -> bool, name: string, container: Node, gpu: string)
    requires Accepts(ok) && SafeName(name)
    ensures Holds(PodSpec(name, container, gpu), ok) <==> Holds(container, ok) && (gpu == "none" || ok(gpu))
  {
    List1(ok, container);
    VolumesHolds(ok, name);
    WordMap2(ok, "containers", List([container]), "volumes", Volumes(name));
    WordMap1(ok, "anygpu.ai/gpu", Plain(gpu));
    var selector := Entry("nodeSelector", Map([Entry("anygpu.ai/gpu", Plain(gpu))]));
    WordMap1(ok, "nodeSelector", selector.value);
    HoldAppend(ok, [Entry("containers", List([container])), Entry("volumes", Volumes(name))],
               if gpu == "none" then [] else [selector]);
  }

  lemma PodTemplateHolds(ok: string -> bool, name: string, pod: Node)
    requires Accepts(ok) && SafeName(name)
    ensures Holds(PodTemplate(name, pod), ok) <==> Holds(pod, ok)
  {
    AppLabelHolds(ok, name);
    WordMap1(ok, "labels", AppLabel(name));
    var metadata := Map([Entry("labels", AppLabel(name))]);
    WordMap2(ok, "metadata", metadata, "spec", pod);
  }

  lemma DeploymentSpecHolds(ok: string -> bool, name: string, replicas: int, pod: Node)
    requires Accepts(ok) && SafeName(name)
    ensures Holds(DeploymentSpec(name, replicas, pod), ok) <==> Holds(pod, ok)
  {
    PodTemplateHolds(ok, name, pod);
    AppLabelHolds(ok, name);
    WordMap1(ok, "matchLabels", AppLabel(name));
    SpecEntriesHolds(ok, Leaf(Int(replicas)), Selector(name), PodTemplate(name, pod));
  }

  lemma SpecEntriesHolds(ok: string -> bool, replicas: Node, selector: Node, template: Node)
    ensures Holds(Map([Entry("replicas", replicas), Entry("selector", selector), Entry("template", template)]), ok) <==>
            Holds(replicas, ok) && Holds(selector, ok) && Holds(template, ok)
  {
    WordMap3(ok, "replicas", replicas, "selector", selector, "template", template);
  }

  lemma DeploymentHolds(ok: string -> bool, name: string, namespace: string, replicas: int, pod: Node)
    requires Accepts(ok) && SafeName(name)
    ensures Holds(Deployment(name, namespace, replicas, pod), ok) <==> ok(namespace) && Holds(pod, ok)
  {
    MetadataHolds(ok, name, namespace);
    DeploymentSpecHolds(ok, name, replicas, pod);
    DeploymentKindHolds(ok, Metadata(name, namespace), DeploymentSpec(name, replicas, pod));
  }

  lemma DeploymentKindHolds(ok: string -> bool, metadata: Node, spec: Node)
    requires Accepts(ok)
    ensures Holds(Resource("apps/v1", "Deployment", metadata, "spec", spec), ok) <==>
            Holds(metadata, ok) && Holds(spec, ok)
  {
    PlainHolds(ok, "apps/v1");
    PlainHolds(ok, "Deployment");
    ResourceHolds(ok, "apps/v1", "Deployment", metadata, "spec", spec);
  }

  lemma DeploymentNameSafe(r: Request, lower: string -> string)
    ensures SafeName(DeploymentName(r, lower))
  {
    K8sNameIsResourceName(lower(r.name));
    K8sNameIsResourceName(lower(SelectedRuntime(r, lower)));
  }

  predicate ConstantsAccepted(runtime: string, ok: string -> bool) {
    ok(runtime) && ok(ModelOption(runtime)) && ok(MountPath(runtime)) && ok(Image(runtime))
  }

  /** The constants of a supported runtime are plain. */
  lemma RuntimeConstants(ok: string -> bool, runtime: string)
    requires Accepts(ok) && runtime in {VLLM, LLAMA_CPP}
    ensures ConstantsAccepted(runtime, ok)
  {
    if runtime == VLLM {
      PlainHolds(ok, VLLM);
      PlainHolds(ok, "--model");
      PlainHolds(ok, "/root/.cache/huggingface");
      PlainHolds(ok, Image(VLLM));
    } else {
      PlainHolds(ok, LLAMA_CPP);
      PlainHolds(ok, "-m");
      PlainHolds(ok, "/models");
      PlainHolds(ok, Image(LLAMA_CPP));
    }
  }

  /** The texts of a request that reach the manifest unchanged are accepted. */
  predicate TextsAccepted(r: Request, lower: string -> string, ok: string -> bool) {
    && ok(r.source)
    && ok(Namespace(r))
    && ok(ModelArgument(r.source, SelectedRuntime(r, lower)))
    && (Gpu(r) == "none" || ok(Gpu(r)))
  }

  predicate Printable(r: Request, lower: string -> string) {
    TextsAccepted(r, lower, Survives)
  }

  lemma PodHolds(ok: string -> bool, r: Request, lower: string -> string)
    requires Accepts(ok) && ConstantsAccepted(SelectedRuntime(r, lower), ok)
    ensures Holds(Pod(r, lower), ok) <==>
            ok(ModelArgument(r.source, SelectedRuntime(r, lower))) && (Gpu(r) == "none" || ok(Gpu(r)))
  {
    var runtime := SelectedRuntime(r, lower);
    var model := ModelArgument(r.source, runtime);
    DeploymentNameSafe(r, lower);
    var image, option, mount := Image(runtime), ModelOption(runtime), MountPath(runtime);
    ContainerHolds(ok, image, option, model, Port(runtime), Gpu(r), mount);
    PodSpecHolds(ok, DeploymentName(r, lower), Container(image, option, model, Port(runtime), Gpu(r), mount), Gpu(r));
  }

  predicate AllHold(docs: seq<Node>, ok: string -> bool) {
    forall i :: 0 <= i < |docs| ==> Holds(docs[i], ok)
  }

  lemma FourHold(ok: string -> bool, a: Node, b: Node, c: Node, d: Node)
    ensures AllHold([a, b, c, d], ok) <==> Holds(a, ok) && Holds(b, ok) && Holds(c, ok) && Holds(d, ok)
  {
    var docs := [a, b, c, d];
    assert docs[0] == a && docs[1] == b && docs[2] == c && docs[3] == d;
  }

  /** The four documents hold exactly when the texts of the request are accepted. */
  lemma DocumentsHold(ok: string -> bool, r: Request, lower: string -> string)
    requires Accepts(ok) && ConstantsAccepted(SelectedRuntime(r, lower), ok)
    ensures AllHold(Documents(r, lower), ok) <==> TextsAccepted(r, lower, ok)
  {
    var runtime, name, namespace := SelectedRuntime(r, lower), DeploymentName(r, lower), Namespace(r);
    var replicas, pod := RequestedReplicas(r), Pod(r, lower);
    DeploymentNameSafe(r, lower);
    ConfigMapHolds(ok, name, namespace, r.source, runtime);
    VolumeClaimHolds(ok, name, namespace);
    PodHolds(ok, r, lower);
    DeploymentHolds(ok, name, namespace, replicas, pod);
    ServiceHolds(ok, name, namespace, Port(runtime));
    FourHold(ok, ConfigMap(name, namespace, r.source, runtime), VolumeClaim(name, namespace),
             Deployment(name, namespace, replicas, pod), Service(name, namespace, Port(runtime)));
  }

  // ---------------------------------------------------------------- what reads back

  lemma AllHoldReadable(docs: seq<Node>)
    requires forall i :: 0 <= i < |docs| ==> docs[i].Map?
    ensures AllHold(docs, Survives) <==> AllReadable(docs)
  {
    forall i | 0 <= i < |docs|
      ensures Holds(docs[i], Survives) <==> ReadableDocument(docs[i])
    {
      HoldsReadable(docs[i]);
    }
  }

  lemma FourMaps(a: Node, b: Node, c: Node, d: Node)
    requires a.Map? && b.Map? && c.Map? && d.Map?
    ensures forall i :: 0 <= i < 4 ==> [a, b, c, d][i].Map?
  {
  }

  lemma DocumentsAreMaps(r: Request, lower: string -> string)
    ensures forall i :: 0 <= i < |Documents(r, lower)| ==> Documents(r, lower)[i].Map?
  {
    var runtime, name, namespace := SelectedRuntime(r, lower), DeploymentName(r, lower), Namespace(r);
    FourMaps(ConfigMap(name, namespace, r.source, runtime), VolumeClaim(name, namespace),
             Deployment(name, namespace, RequestedReplicas(r), Pod(r, lower)), Service(name, namespace, Port(runtime)));
  }

  lemma PodReadable(r: Request, lower: string -> string)
    requires Supported(r, lower)
    ensures Readable(Pod(r, lower)) <==>
            Survives(ModelArgument(r.source, SelectedRuntime(r, lower))) && (Gpu(r) == "none" || Survives(Gpu(r)))
  {
    RuntimeConstants(Survives, SelectedRuntime(r, lower));
    PodHolds(Survives, r, lower);
    HoldsReadable(Pod(r, lower));
  }

  lemma DocumentsReadable(r: Request, lower: string -> string)
    requires Supported(r, lower)
    ensures AllReadable(Documents(r, lower)) <==> Printable(r, lower)
  {
    RuntimeConstants(Survives, SelectedRuntime(r, lower));
    DocumentsHold(Survives, r, lower);
    DocumentsAreMaps(r, lower);
    AllHoldReadable(Documents(r, lower));
  }

  /** A generated manifest reads back as its four documents exactly when the request is printable. */
  lemma GeneratedManifestReadsBack(r: Request, lower: string -> string)
    requires Supported(r, lower)
    ensures ReadManifest(GenerateManifest(r, lower).value) == Some(EraseItems(Documents(r, lower))) <==>
            Printable(r, lower)
  {
    DocumentsReadable(r, lower);
    RoundTrip(Documents(r, lower));
  }

  // ---------------------------------------------------------------- no empty containers, whatever the request

  predicate NoEmptyContainer(value: Node) {
    match value
    case Leaf(_) => true
    case Map(entries) => entries != [] && forall i :: 0 <= i < |entries| ==> NoEmptyContainer(entries[i].value)
    case List(items) => items != [] && forall i :: 0 <= i < |items| ==> NoEmptyContainer(items[i])
  }

  lemma {:induction false} HoldsFilled(value: Node, ok: string -> bool)
    requires Holds(value, ok)
    ensures NoEmptyContainer(value)
  {
    match value
    case Leaf(_) =>
    case Map(entries) =>
      forall i | 0 <= i < |entries|
        ensures NoEmptyContainer(entries[i].value)
      {
        assert HoldEntry(entries[i], ok);
        HoldsFilled(entries[i].value, ok);
      }
    case List(items) =>
      forall i | 0 <= i < |items|
        ensures NoEmptyContainer(items[i])
      {
        HoldsFilled(items[i], ok);
      }
  }

  /** No generated document has an empty container, whatever the request. */
  lemma DocumentsFilled(r: Request, lower: string -> string)
    ensures forall i :: 0 <= i < |Documents(r, lower)| ==> NoEmptyContainer(Documents(r, lower)[i])
  {
    var any: string -> bool := s => true;
    DocumentsHold(any, r, lower);
    forall i | 0 <= i < |Documents(r, lower)|
      ensures NoEmptyContainer(Documents(r, lower)[i])
    {
      HoldsFilled(Documents(r, lower)[i], any);
    }
  }
}
