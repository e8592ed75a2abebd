/** What a manifest says: how values print, where they stand, and how the four documents refer to each other. */
module ManifestValues {
  import opened Text
  import opened JsonText
  import opened Yaml
  import opened YamlRoundTrip
  import opened Kubernetes

  // ---------------------------------------------------------------- how values print

  function Negative(n: nat): Option<int> {
    Some(0 - n)
  }

  /** The number a text denotes: digits, after a minus sign when it is negative. */
  function ReadInt(text: string): Option<int> {
    if text == "" then None
    else if text[0] == '-' then
      (if |text| > 1 && AllDigits(text[1..]) then Negative(ParseNat(text[1..])) else None)
    else if AllDigits(text) then Some(ParseNat(text))
    else None
  }

  /** A printed integer denotes its number. */
  lemma IntPrinted(n: int)
    ensures ReadInt(YamlScalar(Int(n))) == Some(n)
    ensures n >= 0 ==> AllDigits(YamlScalar(Int(n))) && ParseNat(YamlScalar(Int(n))) == n
    ensures n < 0 ==> YamlScalar(Int(n))[0] == '-' && AllDigits(YamlScalar(Int(n))[1..])
    ensures n < 0 ==> ParseNat(YamlScalar(Int(n))[1..]) == -n
  {
    var digits := NatText(if n < 0 then -n else n);
    ParseNatText(if n < 0 then -n else n);
    assert IsDigit(digits[0]);
    if n < 0 {
      assert YamlScalar(Int(n))[1..] == digits;
    }
  }

  lemma ConstantsPrinted()
    ensures YamlScalar(Bool(true)) == "true" && YamlScalar(Bool(false)) == "false" && YamlScalar(Null) == "null"
  {
  }

  predicate Indicator(c: char) {
    c == '{' || c == '[' || c == '*' || c == '&' || c == '!' || c == '@'
  }

  predicate HoldsColonSpace(text: string) {
    exists i :: 0 <= i < |text| - 1 && text[i] == ':' && text[i + 1] == ' '
  }

  /** A string prints in quotes exactly when it is empty, starts with an indicator or holds a colon and a space. */
  lemma StringPrinted(text: string)
    ensures var quoted := text == "" || Indicator(text[0]) || HoldsColonSpace(text);
            && (quoted ==> JsonLoads(YamlScalar(Str(text))) == Some(text) && YamlScalar(Str(text))[0] == '"')
            && (!quoted ==> YamlScalar(Str(text)) == text)
  {
    JsonRoundTrip(text);
  }

  lemma JoinTwo(sep: string, a: string, b: string)
    ensures Join(sep, [a, b]) == a + sep + b
  {
    assert [a, b][1..] == [b];
  }

  /** The layout: an entry on a line, what it holds two spaces further in; an item after a dash. */
  lemma Layout(key: string, inner: string, s: Scalar)
    ensures Render(Map([Entry(key, Leaf(s))]), 0) == "" + key + ": " + YamlScalar(s)
    ensures Render(Map([Entry(key, Map([Entry(inner, Leaf(s))]))]), 0) ==
            "" + key + ":" + "\n" + ("  " + inner + ": " + YamlScalar(s))
    ensures Render(List([Leaf(s)]), 0) == "" + "- " + YamlScalar(s)
    ensures Render(List([List([Leaf(s)])]), 0) == "" + "-" + "\n" + ("  " + "- " + YamlScalar(s))
  {
    OneEntry(key, s, 0);
    OneEntry(inner, s, 2);
    OneItem(s, 0);
    OneItem(s, 2);
    assert Spaces(0) == "" && Spaces(2) == "  ";
    var block, rows := Map([Entry(inner, Leaf(s))]), List([Leaf(s)]);
    assert [Entry(key, block)][1..] == [] && [rows][1..] == [];
    assert RenderEntries([Entry(key, block)], 0) == ["" + key + ":", Render(block, 2)];
    assert RenderItems([rows], 0) == ["" + "-", Render(rows, 2)];
    JoinTwo("\n", "" + key + ":", Render(block, 2));
    JoinTwo("\n", "" + "-", Render(rows, 2));
  }

  lemma OneEntry(key: string, s: Scalar, indent: nat)
    ensures Render(Map([Entry(key, Leaf(s))]), indent) == Spaces(indent) + key + ": " + YamlScalar(s)
  {
    assert [Entry(key, Leaf(s))][1..] == [];
    assert RenderEntries([Entry(key, Leaf(s))], indent) == [Spaces(indent) + key + ": " + YamlScalar(s)];
  }

  lemma OneItem(s: Scalar, indent: nat)
    ensures Render(List([Leaf(s)]), indent) == Spaces(indent) + "- " + YamlScalar(s)
  {
    assert [Leaf(s)][1..] == [];
    assert RenderItems([Leaf(s)], indent) == [Spaces(indent) + "- " + YamlScalar(s)];
  }

  /** Two documents: a line of three dashes between them and a newline at the end. */
  lemma TwoDocuments(a: Node, b: Node)
    ensures RenderManifest([a, b]) == Render(a, 0) + "\n---\n" + Render(b, 0) + "\n"
  {
    assert Rendered([a, b]) == [Render(a, 0), Render(b, 0)];
    JoinTwo("\n---\n", Render(a, 0), Render(b, 0));
  }

  // ---------------------------------------------------------------- where values stand

  datatype Step = Key(key: string) | Item(i: nat)

  /** The value of the first entry of a key. */
  function Find(entries: seq<Entry>, key: string): Option<Node> {
    if entries == [] then None
    else if entries[0].key == key then Some(entries[0].value) else Find(entries[1..], key)
  }

  function Look1(value: Node, step: Step): Option<Node> {
    match step
    case Key(key) => if value.Map? then Find(value.entries, key) else None
    case Item(i) => if value.List? && i < |value.items| then Some(value.items[i]) else None
  }

  function Go(value: Option<Node>, step: Step): Option<Node> {
    if value.None? then None else Look1(value.value, step)
  }

  /** The value at a path of keys and positions. */
  function Look(value: Node, path: seq<Step>): Option<Node> {
    if path == [] then Some(value)
    else Go(Look(value, path[..|path| - 1]), path[|path| - 1])
  }

  lemma LookSnoc(value: Node, path: seq<Step>, step: Step)
    ensures Look(value, path + [step]) == Go(Look(value, path), step)
  {
    assert (path + [step])[..|path|] == path;
  }

  lemma {:induction false} LookAppend(value: Node, path: seq<Step>, more: seq<Step>)
    requires Look(value, path).Some?
    ensures Look(value, path + more) == Look(Look(value, path).value, more)
  {
    if more == [] {
      assert path + more == path;
    } else {
      var n := |more| - 1;
      LookAppend(value, path, more[..n]);
      LookSnoc(value, path + more[..n], more[n]);
      assert path + more == path + more[..n] + [more[n]];
    }
  }

  lemma Look1Of(value: Node, step: Step)
    ensures Look(value, [step]) == Look1(value, step)
  {
    LookSnoc(value, [], step);
    assert [] + [step] == [step];
  }

  lemma Look2Of(value: Node, a: Step, b: Step)
    ensures Look(value, [a, b]) == Go(Look1(value, a), b)
  {
    Look1Of(value, a);
    LookSnoc(value, [a], b);
    assert [a] + [b] == [a, b];
  }

  function ErasedOption(o: Option<Node>): Option<Node> {
    if o.Some? then Some(Erase(o.value)) else None
  }

  lemma {:induction false} FindErased(entries: seq<Entry>, key: string)
    ensures Find(EraseEntries(entries), key) == ErasedOption(Find(entries, key))
  {
    if entries != [] {
      FindErased(entries[1..], key);
      assert EraseEntries(entries)[1..] == EraseEntries(entries[1..]);
    }
  }

  lemma {:induction false} ItemErased(items: seq<Node>, i: nat)
    requires i < |items|
    ensures EraseItems(items)[i] == Erase(items[i])
  {
    if i > 0 {
      ItemErased(items[1..], i - 1);
    }
  }

  lemma GoErased(o: Option<Node>, step: Step)
    ensures Go(ErasedOption(o), step) == ErasedOption(Go(o, step))
  {
    if o.Some? {
      if step.Key? && o.value.Map? {
        FindErased(o.value.entries, step.key);
      } else if step.Item? && o.value.List? && step.i < |o.value.items| {
        ItemErased(o.value.items, step.i);
      }
    }
  }

  /** What is read back stands where the value stood. */
  lemma {:induction false} LookErased(value: Node, path: seq<Step>)
    ensures Look(Erase(value), path) == ErasedOption(Look(value, path))
  {
    if path != [] {
      var n := |path| - 1;
      LookErased(value, path[..n]);
      GoErased(Look(value, path[..n]), path[n]);
    }
  }

  // ---------------------------------------------------------------- the blocks

  /** In a mapping of distinct keys every key finds its value. */
  lemma {:induction false} FindAt(entries: seq<Entry>, i: nat)
    requires i < |entries| && forall j :: 0 <= j < i ==> entries[j].key != entries[i].key
    ensures Find(entries, entries[i].key) == Some(entries[i].value)
  {
    if i > 0 {
      assert entries[1..][i - 1] == entries[i];
      FindAt(entries[1..], i - 1);
    }
  }

  lemma LookEntry(entries: seq<Entry>, i: nat)
    requires i < |entries| && forall j :: 0 <= j < i ==> entries[j].key != entries[i].key
    ensures Look(Map(entries), [Key(entries[i].key)]) == Some(entries[i].value)
  {
    FindAt(entries, i);
    Look1Of(Map(entries), Key(entries[i].key));
  }

  lemma LookItem(items: seq<Node>, i: nat)
    requires i < |items|
    ensures Look(List(items), [Item(i)]) == Some(items[i])
  {
    Look1Of(List(items), Item(i));
  }

  lemma Through(value: Node, path: seq<Step>, middle: Node, more: seq<Step>, end: Node)
    requires Look(value, path) == Some(middle) && Look(middle, more) == Some(end)
    ensures Look(value, path + more) == Some(end)
  {
    LookAppend(value, path, more);
  }

  const SPEC := [Key("spec")]
  const META := [Key("metadata")]

  lemma ResourceLooks(apiVersion: string, kind: string, metadata: Node, bodyKey: string, body: Node)
    requires bodyKey in {"spec", "data"}
    ensures var doc := Resource(apiVersion, kind, metadata, bodyKey, body);
            && Look(doc, [Key(bodyKey)]) == Some(body)
            && Look(doc, META) == Some(metadata)
            && Look(doc, [Key("kind")]) == Some(Plain(kind))
  {
    var es := Resource(apiVersion, kind, metadata, bodyKey, body).entries;
    assert "kind"[0] == 'k' && "metadata"[0] == 'm' && "apiVersion"[0] == 'a' && bodyKey[0] in {'s', 'd'};
    LookEntry(es, 1);
    LookEntry(es, 2);
    LookEntry(es, 3);
  }

  lemma MetadataLooks(name: string, namespace: string)
    ensures Look(Metadata(name, namespace), [Key("name")]) == Some(Plain(name))
    ensures Look(Metadata(name, namespace), [Key("namespace")]) == Some(Plain(namespace))
  {
    var es := Metadata(name, namespace).entries;
    assert |"name"| != |"namespace"|;
    LookEntry(es, 0);
    LookEntry(es, 1);
  }

  /** Name and namespace of a document. */
  lemma NamedDocument(apiVersion: string, kind: string, name: string, namespace: string, bodyKey: string, body: Node)
    requires bodyKey in {"spec", "data"}
    ensures var doc := Resource(apiVersion, kind, Metadata(name, namespace), bodyKey, body);
            && Look(doc, META + [Key("name")]) == Some(Plain(name))
            && Look(doc, META + [Key("namespace")]) == Some(Plain(namespace))
  {
    var doc := Resource(apiVersion, kind, Metadata(name, namespace), bodyKey, body);
    ResourceLooks(apiVersion, kind, Metadata(name, namespace), bodyKey, body);
    MetadataLooks(name, namespace);
    Through(doc, META, Metadata(name, namespace), [Key("name")], Plain(name));
    Through(doc, META, Metadata(name, namespace), [Key("namespace")], Plain(namespace));
  }

  lemma SpecLooks(name: string, replicas: int, pod: Node)
    ensures var spec := DeploymentSpec(name, replicas, pod);
            && Look(spec, [Key("replicas")]) == Some(Leaf(Int(replicas)))
            && Look(spec, [Key("selector")]) == Some(Selector(name))
            && Look(spec, [Key("template")]) == Some(PodTemplate(name, pod))
  {
    var es := DeploymentSpec(name, replicas, pod).entries;
    assert "replicas"[0] == 'r' && "selector"[0] == 's' && "template"[0] == 't';
    LookEntry(es, 0);
    LookEntry(es, 1);
    LookEntry(es, 2);
  }

  const LABELS := [Key("template")] + (META + [Key("labels")])
  const MATCHED := [Key("selector")] + [Key("matchLabels")]
  const POD := [Key("template")] + SPEC

  lemma TemplateLooks(name: string, pod: Node)
    ensures Look(PodTemplate(name, pod), META + [Key("labels")]) == Some(AppLabel(name))
    ensures Look(PodTemplate(name, pod), SPEC) == Some(pod)
  {
    var es := PodTemplate(name, pod).entries;
    assert "metadata"[0] == 'm' && "spec"[0] == 's';
    LookEntry(es, 0);
    LookEntry(es, 1);
    LookEntry([Entry("labels", AppLabel(name))], 0);
    Through(Map(es), META, Map([Entry("labels", AppLabel(name))]), [Key("labels")], AppLabel(name));
  }

  /** The selector and the pods carry one label. */
  lemma DeploymentSpecLooks(name: string, replicas: int, pod: Node)
    ensures var spec := DeploymentSpec(name, replicas, pod);
            && Look(spec, LABELS) == Some(AppLabel(name))
            && Look(spec, MATCHED) == Some(AppLabel(name))
            && Look(spec, POD) == Some(pod)
  {
    var spec := DeploymentSpec(name, replicas, pod);
    SpecLooks(name, replicas, pod);
    TemplateLooks(name, pod);
    LookEntry([Entry("matchLabels", AppLabel(name))], 0);
    Through(spec, [Key("template")], PodTemplate(name, pod), META + [Key("labels")], AppLabel(name));
    Through(spec, [Key("template")], PodTemplate(name, pod), SPEC, pod);
    Through(spec, [Key("selector")], Selector(name), [Key("matchLabels")], AppLabel(name));
  }

  lemma ServiceLooks(name: string, port: int)
    ensures var body := Map([Entry("selector", AppLabel(name)), Entry("ports", ServicePorts(port))]);
            && Look(body, [Key("selector")]) == Some(AppLabel(name))
            && Look(body, [Key("ports")]) == Some(ServicePorts(port))
  {
    var es := [Entry("selector", AppLabel(name)), Entry("ports", ServicePorts(port))];
    assert "selector"[0] == 's' && "ports"[0] == 'p';
    LookEntry(es, 0);
    LookEntry(es, 1);
  }

  lemma ServicePortsLook(port: int)
    ensures Look(ServicePorts(port), [Item(0)] + [Key("port")]) == Some(Leaf(Int(port)))
    ensures Look(ServicePorts(port), [Item(0)] + [Key("targetPort")]) == Some(Leaf(Int(port)))
  {
    var entry := ServicePorts(port).items[0];
    assert "name"[0] == 'n' && "port"[0] == 'p' && "targetPort"[0] == 't';
    LookItem(ServicePorts(port).items, 0);
    LookEntry(entry.entries, 1);
    LookEntry(entry.entries, 2);
    Through(ServicePorts(port), [Item(0)], entry, [Key("port")], Leaf(Int(port)));
    Through(ServicePorts(port), [Item(0)], entry, [Key("targetPort")], Leaf(Int(port)));
  }

  const CONTAINER := [Key("containers")] + [Item(0)]
  const VOLUME := [Key("volumes")] + [Item(0)]

  lemma PodLooks(name: string, container: Node, gpu: string)
    ensures var pod := PodSpec(name, container, gpu);
            && Look(pod, CONTAINER) == Some(container)
            && Look(pod, VOLUME) == Some(Volumes(name).items[0])
            && (gpu != "none" ==>
                  Look(pod, [Key("nodeSelector")]) == Some(Map([Entry("anygpu.ai/gpu", Plain(gpu))])))
  {
    var pod := PodSpec(name, container, gpu);
    assert "containers"[0] == 'c' && "volumes"[0] == 'v' && "nodeSelector"[0] == 'n';
    LookEntry(pod.entries, 0);
    LookEntry(pod.entries, 1);
    if gpu != "none" {
      LookEntry(pod.entries, 2);
    }
    LookItem([container], 0);
    LookItem(Volumes(name).items, 0);
    Through(pod, [Key("containers")], List([container]), [Item(0)], container);
    Through(pod, [Key("volumes")], Volumes(name), [Item(0)], Volumes(name).items[0]);
  }

  const CLAIM := [Key("persistentVolumeClaim")] + [Key("claimName")]

  lemma VolumeLooks(name: string)
    ensures var volume := Volumes(name).items[0];
            && Look(volume, [Key("name")]) == Some(Plain("model-cache"))
            && Look(volume, CLAIM) == Some(Plain(name + "-model-cache"))
  {
    var volume := Volumes(name).items[0];
    assert "name"[0] == 'n' && "persistentVolumeClaim"[0] == 'p';
    LookEntry(volume.entries, 0);
    LookEntry(volume.entries, 1);
    var claim := Map([Entry("claimName", Plain(name + "-model-cache"))]);
    LookEntry(claim.entries, 0);
    Through(volume, [Key("persistentVolumeClaim")], claim, [Key("claimName")], Plain(name + "-model-cache"));
  }

  const CONTAINER_PORT := [Key("ports")] + ([Item(0)] + [Key("containerPort")])
  const MOUNT := [Key("volumeMounts")] + [Item(0)]

  lemma ContainerEntries(image: string, option: string, model: string, port: int, gpu: string, mountPath: string)
    ensures var c := Container(image, option, model, port, gpu, mountPath);
            && Look(c, [Key("image")]) == Some(Plain(image))
            && Look(c, [Key("args")]) == Some(List([Plain(option), Plain(model)]))
            && Look(c, [Key("ports")]) == Some(ContainerPorts(port))
            && Look(c, [Key("volumeMounts")]) == Some(VolumeMounts(mountPath))
            && (gpu != "none" ==> Look(c, [Key("resources")]) == Some(GpuLimits()))
  {
    var c := Container(image, option, model, port, gpu, mountPath);
    assert "name"[0] == 'n' && "image"[0] == 'i' && "args"[0] == 'a' && "ports"[0] == 'p' && "volumeMounts"[0] == 'v'
           && "resources"[0] == 'r';
    LookEntry(c.entries, 1);
    LookEntry(c.entries, 2);
    LookEntry(c.entries, 3);
    LookEntry(c.entries, 4);
    if gpu != "none" {
      LookEntry(c.entries, 5);
    }
  }

  lemma ContainerLooks(image: string, option: string, model: string, port: int, gpu: string, mountPath: string)
    ensures var c := Container(image, option, model, port, gpu, mountPath);
            && Look(c, CONTAINER_PORT) == Some(Leaf(Int(port)))
            && Look(c, MOUNT + [Key("name")]) == Some(Plain("model-cache"))
            && Look(c, MOUNT + [Key("mountPath")]) == Some(Plain(mountPath))
  {
    var c := Container(image, option, model, port, gpu, mountPath);
    ContainerEntries(image, option, model, port, gpu, mountPath);
    PortLooks(port);
    Through(c, [Key("ports")], ContainerPorts(port), [Item(0)] + [Key("containerPort")], Leaf(Int(port)));
    MountLooks(mountPath);
    var mount := VolumeMounts(mountPath).items[0];
    LookItem(VolumeMounts(mountPath).items, 0);
    Through(c, [Key("volumeMounts")], VolumeMounts(mountPath), [Item(0)], mount);
    Through(c, MOUNT, mount, [Key("name")], Plain("model-cache"));
    Through(c, MOUNT, mount, [Key("mountPath")], Plain(mountPath));
  }

  lemma PortLooks(port: int)
    ensures Look(ContainerPorts(port), [Item(0)] + [Key("containerPort")]) == Some(Leaf(Int(port)))
  {
    var entry := ContainerPorts(port).items[0];
    LookItem(ContainerPorts(port).items, 0);
    LookEntry(entry.entries, 0);
    Through(ContainerPorts(port), [Item(0)], entry, [Key("containerPort")], Leaf(Int(port)));
  }

  lemma MountLooks(mountPath: string)
    ensures Look(VolumeMounts(mountPath).items[0], [Key("name")]) == Some(Plain("model-cache"))
    ensures Look(VolumeMounts(mountPath).items[0], [Key("mountPath")]) == Some(Plain(mountPath))
  {
    var mount := VolumeMounts(mountPath).items[0];
    assert "name"[0] == 'n' && "mountPath"[0] == 'm';
    LookEntry(mount.entries, 0);
    LookEntry(mount.entries, 1);
  }

  // ---------------------------------------------------------------- the four documents

  const AT_POD := SPEC + POD
  const AT_CONTAINER := AT_POD + CONTAINER
  const AT_REPLICAS := SPEC + [Key("replicas")]
  const AT_LABELS := SPEC + LABELS
  const AT_MATCHED := SPEC + MATCHED
  const AT_CONTAINER_PORT := AT_CONTAINER + CONTAINER_PORT
  const AT_VOLUME := AT_POD + VOLUME
  const AT_SELECTOR := SPEC + [Key("selector")]
  const AT_PORT := SPEC + ([Key("ports")] + ([Item(0)] + [Key("port")]))
  const AT_TARGET := SPEC + ([Key("ports")] + ([Item(0)] + [Key("targetPort")]))
  const AT_NAME := META + [Key("name")]
  const AT_NAMESPACE := META + [Key("namespace")]

  lemma DeploymentParts(name: string, namespace: string, replicas: int, pod: Node)
    ensures var doc := Deployment(name, namespace, replicas, pod);
            && Look(doc, AT_REPLICAS) == Some(Leaf(Int(replicas)))
            && Look(doc, AT_LABELS) == Some(AppLabel(name)) && Look(doc, AT_MATCHED) == Some(AppLabel(name))
            && Look(doc, AT_POD) == Some(pod)
  {
    var doc, spec := Deployment(name, namespace, replicas, pod), DeploymentSpec(name, replicas, pod);
    ResourceLooks("apps/v1", "Deployment", Metadata(name, namespace), "spec", spec);
    SpecLooks(name, replicas, pod);
    DeploymentSpecLooks(name, replicas, pod);
    Through(doc, SPEC, spec, [Key("replicas")], Leaf(Int(replicas)));
    Through(doc, SPEC, spec, LABELS, AppLabel(name));
    Through(doc, SPEC, spec, MATCHED, AppLabel(name));
    Through(doc, SPEC, spec, POD, pod);
  }

  lemma ServiceParts(name: string, namespace: string, port: int)
    ensures var doc := Service(name, namespace, port);
            && Look(doc, AT_SELECTOR) == Some(AppLabel(name))
            && Look(doc, AT_PORT) == Some(Leaf(Int(port))) && Look(doc, AT_TARGET) == Some(Leaf(Int(port)))
  {
    var doc := Service(name, namespace, port);
    var body, ports := Map([Entry("selector", AppLabel(name)), Entry("ports", ServicePorts(port))]), ServicePorts(port);
    ResourceLooks("v1", "Service", Metadata(name, namespace), "spec", body);
    ServiceLooks(name, port);
    ServicePortsLook(port);
    Through(body, [Key("ports")], ports, [Item(0)] + [Key("port")], Leaf(Int(port)));
    Through(body, [Key("ports")], ports, [Item(0)] + [Key("targetPort")], Leaf(Int(port)));
    Through(doc, SPEC, body, [Key("selector")], AppLabel(name));
    Through(doc, SPEC, body, [Key("ports")] + ([Item(0)] + [Key("port")]), Leaf(Int(port)));
    Through(doc, SPEC, body, [Key("ports")] + ([Item(0)] + [Key("targetPort")]), Leaf(Int(port)));
  }

  /** What a request asks for, with what is assumed when it says nothing. */
  function Asked(value: Option<string>, otherwise: string): string {
    if value.Some? && value.value != "" then value.value else otherwise
  }

  function ServedPort(runtime: string): int {
    if runtime == "vllm" then 8000 else 8080
  }

  /** The pod of a request stands in its deployment, with its container and volume. */
  lemma PodPlaced(r: Request, lower: string -> string)
    ensures var d, pod := Documents(r, lower)[2], Pod(r, lower);
            && Look(d, AT_POD) == Some(pod)
            && Look(d, AT_CONTAINER) == Look(pod, CONTAINER) && Look(d, AT_VOLUME) == Look(pod, VOLUME)
  {
    var d, pod, runtime := Documents(r, lower)[2], Pod(r, lower), SelectedRuntime(r, lower);
    var container := Container(Image(runtime), ModelOption(runtime), ModelArgument(r.source, runtime), Port(runtime),
                               Gpu(r), MountPath(runtime));
    DeploymentParts(DeploymentName(r, lower), Namespace(r), RequestedReplicas(r), pod);
    PodLooks(DeploymentName(r, lower), container, Gpu(r));
    Through(d, AT_POD, pod, CONTAINER, container);
    Through(d, AT_POD, pod, VOLUME, Volumes(DeploymentName(r, lower)).items[0]);
  }

  /** As many replicas as requested, and one when nothing is said; the service selects what the deployment labels. */
  lemma ReplicasAndLabels(r: Request, lower: string -> string)
    ensures var d := Documents(r, lower);
            && |d| == 4
            && Look(d[2], AT_REPLICAS) == Some(Leaf(Int(if r.replicas.Some? then r.replicas.value else 1)))
            && Look(d[3], AT_SELECTOR).Some?
            && Look(d[3], AT_SELECTOR) == Look(d[2], AT_LABELS) == Look(d[2], AT_MATCHED)
  {
    var name := DeploymentName(r, lower);
    DeploymentParts(name, Namespace(r), RequestedReplicas(r), Pod(r, lower));
    ServiceParts(name, Namespace(r), Port(SelectedRuntime(r, lower)));
  }

  /** The service's port and target port are the container's port and the one the runtime serves. */
  lemma PortsAgree(r: Request, lower: string -> string)
    ensures var d := Documents(r, lower);
            Look(d[3], AT_PORT) == Look(d[3], AT_TARGET) == Look(d[2], AT_CONTAINER_PORT) ==
            Some(Leaf(Int(ServedPort(SelectedRuntime(r, lower)))))
  {
    var d, runtime := Documents(r, lower), SelectedRuntime(r, lower);
    var container := Container(Image(runtime), ModelOption(runtime), ModelArgument(r.source, runtime), Port(runtime),
                               Gpu(r), MountPath(runtime));
    ServiceParts(DeploymentName(r, lower), Namespace(r), Port(runtime));
    PodPlaced(r, lower);
    PodLooks(DeploymentName(r, lower), container, Gpu(r));
    ContainerLooks(Image(runtime), ModelOption(runtime), ModelArgument(r.source, runtime), Port(runtime), Gpu(r),
                   MountPath(runtime));
    Through(d[2], AT_CONTAINER, container, CONTAINER_PORT, Leaf(Int(Port(runtime))));
  }

  /** The pod claims the volume claim by its name and mounts that very volume. */
  lemma VolumesAgree(r: Request, lower: string -> string)
    ensures var d := Documents(r, lower);
            && Look(d[1], AT_NAME).Some? && Look(d[2], AT_VOLUME + CLAIM) == Look(d[1], AT_NAME)
            && Look(d[2], AT_VOLUME + [Key("name")]).Some?
            && Look(d[2], AT_VOLUME + [Key("name")]) == Look(d[2], AT_CONTAINER + (MOUNT + [Key("name")]))
  {
    var d, runtime, name := Documents(r, lower), SelectedRuntime(r, lower), DeploymentName(r, lower);
    var container := Container(Image(runtime), ModelOption(runtime), ModelArgument(r.source, runtime), Port(runtime),
                               Gpu(r), MountPath(runtime));
    ClaimNamed(name, Namespace(r));
    PodPlaced(r, lower);
    PodLooks(name, container, Gpu(r));
    VolumeLooks(name);
    ContainerLooks(Image(runtime), ModelOption(runtime), ModelArgument(r.source, runtime), Port(runtime), Gpu(r),
                   MountPath(runtime));
    var volume := Volumes(name).items[0];
    Through(d[2], AT_VOLUME, volume, CLAIM, Plain(name + "-model-cache"));
    Through(d[2], AT_VOLUME, volume, [Key("name")], Plain("model-cache"));
    Through(d[2], AT_CONTAINER, container, MOUNT + [Key("name")], Plain("model-cache"));
  }

  lemma ConfigMapNamed(name: string, namespace: string, model: string, runtime: string)
    ensures Look(ConfigMap(name, namespace, model, runtime), AT_NAMESPACE) == Some(Plain(namespace))
  {
    NamedDocument("v1", "ConfigMap", name + "-config", namespace, "data",
                  Map([Entry("model", Plain(model)), Entry("runtime", Plain(runtime))]));
  }

  lemma ClaimNamed(name: string, namespace: string)
    ensures Look(VolumeClaim(name, namespace), AT_NAMESPACE) == Some(Plain(namespace))
    ensures Look(VolumeClaim(name, namespace), AT_NAME) == Some(Plain(name + "-model-cache"))
  {
    NamedDocument("v1", "PersistentVolumeClaim", name + "-model-cache", namespace, "spec", ClaimSpec());
  }

  lemma DeploymentNamed(name: string, namespace: string, replicas: int, pod: Node)
    ensures Look(Deployment(name, namespace, replicas, pod), AT_NAMESPACE) == Some(Plain(namespace))
    ensures Look(Deployment(name, namespace, replicas, pod), AT_NAME) == Some(Plain(name))
  {
    NamedDocument("apps/v1", "Deployment", name, namespace, "spec", DeploymentSpec(name, replicas, pod));
  }

  lemma ServiceNamed(name: string, namespace: string, port: int)
    ensures Look(Service(name, namespace, port), AT_NAMESPACE) == Some(Plain(namespace))
    ensures Look(Service(name, namespace, port), AT_NAME) == Some(Plain(name))
  {
    NamedDocument("v1", "Service", name, namespace, "spec",
                  Map([Entry("selector", AppLabel(name)), Entry("ports", ServicePorts(port))]));
  }

  predicate InNamespace(doc: Node, namespace: string) {
    Look(doc, AT_NAMESPACE) == Some(Plain(namespace))
  }

  predicate AllInNamespace(docs: seq<Node>, namespace: string) {
    forall i :: 0 <= i < |docs| ==> InNamespace(docs[i], namespace)
  }

  lemma FourInNamespace(a: Node, b: Node, c: Node, d: Node, namespace: string)
    requires InNamespace(a, namespace) && InNamespace(b, namespace)
    requires InNamespace(c, namespace) && InNamespace(d, namespace)
    ensures AllInNamespace([a, b, c, d], namespace)
  {
  }

  /** All four documents are in the requested namespace, or the default one; deployment and service share a name. */
  lemma NamesAgree(r: Request, lower: string -> string)
    ensures var d := Documents(r, lower);
            && |d| == 4 && AllInNamespace(d, Asked(r.namespace, "default"))
            && Look(d[2], AT_NAME).Some? && Look(d[3], AT_NAME) == Look(d[2], AT_NAME)
  {
    var runtime, name, namespace := SelectedRuntime(r, lower), DeploymentName(r, lower), Namespace(r);
    var replicas, pod := RequestedReplicas(r), Pod(r, lower);
    ConfigMapNamed(name, namespace, r.source, runtime);
    ClaimNamed(name, namespace);
    DeploymentNamed(name, namespace, replicas, pod);
    ServiceNamed(name, namespace, Port(runtime));
    FourInNamespace(ConfigMap(name, namespace, r.source, runtime), VolumeClaim(name, namespace),
                    Deployment(name, namespace, replicas, pod), Service(name, namespace, Port(runtime)), namespace);
  }

  /** The container runs its runtime's image on the model, with the volume mounted where that runtime looks. */
  lemma ContainerSays(r: Request, lower: string -> string)
    requires Supported(r, lower)
    ensures var c := Look(Documents(r, lower)[2], AT_CONTAINER);
            && c.Some?
            && (SelectedRuntime(r, lower) == "vllm" ==>
                  && Look(c.value, [Key("image")]) == Some(Plain("vllm/vllm-openai:latest"))
                  && Look(c.value, [Key("args")]) ==
                     Some(List([Plain("--model"), Plain(if "hf:" <= r.source then r.source[3..] else r.source)]))
                  && Look(c.value, MOUNT + [Key("mountPath")]) == Some(Plain("/root/.cache/huggingface")))
            && (SelectedRuntime(r, lower) == "llama.cpp" ==>
                  && Look(c.value, [Key("image")]) == Some(Plain("ghcr.io/ggml-org/llama.cpp:server"))
                  && Look(c.value, [Key("args")]) ==
                     Some(List([Plain("-m"), Plain("/models/" + AfterLast(r.source, '/'))]))
                  && Look(c.value, MOUNT + [Key("mountPath")]) == Some(Plain("/models")))
  {
    var runtime := SelectedRuntime(r, lower);
    var container := Container(Image(runtime), ModelOption(runtime), ModelArgument(r.source, runtime), Port(runtime),
                               Gpu(r), MountPath(runtime));
    PodPlaced(r, lower);
    PodLooks(DeploymentName(r, lower), container, Gpu(r));
    ContainerEntries(Image(runtime), ModelOption(runtime), ModelArgument(r.source, runtime), Port(runtime), Gpu(r),
                     MountPath(runtime));
    ContainerLooks(Image(runtime), ModelOption(runtime), ModelArgument(r.source, runtime), Port(runtime), Gpu(r),
                   MountPath(runtime));
    assert "vllm"[0] == 'v' && "llama.cpp"[0] == 'l';
  }

  /** Without a requested runtime a GGUF source runs on llama.cpp and any other on vLLM. */
  lemma RuntimeSelected(r: Request, lower: string -> string)
    ensures r.runtime.Some? && r.runtime.value != "" ==> SelectedRuntime(r, lower) == r.runtime.value
    ensures r.runtime.None? || r.runtime.value == "" ==>
              var source := lower(r.source);
              SelectedRuntime(r, lower) ==
              if |source| >= 5 && source[|source| - 5..] == ".gguf" then "llama.cpp" else "vllm"
  {
    assert |GGUF| == 5;
  }

  lemma AfterSlash(head: string, tail: string)
    requires head != "" && head[|head| - 1] == '/' && '/' !in head[..|head| - 1]
    ensures AfterLast(head + tail, '/') == AfterLast(tail, '/')
  {
    var s, n := head + tail, |head| - 1;
    var i := IndexOf(s, '/');
    assert s[n] == '/';
    assert i <= n;
    assert forall k :: 0 <= k < n ==> s[k] == head[..n][k] && s[k] in head[..n];
    assert s[n + 1..] == tail;
  }

  lemma NoSlash(s: string)
    requires '/' !in s
    ensures AfterLast(s, '/') == s
  {
    assert IndexOf(s, '/') < |s| ==> s[IndexOf(s, '/')] in s;
  }

  /** What follows the last slash: the text is cut there, or has none. */
  lemma {:induction false} FileName(s: string) returns (before: string)
    ensures s == before + AfterLast(s, '/') && '/' !in AfterLast(s, '/')
    ensures before == "" || before[|before| - 1] == '/'
    decreases |s|
  {
    if '/' in s {
      var i := IndexOf(s, '/');
      var head, tail := s[..i + 1], s[i + 1..];
      assert s == head + tail;
      AfterSlash(head, tail);
      var rest := FileName(tail);
      before := head + rest;
      AppendAssociative(head, rest, AfterLast(tail, '/'));
    } else {
      NoSlash(s);
      before := "";
    }
  }

  lemma DataLooks(model: string, runtime: string)
    ensures var data := Map([Entry("model", Plain(model)), Entry("runtime", Plain(runtime))]);
            Look(data, [Key("model")]) == Some(Plain(model)) && Look(data, [Key("runtime")]) == Some(Plain(runtime))
  {
    var data := Map([Entry("model", Plain(model)), Entry("runtime", Plain(runtime))]);
    assert "model"[0] == 'm' && "runtime"[0] == 'r';
    LookEntry(data.entries, 0);
    LookEntry(data.entries, 1);
  }

  lemma ConfigParts(name: string, namespace: string, model: string, runtime: string)
    ensures var config := ConfigMap(name, namespace, model, runtime);
            && Look(config, [Key("data")] + [Key("model")]) == Some(Plain(model))
            && Look(config, [Key("data")] + [Key("runtime")]) == Some(Plain(runtime))
  {
    var config := ConfigMap(name, namespace, model, runtime);
    var data := Map([Entry("model", Plain(model)), Entry("runtime", Plain(runtime))]);
    ResourceLooks("v1", "ConfigMap", Metadata(name + "-config", namespace), "data", data);
    DataLooks(model, runtime);
    Through(config, [Key("data")], data, [Key("model")], Plain(model));
    Through(config, [Key("data")], data, [Key("runtime")], Plain(runtime));
  }

  /** The configuration repeats the source and the runtime of the request. */
  lemma ConfigSays(r: Request, lower: string -> string)
    ensures var config := Documents(r, lower)[0];
            && Look(config, [Key("data")] + [Key("model")]) == Some(Plain(r.source))
            && Look(config, [Key("data")] + [Key("runtime")]) == Some(Plain(SelectedRuntime(r, lower)))
  {
    ConfigParts(DeploymentName(r, lower), Namespace(r), r.source, SelectedRuntime(r, lower));
  }

  lemma {:induction false} FindNone(entries: seq<Entry>, key: string)
    requires forall j :: 0 <= j < |entries| ==> entries[j].key != key
    ensures Find(entries, key) == None
  {
    if entries != [] {
      FindNone(entries[1..], key);
    }
  }

  const GPU_LIMIT := [Key("resources")] + ([Key("limits")] + [Key("nvidia.com/gpu")])

  lemma LimitLooks(image: string, option: string, model: string, port: int, gpu: string, mountPath: string)
    requires gpu != "none"
    ensures Look(Container(image, option, model, port, gpu, mountPath), GPU_LIMIT) == Some(Leaf(Int(1)))
  {
    var c := Container(image, option, model, port, gpu, mountPath);
    var limit := Map([Entry("nvidia.com/gpu", Leaf(Int(1)))]);
    ContainerEntries(image, option, model, port, gpu, mountPath);
    LookEntry(GpuLimits().entries, 0);
    LookEntry(limit.entries, 0);
    Through(GpuLimits(), [Key("limits")], limit, [Key("nvidia.com/gpu")], Leaf(Int(1)));
    Through(c, [Key("resources")], GpuLimits(), [Key("limits")] + [Key("nvidia.com/gpu")], Leaf(Int(1)));
  }

  /** A pod selects nodes by GPU exactly when the request names one; its container is then limited to one. */
  lemma GpuPlaced(r: Request, lower: string -> string)
    ensures var d := Documents(r, lower)[2];
            var pod, container := Look(d, AT_POD), Look(d, AT_CONTAINER);
            var gpu := Asked(r.gpu, "none");
            && pod.Some? && container.Some?
            && Look(pod.value, [Key("nodeSelector")]) ==
               (if gpu == "none" then None else Some(Map([Entry("anygpu.ai/gpu", Plain(gpu))])))
            && (gpu != "none" ==> Look(container.value, GPU_LIMIT) == Some(Leaf(Int(1))))
  {
    var runtime, name := SelectedRuntime(r, lower), DeploymentName(r, lower);
    var container := Container(Image(runtime), ModelOption(runtime), ModelArgument(r.source, runtime), Port(runtime),
                               Gpu(r), MountPath(runtime));
    PodPlaced(r, lower);
    PodLooks(name, container, Gpu(r));
    if Gpu(r) == "none" {
      PodWithoutSelector(name, container);
    } else {
      LimitLooks(Image(runtime), ModelOption(runtime), ModelArgument(r.source, runtime), Port(runtime), Gpu(r),
                 MountPath(runtime));
    }
  }

  lemma PodWithoutSelector(name: string, container: Node)
    ensures Look(PodSpec(name, container, "none"), [Key("nodeSelector")]) == None
  {
    var pod := PodSpec(name, container, "none");
    assert "containers"[0] == 'c' && "volumes"[0] == 'v' && "nodeSelector"[0] == 'n';
    FindNone(pod.entries, "nodeSelector");
    Look1Of(pod, Key("nodeSelector"));
  }

  // ---------------------------------------------------------------- the numbers that are read back

  function NumberAt(doc: Node, path: seq<Step>): Option<int> {
    var found := Look(doc, path);
    if found.Some? && found.value.Leaf? && found.value.scalar.Str? then ReadInt(found.value.scalar.text) else None
  }

  lemma NumberErased(doc: Node, path: seq<Step>, n: int)
    requires Look(doc, path) == Some(Leaf(Int(n)))
    ensures NumberAt(Erase(doc), path) == Some(n)
  {
    LookErased(doc, path);
    IntPrinted(n);
  }

  /** Replicas and ports of a printed manifest are read back as the numbers requested and served. */
  lemma NumbersReadBack(r: Request, lower: string -> string)
    requires Supported(r, lower) && Printable(r, lower)
    ensures var read := ReadManifest(GenerateManifest(r, lower).value);
            var port := ServedPort(SelectedRuntime(r, lower));
            && read.Some? && |read.value| == 4
            && NumberAt(read.value[2], AT_REPLICAS) == Some(if r.replicas.Some? then r.replicas.value else 1)
            && NumberAt(read.value[2], AT_CONTAINER_PORT) == Some(port)
            && NumberAt(read.value[3], AT_PORT) == Some(port)
            && NumberAt(read.value[3], AT_TARGET) == Some(port)
  {
    var docs, port := Documents(r, lower), ServedPort(SelectedRuntime(r, lower));
    GeneratedManifestReadsBack(r, lower);
    ReplicasAndLabels(r, lower);
    PortsAgree(r, lower);
    ItemErased(docs, 2);
    ItemErased(docs, 3);
    NumberErased(docs[2], AT_REPLICAS, if r.replicas.Some? then r.replicas.value else 1);
    NumberErased(docs[2], AT_CONTAINER_PORT, port);
    NumberErased(docs[3], AT_PORT, port);
    NumberErased(docs[3], AT_TARGET, port);
  }
}
