/**
 * The in-memory manifests and their retargeting, in place. The base objects are loaded once; each call
 * works on a deep copy, so the base is what it was.
 */
module Retarget {
  import opened Manifests

  /** A Go map of labels: one object however many fields refer to it. */
  class LabelMap {
    var entries: Labels

    constructor (entries: Labels)
      ensures this.entries == entries
    {
      this.entries := entries;
    }
  }

  /** The labels a field refers to; none for a nil map. */
  function Read(m: LabelMap?): Option<Labels>
    reads m
  {
    if m == null then None else Some(m.entries)
  }

  method CopyMap(m: LabelMap?) returns (c: LabelMap?)
    ensures Read(c) == Read(m) && (c != null ==> fresh(c))
  {
    if m == null { return null; }
    c := new LabelMap(m.entries);
  }

  /** `if m == nil { m = map[string]string{} }; m["app"] = name`, seen through every reference to the map. */
  method SetApp(m: LabelMap?, name: string) returns (r: LabelMap)
    modifies m
    ensures m != null ==> r == m
    ensures m == null ==> fresh(r)
    ensures Read(r) == WithApp(old(Read(m)), name)
  {
    if m == null {
      r := new LabelMap(map["app" := name]);
      assert map[]["app" := name] == map["app" := name];
    } else {
      m.entries := m.entries["app" := name];
      r := m;
    }
  }

  /** Two fields that refer to one map name it twice, which makes no difference. */
  lemma WithAppTwice(l: Option<Labels>, name: string)
    ensures WithApp(WithApp(l, name), name) == WithApp(l, name)
  {
    var m := if l.Some? then l.value else map[];
    assert m["app" := name]["app" := name] == m["app" := name];
  }

  class ServiceObject {
    var name: string
    var labels: LabelMap?
    var selector: LabelMap?

    constructor (name: string, labels: LabelMap?, selector: LabelMap?)
      ensures this.name == name && this.labels == labels && this.selector == selector
    {
      this.name, this.labels, this.selector := name, labels, selector;
    }

    function Value(): Manifest
      reads this, labels, selector
    {
      ServiceM(name, Read(labels), Read(selector))
    }

    method DeepCopy() returns (c: ServiceObject)
      ensures fresh(c) && (c.labels != null ==> fresh(c.labels)) && (c.selector != null ==> fresh(c.selector))
      ensures c.Value() == Value()
    {
      var l := CopyMap(labels);
      var s := CopyMap(selector);
      c := new ServiceObject(name, l, s);
    }

    method Retarget(name: string)
      modifies this, labels, selector
      ensures Value() == RetargetedService(old(Value()), name)
      ensures (old(labels) != null ==> labels == old(labels)) && (old(selector) != null ==> selector == old(selector))
    {
      WithAppTwice(Read(labels), name);
      WithAppTwice(Read(selector), name);
      this.name := name;
      labels := SetApp(labels, name);
      selector := SetApp(selector, name);
    }
  }

  class NetworkPolicyObject {
    var name: string
    var selector: LabelMap?

    constructor (name: string, selector: LabelMap?)
      ensures this.name == name && this.selector == selector
    {
      this.name, this.selector := name, selector;
    }

    function Value(): Manifest
      reads this, selector
    {
      NetworkPolicyM(name, Read(selector))
    }

    method DeepCopy() returns (c: NetworkPolicyObject)
      ensures fresh(c) && (c.selector != null ==> fresh(c.selector)) && c.Value() == Value()
    {
      var s := CopyMap(selector);
      c := new NetworkPolicyObject(name, s);
    }

    method Retarget(name: string)
      modifies this, selector
      ensures Value() == RetargetedNetworkPolicy(old(Value()), name)
    {
      this.name := name + "-lockdown";
      selector := SetApp(selector, name);
    }
  }

  class DeploymentObject {
    var name: string
    var labels: LabelMap?
    var selector: LabelMap?
    var podLabels: LabelMap?
    const containers: array<Container>

    constructor (name: string, labels: LabelMap?, selector: LabelMap?, podLabels: LabelMap?, containers: array<Container>)
      ensures this.name == name && this.labels == labels && this.selector == selector && this.podLabels == podLabels
      ensures this.containers == containers
    {
      this.name, this.labels, this.selector, this.podLabels := name, labels, selector, podLabels;
      this.containers := containers;
    }

    function Value(): Manifest
      reads this, labels, selector, podLabels, containers
    {
      DeploymentM(name, Read(labels), Read(selector), Read(podLabels), containers[..])
    }

    method DeepCopy() returns (c: DeploymentObject)
      ensures fresh(c) && fresh(c.containers) && (c.labels != null ==> fresh(c.labels))
      ensures (c.selector != null ==> fresh(c.selector)) && (c.podLabels != null ==> fresh(c.podLabels))
      ensures c.Value() == Value()
    {
      var l := CopyMap(labels);
      var s := CopyMap(selector);
      var p := CopyMap(podLabels);
      var cs := new Container[containers.Length](i requires 0 <= i < containers.Length reads this, containers => containers[i]);
      assert cs[..] == containers[..];
      c := new DeploymentObject(name, l, s, p, cs);
    }

    method Retarget(name: string, container: string, image: string)
      modifies this, labels, selector, podLabels, containers
      ensures Value() == RetargetedDeployment(old(Value()), name, container, image)
    {
      WithAppTwice(Read(labels), name);
      WithAppTwice(Read(selector), name);
      WithAppTwice(Read(podLabels), name);
      this.name := name;
      labels := SetApp(labels, name);
      selector := SetApp(selector, name);
      podLabels := SetApp(podLabels, name);
      label Named:
      Reimage(containers, container, image);
      assert Read(labels) == old@Named(Read(labels)) && Read(selector) == old@Named(Read(selector));
    }
  }

  /** The container loop of retargetDeployment. */
  method Reimage(containers: array<Container>, container: string, image: string)
    modifies containers
    ensures containers[..] == Reimaged(old(containers[..]), container, image)
  {
    for i := 0 to containers.Length
      invariant forall k :: 0 <= k < i ==> containers[k] == Reimaged(old(containers[..]), container, image)[k]
      invariant forall k :: i <= k < containers.Length ==> containers[k] == old(containers[k])
    {
      if containers[i].name == container {
        containers[i] := containers[i].(image := image);
      }
    }
    assert containers[..] == Reimaged(old(containers[..]), container, image);
  }

  /** Each container's arguments are a slice of their own, rewritten element by element. */
  class JobObject {
    var name: string
    const shells: seq<Container>      // the containers but for their arguments
    const args: seq<array<string>>

    ghost predicate Valid() {
      |args| == |shells| && forall i, j :: 0 <= i < j < |args| ==> args[i] != args[j]
    }

    constructor (name: string, shells: seq<Container>, args: seq<array<string>>)
      ensures this.name == name && this.shells == shells && this.args == args
    {
      this.name, this.shells, this.args := name, shells, args;
    }

    ghost function Value(): Manifest
      requires Valid()
      reads this, args
    {
      JobM(name, seq(|shells|, i requires 0 <= i < |shells| reads args => shells[i].(args := args[i][..])))
    }

    method DeepCopy() returns (c: JobObject)
      requires Valid()
      ensures fresh(c) && c.Valid() && (forall i :: 0 <= i < |c.args| ==> fresh(c.args[i]))
      ensures c.Value() == Value()
    {
      var copies: seq<array<string>> := [];
      for i := 0 to |args|
        invariant |copies| == i
        invariant forall k :: 0 <= k < i ==> fresh(copies[k]) && copies[k][..] == args[k][..]
        invariant forall k, l :: 0 <= k < l < i ==> copies[k] != copies[l]
      {
        var a := args[i];
        var b := new string[a.Length](j requires 0 <= j < a.Length reads a => a[j]);
        assert b[..] == a[..];
        copies := copies + [b];
      }
      c := new JobObject(name, shells, copies);
    }

    method Retarget(name: string, baseHost: string, host: string)
      requires Valid()
      modifies this, args
      ensures Value() == RetargetedJob(old(Value()), name, baseHost, host)
    {
      this.name := name;
      for i := 0 to |args|
        invariant this.name == name
        invariant forall k :: 0 <= k < i ==> args[k][..] == RehostedArgs(old(args[k][..]), baseHost, host)
        invariant forall k :: i <= k < |args| ==> args[k][..] == old(args[k][..])
      {
        RewriteArgs(args[i], baseHost, host);
      }
    }
  }

  method RewriteArgs(args: array<string>, baseHost: string, host: string)
    modifies args
    ensures args[..] == RehostedArgs(old(args[..]), baseHost, host)
  {
    for j := 0 to args.Length
      invariant forall k :: 0 <= k < j ==> args[k] == ReplaceAll(old(args[k]), CdpHost(baseHost), CdpHost(host))
      invariant forall k :: j <= k < args.Length ==> args[k] == old(args[k])
    {
      args[j] := ReplaceAll(args[j], CdpHost(baseHost), CdpHost(host));
    }
  }

  /** What one call does with the shared base Job: copy, retarget the copy; the base does not move. */
  method VersionedJob(base: JobObject, name: string, baseHost: string, host: string) returns (job: JobObject)
    requires base.Valid()
    ensures fresh(job) && job.Valid() && job.Value() == RetargetedJob(base.Value(), name, baseHost, host)
    ensures base.Value() == old(base.Value())
  {
    job := base.DeepCopy();
    job.Retarget(name, baseHost, host);
  }

  /** A copy shares no map and no slice with the base, so setting labels in it is not seen through the base. */
  method VersionedDeployment(base: DeploymentObject, name: string, container: string, image: string) returns (dep: DeploymentObject)
    ensures fresh(dep) && dep.Value() == RetargetedDeployment(base.Value(), name, container, image)
    ensures base.Value() == old(base.Value())
  {
    dep := base.DeepCopy();
    dep.Retarget(name, container, image);
  }

  method VersionedService(base: ServiceObject, name: string) returns (svc: ServiceObject)
    ensures fresh(svc) && svc.Value() == RetargetedService(base.Value(), name)
    ensures base.Value() == old(base.Value())
  {
    svc := base.DeepCopy();
    svc.Retarget(name);
  }

  method VersionedNetworkPolicy(base: NetworkPolicyObject, name: string) returns (np: NetworkPolicyObject)
    ensures fresh(np) && np.Value() == RetargetedNetworkPolicy(base.Value(), name)
    ensures base.Value() == old(base.Value())
  {
    np := base.DeepCopy();
    np.Retarget(name);
  }

  /** What the deep copy is for: a copy that shared the base's label map would rename the base as well. */
  method SharedMapLeaks(base: ServiceObject, name: string) returns (svc: ServiceObject)
    requires base.labels != null
    modifies base.labels
    ensures Read(base.labels) == WithApp(old(Read(base.labels)), name)
  {
    var s := CopyMap(base.selector);
    svc := new ServiceObject(base.name, base.labels, s);
    svc.Retarget(name);
  }

  // ---- Selection ----

  /** A label selector: every entry must be present. A missing selector map selects by nothing. */
  predicate Selects(selector: Option<Labels>, labels: Option<Labels>) {
    selector.Some? ==> forall k :: k in selector.value ==> labels.Some? && k in labels.value && labels.value[k] == selector.value[k]
  }

  lemma WithAppSelects(selector: Option<Labels>, labels: Option<Labels>, a: string, b: string)
    requires Selects(selector, labels)
    ensures Selects(WithApp(selector, a), WithApp(labels, b)) <==> a == b
  {
    var s, l := WithApp(selector, a).value, WithApp(labels, b).value;
    assert "app" in s && s["app"] == a && l["app"] == b;
    forall k | k in s && k != "app"
      ensures k in l && l[k] == s[k]
    {
      assert k in selector.value;
    }
  }

  /**
   * Whatever extra labels and selector entries the base carries, as long as the base selects its own
   * pods: after retargeting, version a's Deployment, Service and NetworkPolicy select version b's pods
   * exactly when a and b are the same name.
   */
  lemma SelectionSurvives(dep: Manifest, svc: Manifest, np: Manifest, a: string, b: string, container: string, image: string)
    requires dep.DeploymentM? && svc.ServiceM? && np.NetworkPolicyM?
    requires Selects(dep.selector, dep.podLabels) && Selects(svc.selector, dep.podLabels) && Selects(np.selector, dep.podLabels)
    ensures var pods := RetargetedDeployment(dep, b, container, image).podLabels;
      && (Selects(RetargetedDeployment(dep, a, container, image).selector, pods) <==> a == b)
      && (Selects(RetargetedService(svc, a).selector, pods) <==> a == b)
      && (Selects(RetargetedNetworkPolicy(np, a).selector, pods) <==> a == b)
  {
    WithAppSelects(dep.selector, dep.podLabels, a, b);
    WithAppSelects(svc.selector, dep.podLabels, a, b);
    WithAppSelects(np.selector, dep.podLabels, a, b);
  }
}
