/** What a sweep is asked to do, the matrix it must report on, and why its calls do not meet. */
module Matrix {
  import opened Manifests
  import opened Store
  import opened Report
  import opened Worker
  import opened Fleet

  datatype Policy = Policy(name: string, content: string)

  datatype Base = Base(deployment: Manifest, service: Manifest, networkPolicy: Manifest, job: Manifest) {
    predicate Valid() {
      deployment.DeploymentM? && service.ServiceM? && networkPolicy.NetworkPolicyM? && job.JobM?
    }
  }

  datatype Browser = Browser(name: string, imageRepo: string, deployment: string, container: string,
                             jobName: string, versions: seq<string>, base: Base)

  datatype Config = Config(policies: seq<Policy>, browsers: seq<Browser>, parallelism: int, anubisImage: string,
                           limits: Limits)

  predicate ValidConfig(cfg: Config) {
    forall b :: b in cfg.browsers ==> b.base.Valid()
  }

  /** Without policies the sweep runs once, against whatever Anubis already serves. */
  function Passes(cfg: Config): seq<Policy> {
    if cfg.policies == [] then [Policy("", "")] else cfg.policies
  }

  function ConfigMapName(policy: string): string {
    "anubis-policy-" + policy
  }

  function PlanOf(b: Browser, tag: string, limits: Limits): Plan
    requires b.base.Valid()
  {
    var name := VersionedName(b.deployment, tag);
    var jobName := VersionedName(b.jobName, tag);
    Plan(name, jobName,
         RetargetedDeployment(b.base.deployment, name, b.container, b.imageRepo + ":" + tag),
         RetargetedService(b.base.service, name),
         RetargetedNetworkPolicy(b.base.networkPolicy, name),
         RetargetedJob(b.base.job, jobName, b.deployment, name),
         limits)
  }

  function PlansOf(b: Browser, limits: Limits): seq<Plan>
    requires b.base.Valid()
  {
    seq(|b.versions|, i requires 0 <= i < |b.versions| => PlanOf(b, b.versions[i], limits))
  }

  /** Containers of two manifests, one by one: the same name and arguments, and this image for the named ones. */
  predicate Reimages(base: seq<Container>, cs: seq<Container>, container: string, image: string) {
    && |cs| == |base|
    && forall i :: 0 <= i < |base| ==>
         && cs[i].name == base[i].name && cs[i].args == base[i].args
         && cs[i].image == if base[i].name == container then image else base[i].image
  }

  /** Labels like the base's, but for `app`, which is set. */
  predicate OnlyApp(base: Option<Labels>, l: Option<Labels>, name: string) {
    && l.Some? && "app" in l.value && l.value["app"] == name
    && (base.None? ==> l.value.Keys == {"app"})
    && (base.Some? ==>
         && l.value.Keys == base.value.Keys + {"app"}
         && forall k :: k in base.value && k != "app" ==> l.value[k] == base.value[k])
  }

  /**
   * What a version is given: the objects are of the four kinds and called what the call looks for; the Deployment is the
   * base's, with this version's image in the browser's container and in no other; the Job is the base's but for its
   * arguments; labels and selectors are the base's with `app` set to the version's name.
   */
  lemma PlanOfVersion(b: Browser, tag: string, limits: Limits)
    requires b.base.Valid()
    ensures var p := PlanOf(b, tag, limits);
      && p.dep.DeploymentM? && p.svc.ServiceM? && p.net.NetworkPolicyM? && p.smoke.JobM?
      && KeyOf(p, Dep) == Key(Deployment, p.dep.name) == Key(Deployment, b.deployment + "-" + tag)
      && KeyOf(p, Svc) == Key(Service, p.svc.name) == Key(Service, b.deployment + "-" + tag)
      && KeyOf(p, Net) == Key(NetworkPolicy, p.net.name) == Key(NetworkPolicy, b.deployment + "-" + tag + "-lockdown")
      && KeyOf(p, Smoke) == Key(Job, p.smoke.name) == Key(Job, b.jobName + "-" + tag)
      && (forall r: Res :: SpecOf(p, r).name == KeyOf(p, r).name)
      && Reimages(b.base.deployment.containers, p.dep.containers, b.container, b.imageRepo + ":" + tag)
  {
  }

  lemma PlanKeepsTheRest(b: Browser, tag: string, limits: Limits)
    requires b.base.Valid()
    ensures var p, name := PlanOf(b, tag, limits), b.deployment + "-" + tag;
      && OnlyApp(b.base.deployment.labels, p.dep.labels, name) && OnlyApp(b.base.deployment.selector, p.dep.selector, name)
      && OnlyApp(b.base.deployment.podLabels, p.dep.podLabels, name)
      && OnlyApp(b.base.service.labels, p.svc.labels, name) && OnlyApp(b.base.service.selector, p.svc.selector, name)
      && OnlyApp(b.base.networkPolicy.selector, p.net.selector, name)
    ensures var p := PlanOf(b, tag, limits); var cs, base := p.smoke.containers, b.base.job.containers;
      |cs| == |base| && forall i :: 0 <= i < |base| ==>
        cs[i].name == base[i].name && cs[i].image == base[i].image && |cs[i].args| == |base[i].args|
  {
    var name := b.deployment + "-" + tag;
    WithAppMeaning(b.base.deployment.labels, name);
    WithAppMeaning(b.base.deployment.selector, name);
    WithAppMeaning(b.base.deployment.podLabels, name);
    WithAppMeaning(b.base.service.labels, name);
    WithAppMeaning(b.base.service.selector, name);
    WithAppMeaning(b.base.networkPolicy.selector, name);
  }

  lemma WithAppMeaning(l: Option<Labels>, name: string)
    ensures OnlyApp(l, WithApp(l, name), name)
  {
  }

  /** Different versions run different images. */
  lemma VersionsRunTheirOwnImage(b: Browser, s: string, t: string, limits: Limits, i: nat)
    requires b.base.Valid() && s != t && i < |b.base.deployment.containers| && b.base.deployment.containers[i].name == b.container
    ensures PlanOf(b, s, limits).dep.containers[i].image != PlanOf(b, t, limits).dep.containers[i].image
  {
    PlanOfVersion(b, s, limits);
    PlanOfVersion(b, t, limits);
    var n := |b.imageRepo| + 1;
    assert (b.imageRepo + ":" + s)[n..] == s && (b.imageRepo + ":" + t)[n..] == t;
  }

  predicate NoDup<T(==)>(xs: seq<T>) {
    forall i, j :: 0 <= i < j < |xs| ==> xs[i] != xs[j]
  }

  lemma VersionedNamesInjective(base: string, s: string, t: string, suffix: string)
    ensures VersionedName(base, s) + suffix == VersionedName(base, t) + suffix <==> s == t
    ensures VersionedName(base, s) == VersionedName(base, t) <==> s == t
  {
    var a, b := VersionedName(base, s) + suffix, VersionedName(base, t) + suffix;
    assert s == a[|base| + 1..|a| - |suffix|];
    assert t == b[|base| + 1..|b| - |suffix|];
    assert s == VersionedName(base, s)[|base| + 1..];
    assert t == VersionedName(base, t)[|base| + 1..];
  }

  /** Different tags of one browser never share a name, whatever the tags are. */
  lemma TagsAreDisjoint(b: Browser, s: string, t: string, limits: Limits)
    requires b.base.Valid() && s != t
    ensures Disjoint(PlanOf(b, s, limits), PlanOf(b, t, limits))
  {
    VersionedNamesInjective(b.deployment, s, t, "-lockdown");
    VersionedNamesInjective(b.jobName, s, t, "");
    forall r: Res, q: Res
      ensures KeyOf(PlanOf(b, s, limits), r) != KeyOf(PlanOf(b, t, limits), q)
    {
    }
  }

  lemma BrowserIsDisjoint(b: Browser, limits: Limits)
    requires b.base.Valid() && NoDup(b.versions)
    ensures AllDisjoint(PlansOf(b, limits))
  {
    forall i, j | 0 <= i < |b.versions| && 0 <= j < |b.versions| && i != j
      ensures Disjoint(PlansOf(b, limits)[i], PlansOf(b, limits)[j])
    {
      assert b.versions[i] != b.versions[j] by {
        if i < j { assert b.versions[i] != b.versions[j]; } else { assert b.versions[j] != b.versions[i]; }
      }
      TagsAreDisjoint(b, b.versions[i], b.versions[j], limits);
    }
  }

  // ---- The matrix ----

  datatype Label = Label(policy: string, browser: string, tag: string)

  function Row(policy: string, b: Browser): seq<Label> {
    seq(|b.versions|, i requires 0 <= i < |b.versions| => Label(policy, b.name, b.versions[i]))
  }

  function Block(policy: string, browsers: seq<Browser>): seq<Label> {
    if browsers == [] then []
    else Block(policy, browsers[..|browsers| - 1]) + Row(policy, browsers[|browsers| - 1])
  }

  /** Every (policy, browser, tag), policies outermost, each in configuration order. */
  function Cube(policies: seq<Policy>, browsers: seq<Browser>): seq<Label> {
    if policies == [] then []
    else Cube(policies[..|policies| - 1], browsers) + Block(policies[|policies| - 1].name, browsers)
  }

  function LabelOf(r: Result): Label {
    Label(r.policy, r.browser, r.tag)
  }

  function LabelsOf(rs: seq<Result>): seq<Label> {
    seq(|rs|, i requires 0 <= i < |rs| => LabelOf(rs[i]))
  }

  predicate DistinctBrowsers(browsers: seq<Browser>) {
    forall i, j :: 0 <= i < j < |browsers| ==> browsers[i].name != browsers[j].name
  }

  predicate DistinctPolicies(policies: seq<Policy>) {
    forall i, j :: 0 <= i < j < |policies| ==> policies[i].name != policies[j].name
  }

  lemma {:induction false} BlockLabel(policy: string, browsers: seq<Browser>, i: nat) returns (j: nat)
    requires i < |Block(policy, browsers)|
    ensures j < |browsers| && Block(policy, browsers)[i].browser == browsers[j].name
    ensures Block(policy, browsers)[i].policy == policy && Block(policy, browsers)[i].tag in browsers[j].versions
  {
    var n := |browsers| - 1;
    if i < |Block(policy, browsers[..n])| { j := BlockLabel(policy, browsers[..n], i); } else { j := n; }
  }

  /** Which policy and which browser a cell of the matrix belongs to. */
  lemma {:induction false} CubeLabel(policies: seq<Policy>, browsers: seq<Browser>, i: nat) returns (j: nat, k: nat)
    requires i < |Cube(policies, browsers)|
    ensures j < |policies| && Cube(policies, browsers)[i].policy == policies[j].name
    ensures k < |browsers| && Cube(policies, browsers)[i].browser == browsers[k].name
    ensures Cube(policies, browsers)[i].tag in browsers[k].versions
  {
    var n := |policies| - 1;
    var m := |Cube(policies[..n], browsers)|;
    if i < m {
      j, k := CubeLabel(policies[..n], browsers, i);
    } else {
      j := n;
      k := BlockLabel(policies[n].name, browsers, i - m);
    }
  }

  /** How many versions the browsers have between them. */
  function Width(browsers: seq<Browser>): nat {
    if browsers == [] then 0 else Width(browsers[..|browsers| - 1]) + |browsers[|browsers| - 1].versions|
  }

  lemma {:induction false} BlockWidth(policy: string, browsers: seq<Browser>)
    ensures |Block(policy, browsers)| == Width(browsers)
  {
    if browsers != [] { BlockWidth(policy, browsers[..|browsers| - 1]); }
  }

  /** Where the block of policy j begins. */
  function BlockStart(browsers: seq<Browser>, j: nat): nat {
    if j == 0 then 0 else BlockStart(browsers, j - 1) + Width(browsers)
  }

  lemma {:induction false} CubeSize(policies: seq<Policy>, browsers: seq<Browser>)
    ensures |Cube(policies, browsers)| == BlockStart(browsers, |policies|)
  {
    if policies != [] {
      CubeSize(policies[..|policies| - 1], browsers);
      BlockWidth(policies[|policies| - 1].name, browsers);
    }
  }

  predicate CellAt(cells: seq<Label>, n: nat, l: Label) {
    n < |cells| && cells[n] == l
  }

  lemma CellInFront(a: seq<Label>, b: seq<Label>, n: nat, l: Label)
    requires CellAt(a, n, l)
    ensures CellAt(a + b, n, l)
  {
  }

  lemma CellBehind(a: seq<Label>, b: seq<Label>, n: nat, l: Label)
    requires CellAt(b, n, l)
    ensures CellAt(a + b, |a| + n, l)
  {
  }

  lemma {:induction false} BlockAt(policy: string, browsers: seq<Browser>, k: nat, i: nat)
    requires k < |browsers| && i < |browsers[k].versions|
    ensures CellAt(Block(policy, browsers), Width(browsers[..k]) + i, Label(policy, browsers[k].name, browsers[k].versions[i]))
  {
    var n := |browsers| - 1;
    var l := Label(policy, browsers[k].name, browsers[k].versions[i]);
    var front, row := Block(policy, browsers[..n]), Row(policy, browsers[n]);
    if k < n {
      BlockAt(policy, browsers[..n], k, i);
      assert browsers[..n][..k] == browsers[..k];
      CellInFront(front, row, Width(browsers[..k]) + i, l);
    } else {
      BlockWidth(policy, browsers[..n]);
      CellBehind(front, row, i, l);
    }
  }

  lemma {:induction false} CubeBlock(policies: seq<Policy>, browsers: seq<Browser>, j: nat, x: nat, l: Label)
    requires j < |policies| && CellAt(Block(policies[j].name, browsers), x, l)
    ensures CellAt(Cube(policies, browsers), BlockStart(browsers, j) + x, l)
  {
    var n := |policies| - 1;
    var front, block := Cube(policies[..n], browsers), Block(policies[n].name, browsers);
    if j < n {
      CubeBlock(policies[..n], browsers, j, x, l);
      CellInFront(front, block, BlockStart(browsers, j) + x, l);
    } else {
      CubeSize(policies[..n], browsers);
      CellBehind(front, block, x, l);
    }
  }

  /**
   * The matrix, cell by cell: policies outermost, then browsers, then versions, each in the order given. With CubeSize:
   * one cell for each policy, browser and version, and no more.
   */
  lemma CubeAt(policies: seq<Policy>, browsers: seq<Browser>, j: nat, k: nat, i: nat, x: nat, l: Label)
    requires j < |policies| && k < |browsers| && i < |browsers[k].versions| && x == Width(browsers[..k]) + i
    requires l == Label(policies[j].name, browsers[k].name, browsers[k].versions[i])
    ensures CellAt(Cube(policies, browsers), BlockStart(browsers, j) + x, l)
  {
    BlockAt(policies[j].name, browsers, k, i);
    CubeBlock(policies, browsers, j, x, l);
  }

  /** Without policies there is one pass, under no policy's name; otherwise one for each, in the order given. */
  lemma PassesMeaning(cfg: Config)
    ensures if cfg.policies == [] then |Passes(cfg)| == 1 && Passes(cfg)[0].name == "" else Passes(cfg) == cfg.policies
  {
  }

  lemma NoDupJoin<T>(a: seq<T>, b: seq<T>)
    requires NoDup(a) && NoDup(b) && forall i, j :: 0 <= i < |a| && 0 <= j < |b| ==> a[i] != b[j]
    ensures NoDup(a + b)
  {
  }

  lemma {:induction false} BlockHasNoDup(policy: string, browsers: seq<Browser>)
    requires DistinctBrowsers(browsers) && forall b :: b in browsers ==> NoDup(b.versions)
    ensures NoDup(Block(policy, browsers))
  {
    if browsers != [] {
      var n := |browsers| - 1;
      var a, row := Block(policy, browsers[..n]), Row(policy, browsers[n]);
      BlockHasNoDup(policy, browsers[..n]);
      assert NoDup(browsers[n].versions);
      forall i, j | 0 <= i < |a| && 0 <= j < |row| ensures a[i] != row[j] {
        var k := BlockLabel(policy, browsers[..n], i);
        assert a[i].browser == browsers[k].name;
      }
      NoDupJoin(a, row);
    }
  }

  /** With distinct names and tags, no cell of the matrix occurs twice. */
  lemma {:induction false} CubeHasNoDup(policies: seq<Policy>, browsers: seq<Browser>)
    requires DistinctPolicies(policies) && DistinctBrowsers(browsers) && forall b :: b in browsers ==> NoDup(b.versions)
    ensures NoDup(Cube(policies, browsers))
  {
    if policies != [] {
      var n := |policies| - 1;
      var a, block := Cube(policies[..n], browsers), Block(policies[n].name, browsers);
      CubeHasNoDup(policies[..n], browsers);
      BlockHasNoDup(policies[n].name, browsers);
      forall i, j | 0 <= i < |a| && 0 <= j < |block| ensures a[i] != block[j] {
        var k, _ := CubeLabel(policies[..n], browsers, i);
        var _ := BlockLabel(policies[n].name, browsers, j);
        assert a[i].policy == policies[k].name;
      }
      NoDupJoin(a, block);
    }
  }

  /** No identity is ever taken back. */
  ghost predicate Grown(s: Cells, t: Cells) {
    forall k: Key :: At(s, k).born <= At(t, k).born
  }
}
