/** The Kubernetes objects a sweep handles, as values, and what retargeting makes of them. */
module Manifests {

  datatype Option<+T> = None | Some(value: T)

  type Labels = map<string, string>

  datatype Container = Container(name: string, image: string, args: seq<string>)

  datatype Manifest =
    | DeploymentM(name: string, labels: Option<Labels>, selector: Option<Labels>, podLabels: Option<Labels>,
                  containers: seq<Container>)
    | ServiceM(name: string, labels: Option<Labels>, selector: Option<Labels>)
    | NetworkPolicyM(name: string, selector: Option<Labels>)
    | JobM(name: string, containers: seq<Container>)
    | ConfigMapM(name: string, ruleset: string)
    | PodM(name: string)

  function VersionedName(base: string, tag: string): string {
    base + "-" + tag
  }

  /** Labels with `app` set; a missing map is created first. */
  function WithApp(l: Option<Labels>, name: string): Option<Labels> {
    Some((if l.Some? then l.value else map[])["app" := name])
  }

  /** Every container of that name gets the image. */
  function Reimaged(cs: seq<Container>, container: string, image: string): seq<Container> {
    seq(|cs|, i requires 0 <= i < |cs| => if cs[i].name == container then cs[i].(image := image) else cs[i])
  }

  function RetargetedDeployment(m: Manifest, name: string, container: string, image: string): Manifest
    requires m.DeploymentM?
  {
    DeploymentM(name, WithApp(m.labels, name), WithApp(m.selector, name), WithApp(m.podLabels, name),
                Reimaged(m.containers, container, image))
  }

  function RetargetedService(m: Manifest, name: string): Manifest
    requires m.ServiceM?
  {
    ServiceM(name, WithApp(m.labels, name), WithApp(m.selector, name))
  }

  function RetargetedNetworkPolicy(m: Manifest, name: string): Manifest
    requires m.NetworkPolicyM?
  {
    NetworkPolicyM(name + "-lockdown", WithApp(m.selector, name))
  }

  predicate HasSuffix(s: string, suffix: string) {
    |s| >= |suffix| && s[|s| - |suffix|..] == suffix
  }

  /** strings.ReplaceAll: leftmost, non-overlapping. */
  function ReplaceAll(s: string, old_: string, new_: string): string
    requires old_ != ""
    decreases |s|
  {
    if s == "" then ""
    else if old_ <= s then new_ + ReplaceAll(s[|old_|..], old_, new_)
    else [s[0]] + ReplaceAll(s[1..], old_, new_)
  }

  function CdpHost(host: string): (h: string)
    ensures h != ""
  {
    host + ":9222"
  }

  function RehostedArgs(args: seq<string>, baseHost: string, host: string): seq<string> {
    seq(|args|, i requires 0 <= i < |args| => ReplaceAll(args[i], CdpHost(baseHost), CdpHost(host)))
  }

  function RetargetedJob(m: Manifest, name: string, baseHost: string, host: string): Manifest
    requires m.JobM?
  {
    JobM(name, seq(|m.containers|, i requires 0 <= i < |m.containers| =>
      m.containers[i].(args := RehostedArgs(m.containers[i].args, baseHost, host))))
  }
}
