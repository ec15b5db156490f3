/** What the sweep sees of one Kubernetes namespace: objects that are deleted asynchronously. */
module Store {
  import opened Manifests

  datatype Kind = Deployment | Service | NetworkPolicy | Job | ConfigMap | Pod

  datatype Key = Key(kind: Kind, name: string)

  /** The counters `kubectl rollout status` looks at; no replica count means one replica. */
  datatype Rollout = Rollout(replicas: Option<int>, generation: int, observed: int, updated: int,
                             available: int, unavailable: int)
  {
    predicate Ready() {
      var desired := if replicas.Some? then replicas.value else 1;
      generation == observed && updated == desired && available == desired && unavailable == 0
    }
  }

  /** A pod of a Deployment, as far as its counters go: of which template generation, and whether it is available. */
  datatype PodView = PodView(generation: int, available: bool)

  /** The pods that run the current template, or those that are available. */
  function CountPods(pods: seq<PodView>, which: PodView -> bool): nat {
    if pods == [] then 0 else CountPods(pods[..|pods| - 1], which) + if which(pods[|pods| - 1]) then 1 else 0
  }

  lemma {:induction false} CountsAll(pods: seq<PodView>, which: PodView -> bool)
    ensures CountPods(pods, which) <= |pods|
    ensures CountPods(pods, which) == |pods| <==> forall i :: 0 <= i < |pods| ==> which(pods[i])
  {
    if pods != [] {
      var n := |pods| - 1;
      CountsAll(pods[..n], which);
      assert forall i :: 0 <= i < n ==> pods[..n][i] == pods[i];
    }
  }

  /** The counters say what the pods are: this many of the current template, this many available, the rest not. */
  predicate Counts(r: Rollout, pods: seq<PodView>) {
    && r.updated == CountPods(pods, (p: PodView) => p.generation == r.generation)
    && r.available == CountPods(pods, (p: PodView) => p.available)
    && r.unavailable == |pods| - r.available
  }

  /**
   * What a complete rollout means: the controller has seen the current generation, and there are exactly as many pods
   * as wanted (one, when nothing is said), each of the current template and available.
   */
  lemma ReadyMeansAllPods(r: Rollout, pods: seq<PodView>)
    requires Counts(r, pods)
    ensures r.Ready() <==>
      && r.observed == r.generation
      && |pods| == (match r.replicas case Some(n) => n case None => 1)
      && forall i :: 0 <= i < |pods| ==> pods[i].generation == r.generation && pods[i].available
  {
    CountsAll(pods, (p: PodView) => p.generation == r.generation);
    CountsAll(pods, (p: PodView) => p.available);
  }

  datatype ConditionType = Complete | Failed | Other

  datatype Condition = Condition(kind: ConditionType, isTrue: bool)

  /** The verdict a Job's conditions carry: the first true Complete or Failed decides. */
  function Verdict(conditions: seq<Condition>): Option<bool> {
    if conditions == [] then None
    else if conditions[0].isTrue && conditions[0].kind != Other then Some(conditions[0].kind == Complete)
    else Verdict(conditions[1..])
  }

  /** Condition i is true and says Complete, for a success, or Failed, and no true one before it says either. */
  predicate DecidesAt(conditions: seq<Condition>, i: int, succeeded: bool) {
    && 0 <= i < |conditions| && Settles(conditions[i]) && (conditions[i].kind == Complete <==> succeeded)
    && forall j :: 0 <= j < i ==> !Settles(conditions[j])
  }

  predicate Settles(c: Condition) {
    c.isTrue && (c.kind == Complete || c.kind == Failed)
  }

  ghost predicate Decides(conditions: seq<Condition>, succeeded: bool) {
    exists i :: DecidesAt(conditions, i, succeeded)
  }

  predicate Undecided(conditions: seq<Condition>) {
    forall i :: 0 <= i < |conditions| ==> !Settles(conditions[i])
  }

  lemma {:induction false} VerdictMeaning(conditions: seq<Condition>)
    ensures forall b :: Verdict(conditions) == Some(b) <==> Decides(conditions, b)
    ensures Verdict(conditions).None? <==> Undecided(conditions)
  {
    if conditions != [] {
      var rest := conditions[1..];
      VerdictMeaning(rest);
      if Settles(conditions[0]) {
        assert DecidesAt(conditions, 0, conditions[0].kind == Complete);
      } else {
        forall b ensures Decides(rest, b) <==> Decides(conditions, b) {
          if i :| DecidesAt(rest, i, b) { assert DecidesAt(conditions, i + 1, b); }
          if i :| DecidesAt(conditions, i, b) { assert DecidesAt(rest, i - 1, b); }
        }
        assert Undecided(rest) <==> Undecided(conditions) by {
          assert forall i :: 0 <= i < |rest| ==> rest[i] == conditions[i + 1];
          assert forall i :: 0 < i < |conditions| ==> conditions[i] == rest[i - 1];
        }
      }
    }
  }

  /** What Anubis answers with: the ConfigMap it is wired to and the ruleset its pods loaded from it. */
  datatype Serving = Serving(configMap: string, ruleset: string)

  /** `judged` is what Anubis was serving when the conditions were last written. */
  datatype ObjStatus = ObjStatus(rollout: Rollout, conditions: seq<Condition>, judged: Serving)

  const FRESH := ObjStatus(Rollout(None, 1, 0, 0, 0, 0), [], Serving("", ""))

  datatype Obj = Obj(spec: Manifest, terminating: bool, status: ObjStatus)

  /**
   * One (kind, name). `born` counts the objects ever created there, so `born` is the identity
   * (the UID) of the current one.
   */
  datatype Cell = Cell(born: nat, obj: Option<Obj>)

  type Cells = map<Key, Cell>

  function At(s: Cells, k: Key): Cell {
    if k in s then s[k] else Cell(0, None)
  }

  predicate Exists(s: Cells, k: Key) {
    At(s, k).obj.Some?
  }

  /** A delete the API server accepted: the object is only marked, something else removes it later. */
  function Marked(s: Cells, k: Key): Cells {
    if Exists(s, k) then s[k := At(s, k).(obj := Some(At(s, k).obj.value.(terminating := true)))] else s
  }

  /** A create the API server accepted. */
  function Created(s: Cells, k: Key, spec: Manifest): Cells {
    s[k := Cell(At(s, k).born + 1, Some(Obj(spec, false, FRESH)))]
  }

  /** An update in place: same object, new contents. */
  function Updated(s: Cells, k: Key, spec: Manifest): Cells {
    if Exists(s, k) then s[k := At(s, k).(obj := Some(At(s, k).obj.value.(spec := spec)))] else s
  }

  /** The cluster finishes a pending deletion. */
  function Reaped(s: Cells, k: Key): Cells {
    if Exists(s, k) && At(s, k).obj.value.terminating then s[k := At(s, k).(obj := None)] else s
  }

  /** A controller writes an object's status. */
  function Reported(s: Cells, k: Key, status: ObjStatus): Cells {
    if Exists(s, k) then s[k := At(s, k).(obj := Some(At(s, k).obj.value.(status := status)))] else s
  }

  /**
   * The life of an object: a create fills an empty name one identity on; a delete only marks it, whatever its status
   * and contents; only then can it go, and the name keeps its count.
   */
  lemma LifeOfAnObject(s: Cells, k: Key, spec: Manifest, status: ObjStatus)
    requires !Exists(s, k)
    ensures var made := Reported(Created(s, k, spec), k, status);
      && At(made, k) == Cell(At(s, k).born + 1, Some(Obj(spec, false, status)))
      && Reaped(made, k) == made
      && At(Marked(made, k), k) == Cell(At(s, k).born + 1, Some(Obj(spec, true, status)))
      && At(Reaped(Marked(made, k), k), k) == Cell(At(s, k).born + 1, None)
  {
  }

  /** Observational equality of two namespaces. */
  ghost predicate Same(s: Cells, t: Cells) {
    forall k: Key :: At(s, k) == At(t, k)
  }

  /** However often: the cluster does not tell. */
  method AnyNumber() returns (n: nat) {
    var i: int := *;
    n := if i < 0 then 0 else i;
  }
}
