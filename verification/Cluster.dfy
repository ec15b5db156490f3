/**
 * `Cluster`: the namespace and the shared Anubis Deployment behind the API. Every call may be refused or
 * lose its reply, every wait may end early, and the cluster works on between any two calls.
 */
module Cluster {
  import opened Manifests
  import opened Store
  import opened Worker
  import opened Anubis
  import opened PodTemplates
  import opened Matrix

  /** Some write to one object, or the end of its deletion. */
  function Written(s: Cells, k: Key, what: int, spec: Manifest, status: ObjStatus): (t: Cells)
    ensures At(s, k).born <= At(t, k).born && forall q: Key :: q != k ==> At(t, q) == At(s, q)
  {
    if what == 0 then Marked(s, k)
    else if what == 1 then Reaped(s, k)
    else if what == 2 then Reported(s, k, status)
    else if Exists(s, k) then Updated(s, k, spec) else Created(s, k, spec)
  }

  /** What one poll of the pod found. */
  datatype Poll = Unanswered | Waiting | PodRunning

  /** The polls that end in success: the pod is found Running, and no poll before that failed. */
  predicate SeenRunning(polls: seq<Poll>) {
    polls != [] && polls[|polls| - 1] == PodRunning && forall i :: 0 <= i < |polls| - 1 ==> polls[i] == Waiting
  }

  /** What EnsureCollector was answered: its delete, whether the old pod went and was seen gone, its create, its polls. */
  datatype Answers = Answers(delete: Fault, reaped: bool, seenGone: bool, create: Fault, polls: seq<Poll>)

  /** What EnsureCollector does under these answers. */
  function Collected(s: Cells, k: Key, a: Answers): (bool, Cells) {
    var stale := Exists(s, k);
    var s1 := if a.delete == Refused then s else Marked(s, k);
    var s2 := if a.delete == Granted && stale && a.reaped then Reaped(s1, k) else s1;
    if a.delete != Granted || (stale && !(a.reaped && a.seenGone)) then (false, s2)
    else
      var s3 := if a.create == Refused || Exists(s2, k) then s2 else Created(s2, k, PodM(k.name));
      (a.create == Granted && SeenRunning(a.polls), s3)
  }

  /**
   * When does a failed call leave a new pod behind, which nothing will remove? Exactly when it got as far as a
   * create that took effect: either its reply was lost, or the pod was not seen Running in time.
   */
  lemma CollectorIsLeftBehind(s: Cells, k: Key, a: Answers)
    ensures var (ok, t) := Collected(s, k, a);
      !ok && At(t, k).born == At(s, k).born + 1 && Exists(t, k)
      <==> a.delete == Granted && (Exists(s, k) ==> a.reaped && a.seenGone)
           && (a.create == Lost || (a.create == Granted && !SeenRunning(a.polls)))
  {
  }

  /** For instance: an empty name, everything granted, and a pod that does not come up. */
  lemma PodThatNeverRuns(k: Key)
    ensures var (ok, t) := Collected(map[], k, Answers(Granted, false, false, Granted, [Waiting])); !ok && Exists(t, k)
  {
    CollectorIsLeftBehind(map[], k, Answers(Granted, false, false, Granted, [Waiting]));
  }

  class Cluster {
    const container: string   // the Anubis container
    var cells: Cells
    var anubis: Anubis
    ghost var restores: nat   // RestorePodTemplate attempts
    ghost var removals: nat   // DeleteCollector attempts

    /** No one else writes here: ConfigMaps are not being deleted, and the controller keeps its contract. */
    ghost predicate Valid()
      reads this
    {
      && Honest(anubis)
      && (forall name: string :: var c := At(cells, Key(ConfigMap, name)); c.obj.Some? ==> !c.obj.value.terminating)
    }

    /** The pods run the template. */
    ghost predicate Steady()
      reads this
    {
      anubis.live == anubis.template
    }

    constructor (container: string, cells: Cells, anubis: Anubis)
      ensures this.container == container && this.cells == cells && this.anubis == anubis
      ensures restores == 0 && removals == 0
    {
      this.container, this.cells, this.anubis := container, cells, anubis;
      restores, removals := 0, 0;
    }

    /** The cluster turns Anubis pods over for a while. */
    method Settle()
      requires Valid()
      modifies this`anubis
      ensures Valid()
      ensures anubis.template == old(anubis.template) && anubis.rollout.generation == old(anubis.rollout.generation)
      ensures forall cm :: Unwired(old(anubis), container, cm) ==> Unwired(anubis, container, cm)
      ensures Reaches(old(anubis), anubis, cells, container) && Drifted(old(anubis), anubis, cells, container)
      ensures old(HasContainer(anubis.template, container)) ==>
        forall cm :: old(Fresh(anubis, container, cm, RulesetOf(cells, cm))) ==> Fresh(anubis, container, cm, RulesetOf(cells, cm))
    {
      var n := AnyNumber();
      ghost var ts: seq<Turnover> := [];
      for i := 0 to n
        invariant Valid() && Turns(old(anubis), cells, container, ts) == anubis
        invariant anubis.template == old(anubis.template) && anubis.rollout.generation == old(anubis.rollout.generation)
        invariant forall cm :: Unwired(old(anubis), container, cm) ==> Unwired(anubis, container, cm)
        invariant Drifted(old(anubis), anubis, cells, container)
        invariant HasContainer(anubis.template, container) ==>
          forall cm :: old(Fresh(anubis, container, cm, RulesetOf(cells, cm))) ==> Fresh(anubis, container, cm, RulesetOf(cells, cm))
      {
        var t: Turnover := *;
        ghost var a := anubis;
        TurnDrifts(old(anubis), anubis, cells, container, t);
        assert (ts + [t])[..|ts|] == ts;
        ts := ts + [t];
        anubis := Turn(anubis, cells, container, t);
        if HasContainer(anubis.template, container) {
          forall cm: string
            ensures Fresh(a, container, cm, RulesetOf(cells, cm)) ==> Fresh(anubis, container, cm, RulesetOf(cells, cm))
          {
            TurnKeeps(a, cells, container, cm, t);
          }
        }
      }
    }

    /** An update of the Anubis Deployment's pod template. */
    method UpdateTemplate(t: Template) returns (ok: bool)
      requires Valid()
      modifies this`anubis
      ensures Valid()
      ensures anubis == old(anubis) || anubis == SetTemplate(old(anubis), t)
      ensures ok ==> anubis == SetTemplate(old(anubis), t)
    {
      var f: Fault := *;
      if f != Refused { anubis := SetTemplate(anubis, t); }
      ok := f == Granted;
    }

    /** A read that may fail; the caller looks at the fields itself. */
    method Get() returns (ok: bool)
      requires Valid()
      modifies this`anubis
      ensures Valid()
      ensures anubis.template == old(anubis.template)
      ensures forall cm :: Unwired(old(anubis), container, cm) ==> Unwired(anubis, container, cm)
      ensures old(HasContainer(anubis.template, container)) ==>
        forall cm :: old(Fresh(anubis, container, cm, RulesetOf(cells, cm))) ==> Fresh(anubis, container, cm, RulesetOf(cells, cm))
    {
      Settle();
      ok := *;
    }

    /** The Deployment as the API hands it out: an object of the caller's own. */
    method Fetch() returns (ok: bool, d: PodTemplate)
      requires Valid()
      modifies this`anubis
      ensures Valid() && New(d) && d.Valid() && d.Value() == anubis.template
      ensures anubis.template == old(anubis.template)
      ensures forall cm :: Unwired(old(anubis), container, cm) ==> Unwired(anubis, container, cm)
      ensures old(HasContainer(anubis.template, container)) ==>
        forall cm :: old(Fresh(anubis, container, cm, RulesetOf(cells, cm))) ==> Fresh(anubis, container, cm, RulesetOf(cells, cm))
    {
      ok := Get();
      d := Decoded(anubis.template);
    }

    method SetAnubisPolicy(configMap: string) returns (ok: bool)
      requires Valid()
      modifies this`anubis
      ensures Valid()
      ensures anubis.template in {old(anubis.template), Wire(old(anubis.template), container, configMap)}
      ensures ok ==> HasContainer(anubis.template, container)
      ensures ok ==> anubis.template == Wire(old(anubis.template), container, configMap)
      ensures forall cm :: cm != configMap && Unwired(old(anubis), container, cm) ==> Unwired(anubis, container, cm)
      ensures ok && old(Fresh(anubis, container, configMap, RulesetOf(cells, configMap))) ==>
        Fresh(anubis, container, configMap, RulesetOf(cells, configMap))
    {
      var d;
      ok, d := Fetch();
      if !ok { return; }
      ghost var t := anubis.template;
      var found := d.SetPolicy(container, configMap);
      if !found { return false; }
      var wired := d.Value();
      WirePointsAtIt(t, container, configMap);
      WireTwice(t, container, configMap, configMap);
      assert wired == Wire(t, container, configMap) && Source(wired, container) == configMap;
      Settle();
      assert forall cm :: Unwired(old(anubis), container, cm) ==> Unwired(anubis, container, cm);
      ghost var before := anubis;
      ok := UpdateTemplate(wired);
      assert anubis.live == before.live;
      forall cm | cm != configMap && Unwired(old(anubis), container, cm) ensures Unwired(anubis, container, cm) {
        assert Source(before.template, container) != cm && Source(before.live, container) != cm;
      }
    }

    /** A deep copy, so that nothing done to any Deployment object later reaches it. */
    method SnapshotPodTemplate() returns (r: PodTemplate?)
      requires Valid()
      modifies this`anubis
      ensures Valid()
      ensures anubis.template == old(anubis.template)
      ensures r != null ==> New(r) && r.Valid() && r.Value() == old(anubis.template)
      ensures forall cm :: Unwired(old(anubis), container, cm) ==> Unwired(anubis, container, cm)
    {
      var ok, d := Fetch();
      if !ok { return null; }
      r := d.DeepCopy();
    }

    method RestorePodTemplate(t: PodTemplate) returns (ok: bool)
      requires Valid() && t.Valid()
      modifies this`anubis, this`restores
      ensures Valid()
      ensures restores == old(restores) + 1
      ensures anubis.template in {old(anubis.template), t.Value()}
      ensures ok ==> anubis.template == t.Value()
    {
      restores := restores + 1;
      ok := Get();
      if !ok { return; }
      Settle();
      ok := UpdateTemplate(t.Value());
    }

    method SetImage(image: string) returns (ok: bool)
      requires Valid()
      modifies this`anubis
      ensures Valid()
      ensures anubis.template == old(anubis.template) || OnlyReimages(old(anubis.template), anubis.template, container, image)
      ensures ok ==> OnlyReimages(old(anubis.template), anubis.template, container, image)
      ensures forall cm :: cm != "" && Unwired(old(anubis), container, cm) ==> Unwired(anubis, container, cm)
    {
      Settle();
      ImageKeepsSource(anubis.template, container, image);
      ImagedMeaning(anubis.template, container, image);
      ok := UpdateTemplate(Imaged(anubis.template, container, image));
    }

    /** WaitDeploymentReady on the Anubis Deployment. */
    method WaitReady(polls: nat) returns (ok: bool)
      requires Valid()
      modifies this`anubis
      ensures Valid()
      ensures anubis.template == old(anubis.template)
      ensures ok ==> anubis.rollout.Ready() && anubis.live == anubis.template
      ensures forall cm :: Unwired(old(anubis), container, cm) ==> Unwired(anubis, container, cm)
      ensures old(HasContainer(anubis.template, container)) ==>
        forall cm :: old(Fresh(anubis, container, cm, RulesetOf(cells, cm))) ==> Fresh(anubis, container, cm, RulesetOf(cells, cm))
    {
      for i := 0 to polls + 1
        invariant Valid()
        invariant anubis.template == old(anubis.template)
        invariant forall cm :: Unwired(old(anubis), container, cm) ==> Unwired(anubis, container, cm)
        invariant old(HasContainer(anubis.template, container)) ==>
          forall cm :: old(Fresh(anubis, container, cm, RulesetOf(cells, cm))) ==> Fresh(anubis, container, cm, RulesetOf(cells, cm))
      {
        ok := Get();
        if !ok { return; }
        if anubis.rollout.Ready() { return true; }
      }
      return false;
    }

    /** Get, then create or update in place; a ConfigMap is never deleted here. */
    method CreateOrReplaceConfigMap(name: string, ruleset: string) returns (ok: bool)
      requires Valid()
      modifies this`anubis, this`cells
      ensures Valid()
      ensures anubis.template == old(anubis.template)
      ensures forall cm :: Unwired(old(anubis), container, cm) ==> Unwired(anubis, container, cm)
      ensures forall k: Key :: k != Key(ConfigMap, name) ==> At(cells, k) == old(At(cells, k))
      ensures Grown(old(cells), cells)
      ensures ok ==> RulesetOf(cells, name) == ruleset
    {
      var k := Key(ConfigMap, name);
      ok := Get();
      if !ok { return; }
      Settle();
      var f: Fault := *;
      if f != Refused {
        cells := if Exists(cells, k) then Updated(cells, k, ConfigMapM(name, ruleset)) else Created(cells, k, ConfigMapM(name, ruleset));
      }
      ok := f == Granted;
    }

    /** Whatever another sweep and the cluster do to the namespace meanwhile. */
    method Churn()
      requires Valid()
      modifies this`anubis, this`cells
      ensures Valid() && anubis.template == old(anubis.template) && Grown(old(cells), cells)
    {
      var n := AnyNumber();
      for i := 0 to n
        invariant Valid() && anubis.template == old(anubis.template) && Grown(old(cells), cells)
      {
        var k: Key, spec: Manifest, text: string, status: ObjStatus, what: int := *, *, *, *, *;
        if k.kind == ConfigMap {
          var _ := CreateOrReplaceConfigMap(k.name, text);
        } else {
          cells := Written(cells, k, what, spec, status);
        }
      }
    }

    /** Polls until the object is gone; the cluster may finish the deletion at any moment. */
    method WaitGone(k: Key, polls: nat) returns (ok: bool)
      requires Valid() && k.kind != ConfigMap
      modifies this`cells
      ensures Valid()
      ensures cells == old(cells) || cells == Reaped(old(cells), k)
      ensures ok ==> !Exists(cells, k)
    {
      for i := 0 to polls + 1
        invariant Valid()
        invariant cells == old(cells) || cells == Reaped(old(cells), k)
      {
        var reap: bool := *;
        if reap { cells := Reaped(cells, k); }
        var f: Fault := *;
        if f != Granted { return false; }
        if !Exists(cells, k) { return true; }
      }
      return false;
    }

    /** Replaces a stale collector pod and waits until a poll finds the new one Running. */
    method EnsureCollector(name: string, polls: nat) returns (ok: bool, ghost answers: Answers)
      requires Valid()
      modifies this`cells
      ensures Valid()
      ensures (ok, cells) == Collected(old(cells), Key(Pod, name), answers)
      ensures forall q: Key :: q != Key(Pod, name) ==> At(cells, q) == old(At(cells, q))
      ensures Grown(old(cells), cells)
      ensures ok ==> SeenRunning(answers.polls)
      ensures |answers.polls| <= polls + 1
      ensures ok ==> At(cells, Key(Pod, name)).obj.Some? && At(cells, Key(Pod, name)).obj.value.spec == PodM(name)
      ensures ok ==> At(cells, Key(Pod, name)).born == old(At(cells, Key(Pod, name)).born) + 1
    {
      var k := Key(Pod, name);
      var f: Fault := *;
      answers := Answers(f, false, false, Refused, []);
      var stale := Exists(cells, k);
      if f != Refused { cells := Marked(cells, k); }
      if f != Granted { return false, answers; }
      if stale {
        ghost var marked := cells;
        ok := WaitGone(k, polls);
        answers := answers.(reaped := cells != marked, seenGone := ok);
        if !ok { return; }
      }
      f := *;
      answers := answers.(create := f);
      if f != Refused && !Exists(cells, k) { cells := Created(cells, k, PodM(name)); }
      if f != Granted { return false, answers; }
      ghost var seen;
      ok, seen := WaitRunning(polls);
      answers := answers.(polls := seen);
    }

    /** Polls the pod's phase until it is Running, a poll fails, or the budget is spent. */
    method WaitRunning(polls: nat) returns (running: bool, ghost seen: seq<Poll>)
      ensures running <==> SeenRunning(seen)
      ensures |seen| <= polls + 1 && (|seen| < polls + 1 ==> seen != [] && seen[|seen| - 1] != Waiting)
    {
      seen := [];
      for i := 0 to polls + 1
        invariant |seen| == i && forall k :: 0 <= k < i ==> seen[k] == Waiting
      {
        var poll: Poll := *;
        seen := seen + [poll];
        if poll != Waiting { return poll == PodRunning, seen; }
      }
      return false, seen;
    }

    method DeleteCollector(name: string) returns (ok: bool)
      requires Valid()
      modifies this`cells, this`removals
      ensures Valid()
      ensures forall q: Key :: q != Key(Pod, name) ==> At(cells, q) == old(At(cells, q))
      ensures Grown(old(cells), cells)
      ensures removals == old(removals) + 1
      ensures cells == old(cells) || cells == Marked(old(cells), Key(Pod, name))
      ensures ok ==> cells == Marked(old(cells), Key(Pod, name))
    {
      removals := removals + 1;
      var f: Fault := *;
      if f != Refused { cells := Marked(cells, Key(Pod, name)); }
      ok := f == Granted;
    }
  }
}
