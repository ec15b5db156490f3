/**
 * The shared Anubis Deployment: its pod template, how SetAnubisPolicy rewires it, and what the pods
 * behind it are running while the cluster rolls templates out at its own pace.
 */
module Anubis {
  import opened Manifests
  import opened Store

  datatype Named<T> = Named(name: string, body: T)

  datatype EnvBody = EnvBody(value: string, valueFrom: Option<string>)
  datatype MountBody = MountBody(path: string, readOnly: bool)
  datatype VolumeBody = FromConfigMap(configMap: string) | OtherSource(text: string)

  datatype PodContainer = PodContainer(name: string, image: string, env: seq<Named<EnvBody>>, mounts: seq<Named<MountBody>>)

  /** `rest` is everything in the pod template that nothing here looks at. */
  datatype Template = Template(containers: seq<PodContainer>, volumes: seq<Named<VolumeBody>>, rest: string)

  const POLICY_VOLUME := "anubis-policy"
  const POLICY_MOUNT := MountBody("/policy", true)
  const POLICY_ENV := "POLICY_FNAME"
  const POLICY_PATH := EnvBody("/policy/botPolicies.yaml", None)

  /** The first entry of x's name is replaced; without one, x goes to the end. */
  function Upsert<T>(xs: seq<Named<T>>, x: Named<T>): seq<Named<T>> {
    if xs == [] then [x]
    else if xs[0].name == x.name then [x] + xs[1..]
    else [xs[0]] + Upsert(xs[1..], x)
  }

  function First<T>(xs: seq<Named<T>>, name: string): Option<T> {
    if xs == [] then None else if xs[0].name == name then Some(xs[0].body) else First(xs[1..], name)
  }

  /** The entries of other names, in order. */
  function Others<T>(xs: seq<Named<T>>, name: string): seq<Named<T>> {
    if xs == [] then [] else (if xs[0].name == name then [] else [xs[0]]) + Others(xs[1..], name)
  }

  /** What an upsert does: the name now carries x, every entry of another name stays, in order. */
  lemma {:induction false} UpsertMeaning<T>(xs: seq<Named<T>>, x: Named<T>)
    ensures First(Upsert(xs, x), x.name) == Some(x.body)
    ensures Others(Upsert(xs, x), x.name) == Others(xs, x.name)
    ensures |Upsert(xs, x)| == if First(xs, x.name).Some? then |xs| else |xs| + 1
  {
    if xs != [] {
      UpsertMeaning(xs[1..], x);
      assert ([xs[0]] + Upsert(xs[1..], x))[1..] == Upsert(xs[1..], x);
    }
  }

  lemma {:induction false} UpsertLast<T>(xs: seq<Named<T>>, x: Named<T>, y: Named<T>)
    requires x.name == y.name
    ensures Upsert(Upsert(xs, x), y) == Upsert(xs, y)
  {
    if xs != [] {
      UpsertLast(xs[1..], x, y);
      assert Upsert(xs, x)[1..] == if xs[0].name == x.name then xs[1..] else Upsert(xs[1..], x);
    }
  }

  function WireContainer(c: PodContainer): PodContainer {
    c.(env := Upsert(c.env, Named(POLICY_ENV, POLICY_PATH)), mounts := Upsert(c.mounts, Named(POLICY_VOLUME, POLICY_MOUNT)))
  }

  predicate AnyNamed(cs: seq<PodContainer>, container: string) {
    exists i :: 0 <= i < |cs| && cs[i].name == container
  }

  predicate HasContainer(t: Template, container: string) {
    AnyNamed(t.containers, container)
  }

  function WiredSlots(cs: seq<PodContainer>, container: string): seq<PodContainer> {
    seq(|cs|, i requires 0 <= i < |cs| => if cs[i].name == container then WireContainer(cs[i]) else cs[i])
  }

  /** The template SetAnubisPolicy writes. */
  function Wire(t: Template, container: string, configMap: string): Template {
    t.(containers := WiredSlots(t.containers, container),
       volumes := Upsert(t.volumes, Named(POLICY_VOLUME, FromConfigMap(configMap))))
  }

  function WireAll(t: Template, container: string, configMaps: seq<string>): Template {
    if configMaps == [] then t
    else Wire(WireAll(t, container, configMaps[..|configMaps| - 1]), container, configMaps[|configMaps| - 1])
  }

  lemma WireTwice(t: Template, container: string, a: string, b: string)
    ensures Wire(Wire(t, container, a), container, b) == Wire(t, container, b)
  {
    UpsertLast(t.volumes, Named(POLICY_VOLUME, FromConfigMap(a)), Named(POLICY_VOLUME, FromConfigMap(b)));
    forall i | 0 <= i < |t.containers|
      ensures Wire(Wire(t, container, a), container, b).containers[i] == Wire(t, container, b).containers[i]
    {
      UpsertLast(t.containers[i].env, Named(POLICY_ENV, POLICY_PATH), Named(POLICY_ENV, POLICY_PATH));
      UpsertLast(t.containers[i].mounts, Named(POLICY_VOLUME, POLICY_MOUNT), Named(POLICY_VOLUME, POLICY_MOUNT));
    }
  }

  /** Any number of policies applied in a row leave exactly the template of the last one alone: nothing accumulates. */
  lemma {:induction false} LastPolicyWins(t: Template, container: string, configMaps: seq<string>)
    requires configMaps != []
    ensures WireAll(t, container, configMaps) == Wire(t, container, configMaps[|configMaps| - 1])
  {
    var n := |configMaps| - 1;
    if n > 0 {
      LastPolicyWins(t, container, configMaps[..n]);
      WireTwice(t, container, configMaps[n - 1], configMaps[n]);
    } else {
      assert WireAll(t, container, configMaps[..n]) == t;
    }
  }

  /** Only the policy's own env entry, mount and volume change, and only in the named container. */
  lemma WireTouchesOnlyThePolicy(t: Template, container: string, configMap: string)
    ensures var t' := Wire(t, container, configMap);
      && t'.rest == t.rest && |t'.containers| == |t.containers|
      && Others(t'.volumes, POLICY_VOLUME) == Others(t.volumes, POLICY_VOLUME)
      && forall i :: 0 <= i < |t.containers| ==>
           var c, c' := t.containers[i], t'.containers[i];
           if c.name != container then c' == c
           else c'.name == c.name && c'.image == c.image
                && Others(c'.env, POLICY_ENV) == Others(c.env, POLICY_ENV)
                && Others(c'.mounts, POLICY_VOLUME) == Others(c.mounts, POLICY_VOLUME)
  {
    UpsertMeaning(t.volumes, Named(POLICY_VOLUME, FromConfigMap(configMap)));
    forall i | 0 <= i < |t.containers|
      ensures Others(WireContainer(t.containers[i]).env, POLICY_ENV) == Others(t.containers[i].env, POLICY_ENV)
           && Others(WireContainer(t.containers[i]).mounts, POLICY_VOLUME) == Others(t.containers[i].mounts, POLICY_VOLUME)
    {
      UpsertMeaning(t.containers[i].env, Named(POLICY_ENV, POLICY_PATH));
      UpsertMeaning(t.containers[i].mounts, Named(POLICY_VOLUME, POLICY_MOUNT));
    }
  }

  /** The container reads its ruleset from the mounted policy volume. */
  predicate ReadsPolicy(c: PodContainer) {
    First(c.env, POLICY_ENV) == Some(POLICY_PATH) && First(c.mounts, POLICY_VOLUME) == Some(POLICY_MOUNT)
  }

  /** The ConfigMap the named container takes its ruleset from; "" when it is not wired to one. */
  function Source(t: Template, container: string): string {
    var v := First(t.volumes, POLICY_VOLUME);
    if v.Some? && v.value.FromConfigMap? && HasContainer(t, container)
       && forall i :: 0 <= i < |t.containers| && t.containers[i].name == container ==> ReadsPolicy(t.containers[i])
    then v.value.configMap else ""
  }

  /** Spelled out: the pod's policy volume is this ConfigMap, and the named container reads the file below its mount. */
  predicate ReadsFrom(t: Template, container: string, configMap: string) {
    && First(t.volumes, "anubis-policy") == Some(FromConfigMap(configMap))
    && (exists i :: 0 <= i < |t.containers| && t.containers[i].name == container)
    && forall i :: 0 <= i < |t.containers| && t.containers[i].name == container ==>
         && First(t.containers[i].env, "POLICY_FNAME") == Some(EnvBody("/policy/botPolicies.yaml", None))
         && First(t.containers[i].mounts, "anubis-policy") == Some(MountBody("/policy", true))
  }

  lemma SourceMeaning(t: Template, container: string, configMap: string)
    requires configMap != ""
    ensures Source(t, container) == configMap <==> ReadsFrom(t, container, configMap)
  {
  }

  /**
   * What wiring sets, spelled out: in the named container the environment variable names the policy file below a
   * read-only mount, and the pod's volume of that name comes from the ConfigMap.
   */
  lemma WireSets(t: Template, container: string, configMap: string)
    ensures var t' := Wire(t, container, configMap);
      && First(t'.volumes, "anubis-policy") == Some(FromConfigMap(configMap))
      && |t'.containers| == |t.containers|
      && forall i :: 0 <= i < |t.containers| && t.containers[i].name == container ==>
           && First(t'.containers[i].env, "POLICY_FNAME") == Some(EnvBody("/policy" + "/botPolicies.yaml", None))
           && First(t'.containers[i].mounts, "anubis-policy") == Some(MountBody("/policy", true))
  {
    assert "/policy" + "/botPolicies.yaml" == "/policy/botPolicies.yaml";
    UpsertMeaning(t.volumes, Named(POLICY_VOLUME, FromConfigMap(configMap)));
    forall i | 0 <= i < |t.containers| && t.containers[i].name == container
      ensures First(WireContainer(t.containers[i]).env, "POLICY_FNAME") == Some(POLICY_PATH)
           && First(WireContainer(t.containers[i]).mounts, "anubis-policy") == Some(POLICY_MOUNT)
    {
      UpsertMeaning(t.containers[i].env, Named(POLICY_ENV, POLICY_PATH));
      UpsertMeaning(t.containers[i].mounts, Named(POLICY_VOLUME, POLICY_MOUNT));
    }
  }

  lemma WirePointsAtIt(t: Template, container: string, configMap: string)
    requires HasContainer(t, container)
    ensures Source(Wire(t, container, configMap), container) == configMap
    ensures HasContainer(Wire(t, container, configMap), container)
  {
    var t' := Wire(t, container, configMap);
    UpsertMeaning(t.volumes, Named(POLICY_VOLUME, FromConfigMap(configMap)));
    var j :| 0 <= j < |t.containers| && t.containers[j].name == container;
    assert t'.containers[j].name == container;
    forall i | 0 <= i < |t'.containers| && t'.containers[i].name == container
      ensures ReadsPolicy(t'.containers[i])
    {
      UpsertMeaning(t.containers[i].env, Named(POLICY_ENV, POLICY_PATH));
      UpsertMeaning(t.containers[i].mounts, Named(POLICY_VOLUME, POLICY_MOUNT));
    }
  }

  /** The strategic-merge patch of SetImage: containers merge by name, a name not there yet is added. */
  function Imaged(t: Template, container: string, image: string): Template {
    if HasContainer(t, container) then
      t.(containers := seq(|t.containers|, i requires 0 <= i < |t.containers| =>
           if t.containers[i].name == container then t.containers[i].(image := image) else t.containers[i]))
    else t.(containers := t.containers + [PodContainer(container, image, [], [])])
  }

  /** The named container is there, and runs the image. */
  predicate RunsImage(t: Template, container: string, image: string) {
    && (exists i :: 0 <= i < |t.containers| && t.containers[i].name == container)
    && forall i :: 0 <= i < |t.containers| && t.containers[i].name == container ==> t.containers[i].image == image
  }

  /** Nothing but the image of the named container differs; if it was not there, one was added behind the others. */
  predicate OnlyReimages(t: Template, t': Template, container: string, image: string) {
    && RunsImage(t', container, image) && t'.volumes == t.volumes && t'.rest == t.rest
    && if exists i :: 0 <= i < |t.containers| && t.containers[i].name == container then
         && |t'.containers| == |t.containers|
         && forall i :: 0 <= i < |t.containers| ==>
              var c, c' := t.containers[i], t'.containers[i];
              if c.name != container then c' == c else c' == PodContainer(c.name, image, c.env, c.mounts)
       else t'.containers == t.containers + [PodContainer(container, image, [], [])]
  }

  lemma ImagedMeaning(t: Template, container: string, image: string)
    ensures OnlyReimages(t, Imaged(t, container, image), container, image)
  {
    var t' := Imaged(t, container, image);
    if HasContainer(t, container) {
      var j :| 0 <= j < |t.containers| && t.containers[j].name == container;
      assert t'.containers[j].name == container;
    } else {
      assert t'.containers[|t.containers|] == PodContainer(container, image, [], []);
    }
  }

  /** A policy change leaves the image alone. */
  lemma WireKeepsImage(t: Template, container: string, configMap: string, image: string)
    requires RunsImage(t, container, image)
    ensures RunsImage(Wire(t, container, configMap), container, image)
  {
    var j :| 0 <= j < |t.containers| && t.containers[j].name == container;
    assert Wire(t, container, configMap).containers[j].name == container;
  }

  /** Changing the image never wires the container to a ConfigMap. */
  lemma ImageKeepsSource(t: Template, container: string, image: string)
    ensures Source(Imaged(t, container, image), container) in {Source(t, container), ""}
  {
    var t' := Imaged(t, container, image);
    if HasContainer(t, container) {
      var j :| 0 <= j < |t.containers| && t.containers[j].name == container;
      assert t'.containers[j].name == container;
      forall i | 0 <= i < |t.containers|
        ensures ReadsPolicy(t'.containers[i]) == ReadsPolicy(t.containers[i])
      {
      }
    } else {
      assert t'.containers[|t.containers|] == PodContainer(container, image, [], []);
    }
  }

  // ---- The running Deployment ----

  /** `live`: the template the pods run. `loaded`: the ruleset they read when they started. */
  datatype Anubis = Anubis(template: Template, rollout: Rollout, live: Template, loaded: string)

  /** A write to the pod template; only a real change makes a new generation. */
  function SetTemplate(a: Anubis, t: Template): Anubis {
    if t == a.template then a
    else a.(template := t, rollout := a.rollout.(generation := a.rollout.generation + 1))
  }

  function RulesetOf(s: Cells, configMap: string): string {
    var c := At(s, Key(ConfigMap, configMap));
    if c.obj.Some? && c.obj.value.spec.ConfigMapM? then c.obj.value.spec.ruleset else ""
  }

  /** Pods are replaced by pods of the current template, restart, or the controller reports counters. */
  datatype Turnover = RollOut | Restart | Report(observed: int, updated: int, available: int, unavailable: int)

  /** The Deployment controller's contract: it reports a rollout complete only once the pods run the template. */
  function Turn(a: Anubis, s: Cells, container: string, t: Turnover): Anubis {
    match t
    case RollOut => a.(live := a.template, loaded := RulesetOf(s, Source(a.template, container)))
    case Restart => a.(loaded := RulesetOf(s, Source(a.live, container)))
    case Report(o, u, v, x) =>
      var r := a.rollout.(observed := o, updated := u, available := v, unavailable := x);
      if o <= r.generation && (r.Ready() ==> a.live == a.template) then a.(rollout := r) else a
  }

  function Turns(a: Anubis, s: Cells, container: string, ts: seq<Turnover>): Anubis {
    if ts == [] then a else Turn(Turns(a, s, container, ts[..|ts| - 1]), s, container, ts[|ts| - 1])
  }

  predicate Honest(a: Anubis) {
    a.rollout.observed <= a.rollout.generation && (a.rollout.Ready() ==> a.live == a.template)
  }

  function ServingOf(a: Anubis, container: string): Serving {
    Serving(Source(a.live, container), a.loaded)
  }

  /** Neither the template nor the pods take their ruleset from this ConfigMap. */
  predicate Unwired(a: Anubis, container: string, configMap: string) {
    Source(a.template, container) != configMap && Source(a.live, container) != configMap
  }

  /** What the cluster alone can do to Anubis: its pods may change, but steady pods stay as they are. */
  predicate Drifted(a: Anubis, b: Anubis, s: Cells, container: string) {
    && b.template == a.template && b.rollout.generation == a.rollout.generation
    && (Source(b.live, container) == Source(a.live, container) || Source(b.live, container) == Source(a.template, container))
    && (a.live == a.template ==> b.live == a.live)
    && (a.live == a.template && a.loaded == RulesetOf(s, Source(a.live, container)) ==> b.loaded == a.loaded)
  }

  lemma TurnDrifts(a: Anubis, b: Anubis, s: Cells, container: string, t: Turnover)
    requires Drifted(a, b, s, container)
    ensures Drifted(a, Turn(b, s, container, t), s, container)
  {
  }

  lemma DriftChain(a: Anubis, b: Anubis, c: Anubis, s: Cells, container: string)
    requires Drifted(a, b, s, container) && Drifted(b, c, s, container)
    ensures Drifted(a, c, s, container)
  {
  }

  /** `b` is what some run of turnovers makes of `a`. */
  ghost predicate Reaches(a: Anubis, b: Anubis, s: Cells, container: string) {
    exists ts: seq<Turnover> :: Turns(a, s, container, ts) == b
  }

  lemma {:induction false} TurnsChain(a: Anubis, s: Cells, container: string, ts: seq<Turnover>, us: seq<Turnover>)
    ensures Turns(Turns(a, s, container, ts), s, container, us) == Turns(a, s, container, ts + us)
  {
    if us == [] {
      assert ts + us == ts;
    } else {
      var n := |us| - 1;
      TurnsChain(a, s, container, ts, us[..n]);
      assert (ts + us)[..|ts + us| - 1] == ts + us[..n];
    }
  }

  lemma ReachesChain(a: Anubis, b: Anubis, c: Anubis, s: Cells, container: string)
    requires Reaches(a, b, s, container) && Reaches(b, c, s, container)
    ensures Reaches(a, c, s, container)
  {
    var ts: seq<Turnover> :| Turns(a, s, container, ts) == b;
    var us: seq<Turnover> :| Turns(b, s, container, us) == c;
    TurnsChain(a, s, container, ts, us);
  }

  lemma {:induction false} TurnsDrift(a: Anubis, s: Cells, container: string, ts: seq<Turnover>)
    ensures Drifted(a, Turns(a, s, container, ts), s, container)
  {
    if ts != [] {
      TurnsDrift(a, s, container, ts[..|ts| - 1]);
      TurnDrifts(a, Turns(a, s, container, ts[..|ts| - 1]), s, container, ts[|ts| - 1]);
    }
  }

  lemma ReachesDrifts(a: Anubis, b: Anubis, s: Cells, container: string)
    requires Reaches(a, b, s, container)
    ensures Drifted(a, b, s, container)
  {
    var ts: seq<Turnover> :| Turns(a, s, container, ts) == b;
    TurnsDrift(a, s, container, ts);
  }

  function Latest(start: Anubis, history: seq<Anubis>): Anubis {
    if history == [] then start else history[|history| - 1]
  }

  /** States Anubis went through by itself, one after another, from `start` on. */
  ghost predicate Timeline(start: Anubis, history: seq<Anubis>, s: Cells, container: string) {
    history == [] ||
    var n := |history| - 1;
    Timeline(start, history[..n], s, container) && Reaches(Latest(start, history[..n]), history[n], s, container)
  }

  lemma TimelineSnoc(start: Anubis, history: seq<Anubis>, now: Anubis, s: Cells, container: string)
    requires Timeline(start, history, s, container) && Reaches(Latest(start, history), now, s, container)
    ensures Timeline(start, history + [now], s, container) && Reaches(now, now, s, container)
  {
    assert (history + [now])[..|history|] == history;
    assert Turns(now, s, container, []) == now;
  }

  lemma {:induction false} TimelineDrifts(start: Anubis, history: seq<Anubis>, s: Cells, container: string, k: nat)
    requires Timeline(start, history, s, container) && k < |history|
    ensures Drifted(start, history[k], s, container)
    decreases |history|, 0
  {
    var n := |history| - 1;
    if k < n {
      TimelineDrifts(start, history[..n], s, container, k);
    } else {
      LatestDrifts(start, history[..n], s, container);
      ReachesDrifts(Latest(start, history[..n]), history[n], s, container);
      DriftChain(start, Latest(start, history[..n]), history[n], s, container);
    }
  }

  lemma LatestDrifts(start: Anubis, history: seq<Anubis>, s: Cells, container: string)
    requires Timeline(start, history, s, container)
    ensures Drifted(start, Latest(start, history), s, container)
    decreases |history|, 1
  {
    if history != [] { TimelineDrifts(start, history, s, container, |history| - 1); }
  }

  /** If the pods already run the template wired to configMap, they have read its current contents. */
  predicate Fresh(a: Anubis, container: string, configMap: string, ruleset: string) {
    a.live == Wire(a.template, container, configMap) ==> a.loaded == ruleset
  }

  lemma TurnKeeps(a: Anubis, s: Cells, container: string, configMap: string, t: Turnover)
    requires Honest(a) && HasContainer(a.template, container)
    ensures var a' := Turn(a, s, container, t);
      && Honest(a') && a'.template == a.template && a'.rollout.generation == a.rollout.generation
      && (Fresh(a, container, configMap, RulesetOf(s, configMap)) ==> Fresh(a', container, configMap, RulesetOf(s, configMap)))
  {
    WirePointsAtIt(a.template, container, configMap);
  }

  lemma {:induction false} TurnsKeep(a: Anubis, s: Cells, container: string, configMap: string, ruleset: string, ts: seq<Turnover>)
    requires Honest(a) && HasContainer(a.template, container) && RulesetOf(s, configMap) == ruleset
    ensures var a' := Turns(a, s, container, ts);
      && Honest(a') && a'.template == a.template && a'.rollout.generation == a.rollout.generation
      && (Fresh(a, container, configMap, ruleset) ==> Fresh(a', container, configMap, ruleset))
  {
    if ts != [] {
      TurnsKeep(a, s, container, configMap, ruleset, ts[..|ts| - 1]);
      TurnKeeps(Turns(a, s, container, ts[..|ts| - 1]), s, container, configMap, ts[|ts| - 1]);
    }
  }

  /** SetAnubisPolicy after the ConfigMap was written, with the cluster turning pods over before and after it. */
  function Applied(a: Anubis, s: Cells, container: string, configMap: string, before: seq<Turnover>, after: seq<Turnover>): Anubis {
    var b := Turns(a, s, container, before);
    Turns(SetTemplate(b, Wire(b.template, container, configMap)), s, container, after)
  }

  lemma AppliedIsFresh(a: Anubis, s: Cells, container: string, configMap: string, before: seq<Turnover>, after: seq<Turnover>)
    requires Honest(a) && HasContainer(a.template, container)
    requires Fresh(a, container, configMap, RulesetOf(s, configMap))
    ensures var c := Applied(a, s, container, configMap, before, after);
      && Honest(c) && c.template == Wire(a.template, container, configMap)
      && (c.rollout.Ready() ==> c.loaded == RulesetOf(s, configMap) && Source(c.live, container) == configMap)
  {
    var ruleset := RulesetOf(s, configMap);
    TurnsKeep(a, s, container, configMap, ruleset, before);
    var b := Turns(a, s, container, before);
    WirePointsAtIt(b.template, container, configMap);
    WireTwice(b.template, container, configMap, configMap);
    TurnsKeep(SetTemplate(b, Wire(b.template, container, configMap)), s, container, configMap, ruleset, after);
  }

  /**
   * When does "rollout ready" mean that the new ruleset is the one in force? Exactly when the pods were
   * not already running the wired template with an older ruleset: then the write changes nothing, no
   * generation is made, and the wait returns at once.
   */
  lemma ReadyMeansNewRuleset(a: Anubis, s: Cells, container: string, configMap: string)
    requires Honest(a) && HasContainer(a.template, container)
    ensures (forall before, after ::
               Applied(a, s, container, configMap, before, after).rollout.Ready() ==>
               Applied(a, s, container, configMap, before, after).loaded == RulesetOf(s, configMap))
        <==> !(a.live == Wire(a.template, container, configMap) && a.loaded != RulesetOf(s, configMap))
  {
    var t := Wire(a.template, container, configMap);
    if Fresh(a, container, configMap, RulesetOf(s, configMap)) {
      forall before, after
        ensures Applied(a, s, container, configMap, before, after).rollout.Ready() ==>
                Applied(a, s, container, configMap, before, after).loaded == RulesetOf(s, configMap)
      {
        AppliedIsFresh(a, s, container, configMap, before, after);
      }
    } else {
      var b := SetTemplate(a, t);
      var n := if b.rollout.replicas.Some? then b.rollout.replicas.value else 1;
      var r := Report(b.rollout.generation, n, n, 0);
      assert [r][..0] == [];
      assert Turns(a, s, container, []) == a;
      assert Turns(b, s, container, [r]) == Turn(Turns(b, s, container, [r][..0]), s, container, r);
      assert Applied(a, s, container, configMap, [], [r]).rollout.Ready();
      assert Applied(a, s, container, configMap, [], [r]).loaded == a.loaded;
    }
  }

  /** The ConfigMap after CreateOrReplaceConfigMap went through. */
  function Filed(s: Cells, configMap: string, ruleset: string): Cells {
    var k := Key(ConfigMap, configMap);
    if Exists(s, k) then Updated(s, k, ConfigMapM(configMap, ruleset)) else Created(s, k, ConfigMapM(configMap, ruleset))
  }

  /**
   * How it goes wrong, from any Anubis and for any policy name: one sweep applies a policy, it rolls out, and the
   * restore is lost; the next request sends the same policy with other contents. Its ConfigMap is updated, wiring
   * changes nothing, the wait returns at once, and the old ruleset is still the one in force.
   */
  lemma StaleRuleset(a: Anubis, s: Cells, container: string, configMap: string, first: string, second: string)
    requires Honest(a) && HasContainer(a.template, container) && first != second
    ensures exists up: seq<Turnover> ::
      var s1, s2 := Filed(s, configMap, first), Filed(Filed(s, configMap, first), configMap, second);
      var b := Applied(a, s1, container, configMap, [], up);
      var c := Applied(b, s2, container, configMap, [], []);
      && b.rollout.Ready() && b.loaded == first == RulesetOf(s1, configMap)
      && c.rollout.Ready() && c.loaded == first && RulesetOf(s2, configMap) == second
  {
    var s1 := Filed(s, configMap, first);
    FiledHolds(s, configMap, first);
    FiledHolds(s1, configMap, second);
    var up, b := FirstSweep(a, s1, container, configMap);
    WireTwice(a.template, container, configMap, configMap);
    SecondSweep(b, Filed(s1, configMap, second), container, configMap);
  }

  lemma FiledHolds(s: Cells, configMap: string, ruleset: string)
    ensures RulesetOf(Filed(s, configMap, ruleset), configMap) == ruleset
  {
  }

  lemma FirstSweep(a: Anubis, s: Cells, container: string, configMap: string) returns (up: seq<Turnover>, b: Anubis)
    requires Honest(a) && HasContainer(a.template, container)
    ensures b == Applied(a, s, container, configMap, [], up)
    ensures b.rollout.Ready() && b.loaded == RulesetOf(s, configMap)
    ensures b.template == b.live == Wire(a.template, container, configMap)
  {
    var w := SetTemplate(a, Wire(a.template, container, configMap));
    var n := if a.rollout.replicas.Some? then a.rollout.replicas.value else 1;
    var r := Report(w.rollout.generation, n, n, 0);
    WirePointsAtIt(a.template, container, configMap);
    WireTwice(a.template, container, configMap, configMap);
    up := [RollOut, r];
    b := RolledOut(w, s, container, r);
    assert Turns(a, s, container, []) == a;
  }

  lemma SecondSweep(b: Anubis, s: Cells, container: string, configMap: string)
    requires Wire(b.template, container, configMap) == b.template
    ensures Applied(b, s, container, configMap, [], []) == b
  {
    assert Turns(b, s, container, []) == b;
  }

  lemma RolledOut(w: Anubis, s: Cells, container: string, r: Turnover) returns (b: Anubis)
    requires Honest(w) && r.Report? && r.observed == w.rollout.generation && r.unavailable == 0
    requires r.updated == r.available == if w.rollout.replicas.Some? then w.rollout.replicas.value else 1
    ensures b == Turns(w, s, container, [RollOut, r]) && b.rollout.Ready() && b.template == b.live == w.template
    ensures b.loaded == RulesetOf(s, Source(w.template, container))
  {
    var ts := [RollOut, r];
    assert ts[..1] == [RollOut] && ts[..1][..0] == [];
    assert Turns(w, s, container, [RollOut]) == Turn(w, s, container, RollOut);
    b := Turn(Turn(w, s, container, RollOut), s, container, r);
    assert Turns(w, s, container, ts) == Turn(Turns(w, s, container, ts[..1]), s, container, r);
  }

  // ---- Duplicate entries ----

  /** The value a container runtime uses when a name occurs more than once: the last. */
  function Last<T>(xs: seq<Named<T>>, name: string): Option<T> {
    if xs == [] then None
    else if xs[|xs| - 1].name == name then Some(xs[|xs| - 1].body)
    else Last(xs[..|xs| - 1], name)
  }

  predicate Unique<T>(xs: seq<Named<T>>, name: string) {
    forall i, j :: 0 <= i < j < |xs| ==> !(xs[i].name == name && xs[j].name == name)
  }

  lemma {:induction false} LastOfCons<T>(x: Named<T>, xs: seq<Named<T>>, name: string)
    ensures Last([x] + xs, name) == if Last(xs, name).Some? then Last(xs, name) else if x.name == name then Some(x.body) else None
  {
    if xs == [] {
      assert [x] + xs == [x] && [x][..0] == [];
    } else {
      assert ([x] + xs)[..|xs|] == [x] + xs[..|xs| - 1];
      LastOfCons(x, xs[..|xs| - 1], name);
    }
  }

  /** Where the name stands a second time, behind the first: there the last entry, not the first, is in force. */
  function Second<T>(xs: seq<Named<T>>, name: string): Option<T> {
    if xs == [] then None else if xs[0].name == name then Last(xs[1..], name) else Second(xs[1..], name)
  }

  /**
   * Upserting the first entry of a name takes effect exactly when the name does not occur again behind it, or
   * occurs last with the very value upserted.
   */
  lemma {:induction false} UpsertTakesEffect<T>(xs: seq<Named<T>>, x: Named<T>)
    ensures Last(Upsert(xs, x), x.name) == Some(x.body) <==> Second(xs, x.name).None? || Second(xs, x.name) == Some(x.body)
  {
    if xs == [] {
      LastOfCons(x, [], x.name);
      assert [x] + [] == [x];
    } else if xs[0].name == x.name {
      LastOfCons(x, xs[1..], x.name);
    } else {
      UpsertTakesEffect(xs[1..], x);
      LastOfCons(xs[0], Upsert(xs[1..], x), x.name);
      UpsertIsThere(xs[1..], x);
    }
  }

  lemma {:induction false} UpsertIsThere<T>(xs: seq<Named<T>>, x: Named<T>)
    ensures Last(Upsert(xs, x), x.name).Some?
  {
    if xs == [] {
      LastOfCons(x, [], x.name);
      assert [x] + [] == [x];
    } else if xs[0].name == x.name {
      LastOfCons(x, xs[1..], x.name);
    } else {
      UpsertIsThere(xs[1..], x);
      LastOfCons(xs[0], Upsert(xs[1..], x), x.name);
    }
  }

  /** Where names are unique the first entry is the one in force. */
  lemma {:induction false} UniqueIsFirst<T>(xs: seq<Named<T>>, name: string)
    requires Unique(xs, name)
    ensures Last(xs, name) == First(xs, name) && Second(xs, name).None?
  {
    if xs != [] {
      assert forall i :: 0 <= i < |xs| - 1 ==> xs[1..][i] == xs[i + 1];
      UniqueIsFirst(xs[1..], name);
      LastOfCons(xs[0], xs[1..], name);
      assert xs == [xs[0]] + xs[1..];
      if xs[0].name == name { NoneLeft(xs[1..], name); }
    }
  }

  lemma {:induction false} NoneLeft<T>(xs: seq<Named<T>>, name: string)
    requires forall i :: 0 <= i < |xs| ==> xs[i].name != name
    ensures Last(xs, name).None?
  {
    if xs != [] { NoneLeft(xs[..|xs| - 1], name); }
  }
}
