/** `Run` and what it calls: policies one after another over one Anubis, a bounded pool inside each browser. */
module Sweep {
  import opened Store
  import opened Report
  import opened Worker
  import opened Fleet
  import opened Pool
  import opened Anubis
  import opened PodTemplates
  import opened Matrix
  import opened Transcript
  import opened Cluster

  const COLLECTOR := "chrome-sweep-collector"

  method PolicyErrorResults(cfg: Config, ghost framesDir: string, ghost container: string, pol: Policy, ghost clean: bool)
    returns (out: seq<Result>, ghost pass: PassRun)
    ensures PassOk(cfg, framesDir, container, pol, clean, pass) && !pass.applied && out == Flat(pass.rows)
    ensures forall k :: 0 <= k < |pass.runs| ==> pass.runs[k].Skipped?
  {
    out := [];
    ghost var runs, rows := [], [];
    for i := 0 to |cfg.browsers|
      invariant |runs| == i && out == Flat(rows) && RowsOk(cfg, framesDir, container, pol, clean, runs, rows)
      invariant forall k :: 0 <= k < |runs| ==> runs[k] == Skipped
    {
      var row := ErrorRow(pol.name, cfg.browsers[i]);
      RowsSnoc(cfg, framesDir, container, pol, clean, runs, rows, Skipped, row);
      out, runs, rows := out + row, runs + [Skipped], rows + [row];
    }
    pass := PassRun(false, runs, rows);
  }

  /** The template has the image asked for, if one was; without policies nothing will roll it out later, so it has been. */
  predicate ImageReady(a: Anubis, container: string, cfg: Config) {
    cfg.anubisImage != "" ==>
      RunsImage(a.template, container, cfg.anubisImage) && (cfg.policies == [] ==> a.live == a.template)
  }

  lemma ImageReadyWired(a: Anubis, b: Anubis, container: string, cfg: Config, configMap: string)
    requires cfg.anubisImage != "" ==> RunsImage(a.template, container, cfg.anubisImage)
    requires b.template in {a.template, Wire(a.template, container, configMap)}
    ensures cfg.anubisImage != "" ==> RunsImage(b.template, container, cfg.anubisImage)
    ensures cfg.policies != [] ==> ImageReady(b, container, cfg)
  {
    if cfg.anubisImage != "" { WireKeepsImage(a.template, container, configMap, cfg.anubisImage); }
  }

  lemma ImageReadyDrifts(a: Anubis, b: Anubis, s: Cells, container: string, cfg: Config)
    requires ImageReady(a, container, cfg) && Drifted(a, b, s, container)
    ensures ImageReady(b, container, cfg)
  {
  }

  /** The ConfigMap first, then the wiring, then the rollout. */
  method ApplyPolicy(c: Cluster, cfg: Config, pol: Policy) returns (ok: bool)
    requires c.Valid() && ImageReady(c.anubis, c.container, cfg)
    modifies c`anubis, c`cells
    ensures c.Valid()
    ensures Grown(old(c.cells), c.cells)
    ensures forall k: Key :: k != Key(ConfigMap, ConfigMapName(pol.name)) ==> At(c.cells, k) == old(At(c.cells, k))
    ensures forall cm :: cm != ConfigMapName(pol.name) && Unwired(old(c.anubis), c.container, cm) ==> Unwired(c.anubis, c.container, cm)
    ensures cfg.policies != [] ==> ImageReady(c.anubis, c.container, cfg)
    ensures ok ==> Pinned(c.anubis, c.cells, c.container, cfg, pol, Unwired(old(c.anubis), c.container, ConfigMapName(pol.name)))
  {
    var cm := ConfigMapName(pol.name);
    ok := c.CreateOrReplaceConfigMap(cm, pol.content);
    if !ok { return; }
    ghost var a := c.anubis;
    ok := c.SetAnubisPolicy(cm);
    ImageReadyWired(a, c.anubis, c.container, cfg, cm);
    if !ok { return; }
    ok := c.WaitReady(cfg.limits.ready);
    if ok {
      WireIsWired(a.template, c.container, cm);
    }
  }

  /** A wired template is a fixed point of wiring, and an Anubis that runs something else has nothing stale to keep. */
  lemma WireIsWired(t: Template, container: string, cm: string)
    requires HasContainer(Wire(t, container, cm), container)
    ensures Wire(Wire(t, container, cm), container, cm) == Wire(t, container, cm)
    ensures Source(Wire(t, container, cm), container) == cm
  {
    WireTwice(t, container, cm, cm);
    WirePointsAtIt(Wire(t, container, cm), container, cm);
  }

  /** Keys no worker of any browser uses: the rulesets stay put while a pool runs. */
  lemma PoolSparesRulesets(plans: seq<Plan>, name: string)
    ensures Foreign(plans, Key(ConfigMap, name))
  {
  }

  // ---- The pool ----

  /** Up to now the pool was watched: Anubis went from `a0` through the history to `now`, and judged every status written. */
  ghost predicate Watched(q: Pool, history: seq<Anubis>, a0: Anubis, now: Anubis, s0: Cells, container: string) {
    && Judged(q.sched, history, container)
    && Timeline(a0, history, s0, container) && Reaches(Latest(a0, history), now, s0, container)
  }

  lemma WatchedOn(q: Pool, history: seq<Anubis>, a0: Anubis, b: Anubis, now: Anubis, s0: Cells, container: string)
    requires Watched(q, history, a0, b, s0, container) && Reaches(b, now, s0, container)
    ensures Watched(q, history, a0, now, s0, container)
  {
    ReachesChain(Latest(a0, history), b, now, s0, container);
  }

  /** The history after a move of the pool: one more entry for each step of a worker or of the cluster. */
  function Noted(history: seq<Anubis>, m: Move, now: Anubis): seq<Anubis> {
    if m.Work? then history + [now] else history
  }

  lemma WatchedMove(q: Pool, history: seq<Anubis>, a0: Anubis, now: Anubis, s0: Cells, container: string, m: Move)
    requires Watched(q, history, a0, now, s0, container) && Enabled(q, m)
    requires m.Work? && m.a.Rewrite? ==> m.a.status.judged == ServingOf(now, container)
    ensures Watched(Apply(q, m), Noted(history, m, now), a0, now, s0, container)
  {
    if m.Work? { TimelineSnoc(a0, history, now, s0, container); }
  }

  /** Whatever the schedule: identities only grow, and the rulesets stay put. */
  lemma PoolFrame(q: Pool, plans: seq<Plan>, s0: Cells)
    requires PoolInv(q, plans, s0)
    ensures Grown(s0, q.fleet.cells) && RulesetsKept(s0, q.fleet.cells)
    ensures forall k: Key :: k.kind == ConfigMap ==> At(q.fleet.cells, k) == At(s0, k)
  {
    FleetKeeps(plans, s0, q.sched);
    forall k: Key | k.kind == ConfigMap
      ensures At(q.fleet.cells, k) == At(s0, k)
    {
      PoolSparesRulesets(plans, k.name);
      FleetFrame(plans, s0, q.sched, k);
    }
  }

  /**
   * The pool under any schedule: at each turn Anubis pods turn over and the cluster moves as they like, then
   * some possible move is made. The history has Anubis at every step, and every status written was judged by
   * what Anubis served at that step.
   */
  method RunPool(c: Cluster, parallelism: int, plans: seq<Plan>)
    returns (ghost p: Pool, slots: seq<Outcome>, ghost history: seq<Anubis>)
    requires c.Valid()
    modifies c`cells, c`anubis
    ensures c.Valid() && Grown(old(c.cells), c.cells) && RulesetsKept(old(c.cells), c.cells)
    ensures Watched(p, history, old(c.anubis), c.anubis, old(c.cells), c.container)
    ensures PoolInv(p, plans, old(c.cells)) && p.returned && p.cap == Capacity(parallelism) && c.cells == p.fleet.cells
    ensures Full(p) && slots == Outcomes(p) && |slots| == |plans|
  {
    ghost var s0, a0 := c.cells, c.anubis;
    var q := Opened(parallelism, plans, c.cells);
    OpenedInv(parallelism, plans, s0);
    history := [];
    assert Turns(a0, s0, c.container, []) == a0;
    while !q.returned
      invariant c.Valid() && c.cells == s0 && Watched(q, history, a0, c.anubis, s0, c.container)
      invariant PoolInv(q, plans, s0) && q.cap == Capacity(parallelism)
      decreases Measure(q)
    {
      q, history := ClusterMoves(c, q, plans, a0, history);
      ghost var m0 := NotStuck(q, plans, s0);
      var m: Move :| Enabled(q, m) && !ClusterMove(m);
      MoveMeasure(q, plans, s0, m);
      ApplyInv(q, plans, s0, m);
      WatchedMove(q, history, a0, c.anubis, s0, c.container, m);
      q, history := Apply(q, m), Noted(history, m, c.anubis);
    }
    p := q;
    SlotsAreFull(q, plans, s0);
    slots := Outcomes(q);
    PoolFrame(q, plans, s0);
    c.cells := q.fleet.cells;
  }

  /** Between two moves of the pool: pods turn over, deletions finish, controllers write status. */
  method ClusterMoves(c: Cluster, p: Pool, plans: seq<Plan>, ghost a0: Anubis, ghost before: seq<Anubis>)
    returns (q: Pool, ghost history: seq<Anubis>)
    requires c.Valid() && PoolInv(p, plans, c.cells) && !p.returned
    requires Watched(p, before, a0, c.anubis, c.cells, c.container)
    modifies c`anubis
    ensures c.Valid() && Watched(q, history, a0, c.anubis, c.cells, c.container)
    ensures PoolInv(q, plans, c.cells) && !q.returned && q.cap == p.cap && Measure(q) == Measure(p)
  {
    q, history := p, before;
    var n := AnyNumber();
    for i := 0 to n
      invariant c.Valid() && Watched(q, history, a0, c.anubis, c.cells, c.container)
      invariant PoolInv(q, plans, c.cells) && !q.returned && q.cap == p.cap && Measure(q) == Measure(p)
    {
      ghost var b := c.anubis;
      c.Settle();
      WatchedOn(q, history, a0, b, c.anubis, c.cells, c.container);
      var m := ClusterTurn(c);
      if Enabled(q, m) {
        MoveMeasure(q, plans, c.cells, m);
        ApplyInv(q, plans, c.cells, m);
        WatchedMove(q, history, a0, c.anubis, c.cells, c.container, m);
        q, history := Apply(q, m), Noted(history, m, c.anubis);
      }
    }
  }

  /** Some deletion finishes, or some status is written, judged by what Anubis serves now. */
  method ClusterTurn(c: Cluster) returns (m: Move)
    ensures ClusterMove(m)
    ensures m.a.Rewrite? ==> m.a.status.judged == ServingOf(c.anubis, c.container)
  {
    var i := AnyNumber();
    var r: Res, reap: bool, status: ObjStatus := *, *, *;
    m := Work(i, if reap then Reap(r) else Rewrite(r, status.(judged := ServingOf(c.anubis, c.container))));
  }

  // ---- One policy ----

  method SweepBrowser(c: Cluster, cfg: Config, framesDir: string, policy: string, i: nat)
    returns (row: seq<Result>, ghost run: RowRun)
    requires c.Valid() && ValidConfig(cfg) && i < |cfg.browsers|
    modifies c`cells, c`anubis
    ensures c.Valid() && Grown(old(c.cells), c.cells) && RulesetsKept(old(c.cells), c.cells)
    ensures Drifted(old(c.anubis), c.anubis, old(c.cells), c.container)
    ensures RowOk(cfg, framesDir, c.container, policy, cfg.browsers[i], run, row)
    ensures if run.Swept? then run.before == old(c.cells) && run.start == old(c.anubis) && c.cells == run.pool.fleet.cells
            else c.cells == old(c.cells)
  {
    var b := cfg.browsers[i];
    assert b in cfg.browsers;
    var loaded: bool := *;
    if !loaded {
      row, run := ErrorRow(policy, b), Skipped;
      return;
    }
    ghost var p;
    ghost var history;
    var slots;
    p, slots, history := RunPool(c, cfg.parallelism, PlansOf(b, cfg.limits));
    row, run := RowOf(policy, b, framesDir, slots), Swept(old(c.cells), old(c.anubis), p, history);
    WatchedDrifts(p, history, old(c.anubis), c.anubis, old(c.cells), c.container);
  }

  lemma WatchedDrifts(q: Pool, history: seq<Anubis>, a0: Anubis, now: Anubis, s0: Cells, container: string)
    requires Watched(q, history, a0, now, s0, container)
    ensures Drifted(a0, now, s0, container)
  {
    LatestDrifts(a0, history, s0, container);
    ReachesDrifts(Latest(a0, history), now, s0, container);
    DriftChain(a0, Latest(a0, history), now, s0, container);
  }

  lemma DriftOver(a: Anubis, b: Anubis, c: Anubis, s: Cells, t: Cells, container: string)
    requires Drifted(a, b, s, container) && Drifted(b, c, t, container) && RulesetsKept(s, t)
    ensures Drifted(a, c, s, container)
  {
  }

  /** One policy's block: browser after browser, a pool each; a browser whose manifests do not load is errored whole. */
  method SweepBrowsers(c: Cluster, cfg: Config, framesDir: string, pol: Policy, ghost clean: bool)
    returns (results: seq<Result>, ghost pass: PassRun)
    requires c.Valid() && ValidConfig(cfg) && Pinned(c.anubis, c.cells, c.container, cfg, pol, clean)
    modifies c`cells, c`anubis
    ensures c.Valid() && Drifted(old(c.anubis), c.anubis, old(c.cells), c.container)
    ensures PassOk(cfg, framesDir, c.container, pol, clean, pass) && pass.applied && results == Flat(pass.rows)
    ensures Chained(old(c.cells), pass.runs, c.cells) && RulesetsKept(old(c.cells), c.cells)
  {
    results := [];
    ghost var runs, rows := [], [];
    for i := 0 to |cfg.browsers|
      invariant c.Valid() && RulesetsKept(old(c.cells), c.cells) && Drifted(old(c.anubis), c.anubis, old(c.cells), c.container)
      invariant |runs| == i && results == Flat(rows) && RowsOk(cfg, framesDir, c.container, pol, clean, runs, rows)
      invariant Chained(old(c.cells), runs, c.cells)
    {
      var row;
      ghost var run;
      ghost var mid, b0 := c.cells, c.anubis;
      PinnedDrifts(old(c.anubis), b0, old(c.cells), mid, c.container, cfg, pol, clean);
      row, run := SweepBrowser(c, cfg, framesDir, pol.name, i);
      DriftOver(old(c.anubis), b0, c.anubis, old(c.cells), mid, c.container);
      assert RowAt(cfg, framesDir, c.container, pol, clean, cfg.browsers[i], run, row);
      RowsSnoc(cfg, framesDir, c.container, pol, clean, runs, rows, run, row);
      ChainedSnoc(old(c.cells), runs, mid, run, c.cells);
      results, runs, rows := results + row, runs + [run], rows + [row];
    }
    pass := PassRun(true, runs, rows);
  }

  // ---- The whole run ----

  /** `PrepareAnubis` hands back the snapshot when a restore is still owed. */
  method PrepareAnubis(c: Cluster, cfg: Config, manifestImage: string)
    returns (image: string, snapshot: PodTemplate?, fate: Fate)
    requires c.Valid()
    modifies c`anubis, c`restores
    ensures c.Valid()
    ensures snapshot != null ==> New(snapshot) && snapshot.Valid() && snapshot.Value() == old(c.anubis.template)
    ensures snapshot != null ==> c.restores == old(c.restores)
    ensures snapshot != null ==> image == if cfg.anubisImage != "" then cfg.anubisImage else manifestImage
    ensures snapshot != null && cfg.anubisImage == "" ==> c.anubis.template == old(c.anubis.template)
    ensures snapshot != null ==> ImageReady(c.anubis, c.container, cfg)
    ensures snapshot != null && cfg.anubisImage != "" ==> c.Steady() && RunsImage(c.anubis.live, c.container, image)
    ensures snapshot != null && cfg.anubisImage != "" ==>
      OnlyReimages(old(c.anubis.template), c.anubis.template, c.container, cfg.anubisImage)
    ensures snapshot == null ==> c.restores == old(c.restores) + (if fate.taken then 1 else 0)
    ensures snapshot == null ==> RunKeepsTemplate(fate, old(c.anubis.template), c.anubis)
    ensures snapshot != null ==> forall cm :: cm != "" && Unwired(old(c.anubis), c.container, cm) ==> Unwired(c.anubis, c.container, cm)
  {
    image, snapshot, fate := "", null, Fate(false, false, false);
    var loaded: bool := *;
    if !loaded { return; }
    snapshot := c.SnapshotPodTemplate();
    if snapshot == null { return; }
    image := manifestImage;
    if cfg.anubisImage != "" {
      var ok := c.SetImage(cfg.anubisImage);
      if ok { ok := c.WaitReady(cfg.limits.ready); }
      if !ok {
        fate := Restore(c, cfg, snapshot);
        image, snapshot := "", null;
        return;
      }
      image := cfg.anubisImage;
    }
  }

  /** The restore function: put the template back, then wait; failures are only logged. */
  method Restore(c: Cluster, cfg: Config, snapshot: PodTemplate) returns (fate: Fate)
    requires c.Valid() && snapshot.Valid()
    modifies c`anubis, c`restores
    ensures c.Valid() && c.restores == old(c.restores) + 1
    ensures fate.taken && RunKeepsTemplate(fate, snapshot.Value(), c.anubis)
  {
    var ok := c.RestorePodTemplate(snapshot);
    fate := Fate(true, ok, false);
    if ok {
      ok := c.WaitReady(cfg.limits.ready);
      fate := Fate(true, true, ok);
    }
  }

  /** Policy names differ, and Anubis is not wired to the ConfigMaps of those from `j` on. */
  predicate CleanFrom(a: Anubis, container: string, cfg: Config, j: nat) {
    DistinctPolicies(cfg.policies) &&
    forall i :: j <= i < |cfg.policies| ==> Unwired(a, container, ConfigMapName(cfg.policies[i].name))
  }

  predicate Clean(c: Cluster, cfg: Config)
    reads c
  {
    CleanFrom(c.anubis, c.container, cfg, 0)
  }

  lemma CleanDrifts(a: Anubis, b: Anubis, s: Cells, container: string, cfg: Config, j: nat)
    requires CleanFrom(a, container, cfg, j) && Drifted(a, b, s, container)
    ensures CleanFrom(b, container, cfg, j)
  {
  }

  /** Only one ConfigMap was wired in, and it was the current policy's. */
  lemma CleanNext(a: Anubis, b: Anubis, container: string, cfg: Config, j: nat)
    requires CleanFrom(a, container, cfg, j) && j < |Passes(cfg)|
    requires forall cm :: cm != ConfigMapName(Passes(cfg)[j].name) && Unwired(a, container, cm) ==> Unwired(b, container, cm)
    ensures CleanFrom(b, container, cfg, j + 1)
  {
    forall i | j + 1 <= i < |cfg.policies|
      ensures Unwired(b, container, ConfigMapName(cfg.policies[i].name))
    {
      ConfigMapNamesDiffer(cfg.policies[i].name, cfg.policies[j].name);
    }
  }

  lemma ConfigMapNamesDiffer(a: string, b: string)
    ensures ConfigMapName(a) == ConfigMapName(b) <==> a == b
  {
    var n := |ConfigMapName("")|;
    assert ConfigMapName(a)[n..] == a && ConfigMapName(b)[n..] == b;
  }

  /** One turn of the policy loop. */
  method RunPolicy(c: Cluster, cfg: Config, framesDir: string, j: nat, ghost clean: bool)
    returns (block: seq<Result>, ghost pass: PassRun)
    requires c.Valid() && ValidConfig(cfg) && j < |Passes(cfg)|
    requires ImageReady(c.anubis, c.container, cfg) && (clean ==> CleanFrom(c.anubis, c.container, cfg, j))
    modifies c`cells, c`anubis
    ensures c.Valid() && ImageReady(c.anubis, c.container, cfg) && (clean ==> CleanFrom(c.anubis, c.container, cfg, j + 1))
    ensures PassOk(cfg, framesDir, c.container, Passes(cfg)[j], clean, pass) && block == Flat(pass.rows)
    ensures Chained(old(c.cells), pass.runs, c.cells)
  {
    var pol := Passes(cfg)[j];
    ghost var a, mid := c.anubis, c.cells;
    if pol.name != "" {
      var ok := ApplyPolicy(c, cfg, pol);
      mid := c.cells;
      if clean { CleanNext(a, c.anubis, c.container, cfg, j); }
      if !ok {
        block, pass := PolicyErrorResults(cfg, framesDir, c.container, pol, clean);
        NothingRun(old(c.cells), pass.runs, c.cells);
        return;
      }
    }
    a := c.anubis;
    block, pass := SweepBrowsers(c, cfg, framesDir, pol, clean);
    ImageReadyDrifts(a, c.anubis, mid, c.container, cfg);
    if clean { CleanDrifts(a, c.anubis, mid, c.container, cfg, j + 1); }
    ChainedFrom(old(c.cells), mid, pass.runs, c.cells);
  }

  lemma {:induction false} NothingRun(s: Cells, runs: seq<RowRun>, t: Cells)
    requires Grown(s, t) && forall k :: 0 <= k < |runs| ==> runs[k].Skipped?
    ensures Chained(s, runs, t)
  {
    if runs != [] { NothingRun(s, runs[..|runs| - 1], t); }
  }

  /** The policy loop of `Run`. */
  method RunPolicies(c: Cluster, cfg: Config, framesDir: string, ghost clean: bool)
    returns (results: seq<Result>, ghost passes: seq<PassRun>)
    requires c.Valid() && ValidConfig(cfg) && (clean ==> Clean(c, cfg)) && ImageReady(c.anubis, c.container, cfg)
    modifies c`cells, c`anubis
    ensures c.Valid() && Chronicle(cfg, framesDir, c.container, clean, passes, results, old(c.cells), c.cells)
  {
    results, passes := [], [];
    for j := 0 to |Passes(cfg)|
      invariant c.Valid() && ImageReady(c.anubis, c.container, cfg) && (clean ==> CleanFrom(c.anubis, c.container, cfg, j))
      invariant |passes| == j && PassesOk(cfg, framesDir, c.container, clean, passes)
      invariant results == AllResults(passes) && Chained(old(c.cells), AllRuns(passes), c.cells)
    {
      ghost var mid := c.cells;
      var block;
      ghost var pass;
      block, pass := RunPolicy(c, cfg, framesDir, j, clean);
      PassesSnoc(cfg, framesDir, c.container, clean, passes, pass);
      AllSnoc(passes, pass);
      ChainedConcat(old(c.cells), AllRuns(passes), mid, pass.runs, c.cells);
      results, passes := results + block, passes + [pass];
    }
  }

  /** Every pass or fail in the transcript is attributed to its own call and its own policy. */
  ghost predicate AllAttributed(cfg: Config, framesDir: string, container: string, clean: bool, passes: seq<PassRun>) {
    && |passes| <= |Passes(cfg)|
    && (forall j :: 0 <= j < |passes| ==> |passes[j].rows| == |passes[j].runs| <= |cfg.browsers|)
    && forall j, k, i :: 0 <= j < |passes| && 0 <= k < |passes[j].rows| && 0 <= i < |passes[j].rows[k]| ==>
         AttributedAt(cfg, framesDir, container, clean, passes, j, k, i)
  }

  lemma PassesAreAttributed(cfg: Config, framesDir: string, container: string, clean: bool, passes: seq<PassRun>)
    requires PassesOk(cfg, framesDir, container, clean, passes) && DistinctTags(cfg)
    ensures AllAttributed(cfg, framesDir, container, clean, passes)
  {
    forall j | 0 <= j < |passes| ensures |passes[j].rows| == |passes[j].runs| <= |cfg.browsers| {
      assert PassOk(cfg, framesDir, container, Passes(cfg)[j], clean, passes[j]);
    }
    forall j, k, i | 0 <= j < |passes| && 0 <= k < |passes[j].rows| && 0 <= i < |passes[j].rows[k]|
      ensures AttributedAt(cfg, framesDir, container, clean, passes, j, k, i)
    {
      EveryVerdictIsAttributed(cfg, framesDir, container, clean, passes, j, k, i);
    }
  }

  /** The policies, then the deferred removal of the collector. */
  method SweepPolicies(c: Cluster, cfg: Config, framesDir: string, ghost clean: bool)
    returns (results: seq<Result>, ghost passes: seq<PassRun>)
    requires c.Valid() && ValidConfig(cfg) && (clean ==> Clean(c, cfg)) && ImageReady(c.anubis, c.container, cfg)
    modifies c`cells, c`anubis, c`removals
    ensures c.Valid() && c.removals == old(c.removals) + 1
    ensures Chronicle(cfg, framesDir, c.container, clean, passes, results, old(c.cells), c.cells)
    ensures LabelsOf(results) == Cube(Passes(cfg), cfg.browsers) && AllFiled(cfg, framesDir, results)
    ensures DistinctTags(cfg) ==> AllAttributed(cfg, framesDir, c.container, clean, passes)
  {
    results, passes := RunPolicies(c, cfg, framesDir, clean);
    ghost var swept := c.cells;
    ChronicleLabels(cfg, framesDir, c.container, clean, passes, results, old(c.cells), swept);
    if DistinctTags(cfg) { PassesAreAttributed(cfg, framesDir, c.container, clean, passes); }
    var _ := c.DeleteCollector(COLLECTOR);
    ChainedGrows(old(c.cells), AllRuns(passes), swept, c.cells);
  }

  /**
   * The whole run. Whatever mix of failures occurred: an error-free run reports every (policy, browser,
   * tag) exactly once and in order; its transcript accounts for every result and every pool; every pass or
   * fail is its own call's, judged under its own policy; the snapshot is put back exactly once on every path
   * that took one; the collector is removed exactly when it had come up; and a run whose restore rolled out
   * leaves Anubis steady on the template it found.
   */
  method Run(c: Cluster, cfg: Config, framesDir: string, manifestImage: string)
    returns (ok: bool, image: string, results: seq<Result>, ghost passes: seq<PassRun>, fate: Fate)
    requires c.Valid() && ValidConfig(cfg)
    modifies c
    ensures c.Valid() && Grown(old(c.cells), c.cells)
    ensures c.restores == old(c.restores) + (if fate.taken then 1 else 0)
    ensures RunKeepsTemplate(fate, old(c.anubis.template), c.anubis)
    ensures ok ==> fate.taken && image == if cfg.anubisImage != "" then cfg.anubisImage else manifestImage
    ensures c.removals == old(c.removals) + (if ok then 1 else 0)
    ensures ok ==> Chronicle(cfg, framesDir, c.container, old(Clean(c, cfg)), passes, results, old(c.cells), c.cells)
    ensures ok ==> LabelsOf(results) == Cube(Passes(cfg), cfg.browsers) && AllFiled(cfg, framesDir, results)
    ensures ok && DistinctTags(cfg) ==> AllAttributed(cfg, framesDir, c.container, old(Clean(c, cfg)), passes)
  {
    ok, image, results, passes := false, "", [], [];
    ghost var clean := Clean(c, cfg);
    var snapshot;
    image, snapshot, fate := PrepareAnubis(c, cfg, manifestImage);
    if snapshot == null { return; }
    ok, results, passes, fate := SweepPrepared(c, cfg, framesDir, snapshot, clean);
    if !ok { image := ""; }
  }

  /** The run once Anubis is prepared, and the deferred restore behind it. */
  method SweepPrepared(c: Cluster, cfg: Config, framesDir: string, snapshot: PodTemplate, ghost clean: bool)
    returns (ok: bool, results: seq<Result>, ghost passes: seq<PassRun>, fate: Fate)
    requires c.Valid() && ValidConfig(cfg) && snapshot.Valid() && (clean ==> Clean(c, cfg)) && ImageReady(c.anubis, c.container, cfg)
    modifies c
    ensures c.Valid() && Grown(old(c.cells), c.cells)
    ensures c.restores == old(c.restores) + 1 && c.removals == old(c.removals) + (if ok then 1 else 0)
    ensures fate.taken && RunKeepsTemplate(fate, old(snapshot.Value()), c.anubis)
    ensures ok ==> Chronicle(cfg, framesDir, c.container, clean, passes, results, old(c.cells), c.cells)
    ensures ok ==> LabelsOf(results) == Cube(Passes(cfg), cfg.browsers) && AllFiled(cfg, framesDir, results)
    ensures ok && DistinctTags(cfg) ==> AllAttributed(cfg, framesDir, c.container, clean, passes)
  {
    ok, results, passes := CollectAndSweep(c, cfg, framesDir, clean);
    fate := Restore(c, cfg, snapshot);
  }

  /** The collector, and if it came up the policies. */
  method CollectAndSweep(c: Cluster, cfg: Config, framesDir: string, ghost clean: bool)
    returns (ok: bool, results: seq<Result>, ghost passes: seq<PassRun>)
    requires c.Valid() && ValidConfig(cfg) && (clean ==> Clean(c, cfg)) && ImageReady(c.anubis, c.container, cfg)
    modifies c`cells, c`anubis, c`removals
    ensures c.Valid() && Grown(old(c.cells), c.cells)
    ensures c.removals == old(c.removals) + (if ok then 1 else 0)
    ensures ok ==> Chronicle(cfg, framesDir, c.container, clean, passes, results, old(c.cells), c.cells)
    ensures ok ==> LabelsOf(results) == Cube(Passes(cfg), cfg.browsers) && AllFiled(cfg, framesDir, results)
    ensures ok && DistinctTags(cfg) ==> AllAttributed(cfg, framesDir, c.container, clean, passes)
  {
    results, passes := [], [];
    ghost var answers;
    ok, answers := c.EnsureCollector(COLLECTOR, cfg.limits.ready);
    if !ok { return; }
    ghost var s := c.cells;
    results, passes := SweepPolicies(c, cfg, framesDir, clean);
    ChainedFrom(old(c.cells), s, AllRuns(passes), c.cells);
    ChainedGrows(old(c.cells), AllRuns(passes), c.cells, c.cells);
  }

  /** A steady Anubis that is wired to none of the policies' ConfigMaps gives the next run a clean start. */
  lemma NextRunIsClean(c: Cluster, cfg: Config)
    requires c.Steady() && DistinctPolicies(cfg.policies)
    requires forall p :: p in cfg.policies ==> Source(c.anubis.template, c.container) != ConfigMapName(p.name)
    ensures Clean(c, cfg)
  {
  }

  /** What became of Anubis: was a snapshot taken, did its restore succeed, and did that roll out. */
  datatype Fate = Fate(taken: bool, reverted: bool, settled: bool)

  /** A run that took no snapshot, or put it back, leaves the template as it found it; one whose restore rolled out, the pods too. */
  predicate RunKeepsTemplate(fate: Fate, before: Template, after: Anubis) {
    && (!fate.taken || fate.reverted ==> after.template == before)
    && (fate.settled ==> fate.taken && fate.reverted && after.live == before)
  }
}
