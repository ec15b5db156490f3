/**
 * The transcript of a run: for every policy and browser the pool that was run, from which state, and what
 * Anubis went through meanwhile. Results and verdicts are read off it; nothing in it is free to choose.
 */
module Transcript {
  import opened Manifests
  import opened Store
  import opened Report
  import opened Worker
  import opened Fleet
  import opened Pool
  import opened Anubis
  import opened Matrix

  /** The logs of a finished call, browser first; an empty capture is dropped. */
  function LogsOf(b: Browser, c: Captured): seq<LogCapture> {
    (if c.browser == "" then [] else [LogCapture(b.container, c.browser)])
    + (if c.bully == "" then [] else [LogCapture("chrome-bully", c.bully)])
    + (if c.smoke == "" then [] else [LogCapture("smoke", c.smoke)])
  }

  function LocalFrameName(policy: string, browser: string, tag: string): string {
    if policy == "" then browser + "-" + tag + ".png" else policy + "-" + browser + "-" + tag + ".png"
  }

  function ResultOf(policy: string, b: Browser, tag: string, framesDir: string, o: Outcome): Result {
    Result(policy, b.name, tag, o.status,
           if o.captured.frame then framesDir + "/" + LocalFrameName(policy, b.name, tag) else "",
           LogsOf(b, o.captured))
  }

  /** What a result may carry besides its verdict: the frame it was saved as, and its own browser's logs. */
  ghost predicate FiledUnder(b: Browser, framesDir: string, r: Result) {
    && r.browser == b.name
    && (r.framePath == "" || r.framePath == framesDir + "/" + LocalFrameName(r.policy, r.browser, r.tag))
    && exists c: Captured :: r.logs == LogsOf(b, c)
  }

  ghost predicate Filed(cfg: Config, framesDir: string, r: Result) {
    exists b :: b in cfg.browsers && FiledUnder(b, framesDir, r)
  }

  ghost predicate AllFiled(cfg: Config, framesDir: string, rs: seq<Result>) {
    forall r :: r in rs ==> Filed(cfg, framesDir, r)
  }

  lemma ResultIsFiled(policy: string, b: Browser, tag: string, framesDir: string, o: Outcome)
    ensures FiledUnder(b, framesDir, ResultOf(policy, b, tag, framesDir, o))
  {
  }

  lemma ErrorIsFiled(policy: string, b: Browser, tag: string, framesDir: string)
    ensures FiledUnder(b, framesDir, ErrorOf(Label(policy, b.name, tag)))
  {
    assert LogsOf(b, NOTHING) == [];
  }

  function ErrorOf(l: Label): Result {
    Result(l.policy, l.browser, l.tag, Error, "", [])
  }

  /** What `policyErrorResults` synthesizes for one browser. */
  function ErrorRow(policy: string, b: Browser): (rs: seq<Result>)
    ensures LabelsOf(rs) == Row(policy, b)
    ensures forall r :: r in rs ==> r.status == Error
  {
    seq(|b.versions|, i requires 0 <= i < |b.versions| => ErrorOf(Label(policy, b.name, b.versions[i])))
  }

  lemma LabelsConcat(a: seq<Result>, b: seq<Result>)
    ensures LabelsOf(a + b) == LabelsOf(a) + LabelsOf(b)
  {
  }

  lemma ErrorRowIsFiled(cfg: Config, policy: string, b: Browser, framesDir: string)
    requires b in cfg.browsers
    ensures AllFiled(cfg, framesDir, ErrorRow(policy, b))
  {
    forall r | r in ErrorRow(policy, b) ensures FiledUnder(b, framesDir, r) {
      ErrorIsFiled(policy, b, r.tag, framesDir);
    }
  }

  lemma RowIsFiled(cfg: Config, policy: string, b: Browser, framesDir: string, slots: seq<Outcome>)
    requires b in cfg.browsers && |slots| == |b.versions|
    ensures AllFiled(cfg, framesDir, RowOf(policy, b, framesDir, slots))
  {
    var rs := RowOf(policy, b, framesDir, slots);
    forall r | r in rs ensures FiledUnder(b, framesDir, r) {
      var i :| 0 <= i < |rs| && rs[i] == r;
      ResultIsFiled(policy, b, b.versions[i], framesDir, slots[i]);
    }
  }

  function RowOf(policy: string, b: Browser, framesDir: string, slots: seq<Outcome>): (rs: seq<Result>)
    requires |slots| == |b.versions|
    ensures LabelsOf(rs) == Row(policy, b)
  {
    seq(|slots|, i requires 0 <= i < |slots| => ResultOf(policy, b, b.versions[i], framesDir, slots[i]))
  }

  predicate DistinctTags(cfg: Config) {
    forall b :: b in cfg.browsers ==> NoDup(b.versions)
  }

  // ---- One browser under one policy ----

  /** A row was either synthesized, or is what a pool left that ran from these cells and this Anubis. */
  datatype RowRun = Skipped | Swept(before: Cells, start: Anubis, pool: Pool, history: seq<Anubis>)

  predicate Full(p: Pool) {
    forall i :: 0 <= i < |p.slots| ==> p.slots[i].Some?
  }

  function Outcomes(p: Pool): (os: seq<Outcome>)
    requires Full(p)
  {
    seq(|p.slots|, i requires 0 <= i < |p.slots| => p.slots[i].value)
  }

  /** `history` has Anubis at every step of the schedule, and each status was judged by what it served then. */
  predicate Judged(sched: Schedule, history: seq<Anubis>, container: string) {
    |history| == |sched| &&
    forall k :: 0 <= k < |sched| && sched[k].1.Rewrite? ==> sched[k].1.status.judged == ServingOf(history[k], container)
  }

  ghost predicate SweptOk(cfg: Config, container: string, b: Browser, run: RowRun)
    requires run.Swept?
  {
    && b.base.Valid() && PoolInv(run.pool, PlansOf(b, cfg.limits), run.before)
    && run.pool.returned && run.pool.cap == Capacity(cfg.parallelism) && Full(run.pool)
    && Judged(run.pool.sched, run.history, container) && Timeline(run.start, run.history, run.before, container)
  }

  ghost predicate RowOk(cfg: Config, framesDir: string, container: string, policy: string, b: Browser, run: RowRun,
                        row: seq<Result>) {
    match run
    case Skipped => row == ErrorRow(policy, b)
    case Swept(_, _, pool, _) =>
      SweptOk(cfg, container, b, run) && row == RowOf(policy, b, framesDir, Outcomes(pool))
  }

  /** A pass of this policy waits for a rollout, of its own wiring or, without policies, of the image asked for. */
  predicate Waits(cfg: Config, pol: Policy) {
    pol.name != "" || cfg.policies == []
  }

  /** The pods run the image the run was asked for, if it was. */
  predicate UnderImage(a: Anubis, container: string, cfg: Config, pol: Policy) {
    cfg.anubisImage != "" && Waits(cfg, pol) ==> RunsImage(a.live, container, cfg.anubisImage)
  }

  /**
   * Anubis runs the template wired to the policy's ConfigMap, with the image asked for, and, in a clean run, has the
   * policy's ruleset loaded.
   */
  predicate Pinned(a: Anubis, s: Cells, container: string, cfg: Config, pol: Policy, clean: bool) {
    && UnderImage(a, container, cfg, pol)
    && (cfg.anubisImage != "" && Waits(cfg, pol) ==> a.live == a.template)
    && (pol.name != "" ==>
         && a.live == a.template && Source(a.live, container) == ConfigMapName(pol.name)
         && (clean ==> a.loaded == pol.content && RulesetOf(s, ConfigMapName(pol.name)) == pol.content))
  }

  ghost predicate RulesetsKept(s: Cells, t: Cells) {
    forall name: string :: At(t, Key(ConfigMap, name)) == At(s, Key(ConfigMap, name))
  }

  lemma PinnedDrifts(a: Anubis, b: Anubis, s: Cells, t: Cells, container: string, cfg: Config, pol: Policy,
                     clean: bool)
    requires Pinned(a, s, container, cfg, pol, clean) && Drifted(a, b, s, container) && RulesetsKept(s, t)
    ensures Pinned(b, t, container, cfg, pol, clean)
  {
  }

  /** The pods' template reads the policy's ConfigMap and, in a clean run, they have read the policy's content. */
  predicate UnderPolicy(a: Anubis, container: string, pol: Policy, clean: bool) {
    pol.name != "" ==>
      ReadsFrom(a.live, container, "anubis-policy-" + pol.name) && (clean ==> a.loaded == pol.content)
  }

  /** The moment of the write: the Job is this call's own, and Anubis served then what the sighting says. */
  ghost predicate Seen(plans: seq<Plan>, run: RowRun, container: string, m: int, i: nat, x: Sighting)
    requires run.Swept? && i < |plans|
  {
    && 0 <= m < |run.history| && WrittenAt(plans, run.before, run.pool.sched, m, i, x)
    && x.serving == Serving(Source(run.history[m].live, container), run.history[m].loaded)
  }

  /** The logs and the frame of a result are those gathered: the browser's log first, none of them empty, nothing else. */
  predicate Shows(b: Browser, framesDir: string, r: Result, c: Captured) {
    && (if c.frame then r.framePath == framesDir + "/" + LocalFrameName(r.policy, r.browser, r.tag) else r.framePath == "")
    && |r.logs| == (if c.browser != "" then 1 else 0) + (if c.bully != "" then 1 else 0) + (if c.smoke != "" then 1 else 0)
    && (c.browser != "" ==> r.logs[0] == LogCapture(b.container, c.browser))
    && (c.bully != "" ==> r.logs[if c.browser != "" then 1 else 0] == LogCapture("chrome-bully", c.bully))
    && (c.smoke != "" ==> r.logs[|r.logs| - 1] == LogCapture("smoke", c.smoke))
  }

  /**
   * A result says what happened, no less and no more: pass or fail exactly when its own worker read a verdict, and
   * that one; not ready exactly when the browser was put up but its rollout not seen complete; otherwise an error.
   * With a verdict it shows what its worker gathered, without one nothing. A skipped row has only errors.
   */
  ghost predicate Accounted(cfg: Config, b: Browser, framesDir: string, run: RowRun, i: nat, r: Result) {
    match run
    case Skipped => r.status == Error && r.framePath == "" && r.logs == []
    case Swept(before, _, pool, _) =>
      && b.base.Valid() && i < |b.versions| && SaysWhatWasSeen(PlansOf(b, cfg.limits), before, pool.sched, i, r.status)
      && if r.status in {Pass, Fail} then exists k, c :: GatheredAt(pool.sched, k, i, c) && Shows(b, framesDir, r, c)
         else r.framePath == "" && r.logs == []
  }

  lemma LogsAreShown(policy: string, b: Browser, tag: string, framesDir: string, o: Outcome)
    ensures Shows(b, framesDir, ResultOf(policy, b, tag, framesDir, o), o.captured)
    ensures o.captured == NOTHING ==> var r := ResultOf(policy, b, tag, framesDir, o); r.framePath == "" && r.logs == []
  {
  }

  lemma RowIsAccounted(cfg: Config, framesDir: string, container: string, policy: string, b: Browser, run: RowRun,
                       row: seq<Result>, i: nat)
    requires RowOk(cfg, framesDir, container, policy, b, run, row) && i < |row|
    ensures Accounted(cfg, b, framesDir, run, i, row[i])
  {
    if run.Swept? {
      var o := run.pool.slots[i].value;
      PoolTells(run.pool, PlansOf(b, cfg.limits), run.before, i);
      LogsAreShown(policy, b, b.versions[i], framesDir, o);
      if o.status in {Pass, Fail} {
        var k :| GatheredAt(run.pool.sched, k, i, o.captured);
        assert GatheredAt(run.pool.sched, k, i, o.captured) && Shows(b, framesDir, row[i], o.captured);
      }
    }
  }

  /**
   * A result is accounted for; and a pass or a fail was read on the one Job its call created, one identity past what
   * the name held when the pool was opened; in a status written to that Job at a moment of this pool, when Anubis
   * ran the image asked for and served the ConfigMap of the result's own policy and, in a clean run, that policy's
   * content.
   */
  ghost predicate Attributed(cfg: Config, framesDir: string, container: string, pol: Policy, b: Browser, clean: bool,
                             run: RowRun, i: nat, r: Result) {
    && Accounted(cfg, b, framesDir, run, i, r)
    && (r.status in {Pass, Fail} ==> VerdictIsTied(cfg, container, pol, b, clean, run, i, r))
  }

  ghost predicate VerdictIsTied(cfg: Config, container: string, pol: Policy, b: Browser, clean: bool, run: RowRun, i: nat,
                                r: Result) {
    && run.Swept? && b.base.Valid() && i < |b.versions| == |run.pool.fleet.workers|
    && r.policy == pol.name && r.browser == b.name && r.tag == b.versions[i]
    && var plans, key := PlansOf(b, cfg.limits), Key(Job, VersionedName(b.jobName, b.versions[i]));
       var x := run.pool.fleet.workers[i].sighting;
    && x.Some? && x.value.passed == (r.status == Pass)
    && x.value.job == At(run.before, key).born + 1 == At(run.pool.fleet.cells, key).born
    && (exists m :: Seen(plans, run, container, m, i, x.value)
          && UnderImage(run.history[m], container, cfg, pol) && UnderPolicy(run.history[m], container, pol, clean))
    && (pol.name != "" ==>
         && x.value.serving.configMap == ConfigMapName(pol.name)
         && (clean ==> x.value.serving.ruleset == pol.content))
  }

  lemma ServesItsPolicy(run: RowRun, container: string, cfg: Config, pol: Policy, clean: bool, m: nat)
    requires run.Swept? && Timeline(run.start, run.history, run.before, container) && m < |run.history|
    requires Pinned(run.start, run.before, container, cfg, pol, clean)
    ensures UnderImage(run.history[m], container, cfg, pol) && UnderPolicy(run.history[m], container, pol, clean)
    ensures var serving := ServingOf(run.history[m], container);
      pol.name != "" ==> serving.configMap == ConfigMapName(pol.name) && (clean ==> serving.ruleset == pol.content)
  {
    TimelineDrifts(run.start, run.history, run.before, container, m);
    if pol.name != "" { SourceMeaning(run.history[m].live, container, ConfigMapName(pol.name)); }
  }

  lemma OwnIsSeen(cfg: Config, container: string, b: Browser, run: RowRun, i: nat, passed: bool) returns (m: nat)
    requires run.Swept? && SweptOk(cfg, container, b, run) && i < |b.versions| && NoDup(b.versions)
    requires Own(PlansOf(b, cfg.limits), run.before, run.pool.sched, i, run.pool.fleet.workers[i].sighting, passed)
    ensures Seen(PlansOf(b, cfg.limits), run, container, m, i, run.pool.fleet.workers[i].sighting.value)
  {
    var k :| WrittenAt(PlansOf(b, cfg.limits), run.before, run.pool.sched, k, i, run.pool.fleet.workers[i].sighting.value);
    m := k;
  }

  lemma RowIsAttributed(cfg: Config, framesDir: string, container: string, pol: Policy, b: Browser, clean: bool,
                        run: RowRun, row: seq<Result>, i: nat)
    requires RowOk(cfg, framesDir, container, pol.name, b, run, row) && NoDup(b.versions) && i < |row|
    requires run.Swept? ==> Pinned(run.start, run.before, container, cfg, pol, clean)
    ensures Attributed(cfg, framesDir, container, pol, b, clean, run, i, row[i])
  {
    RowIsAccounted(cfg, framesDir, container, pol.name, b, run, row, i);
    if row[i].status in {Pass, Fail} { RowVerdictIsTied(cfg, framesDir, container, pol, b, clean, run, row, i); }
  }

  lemma RowVerdictIsTied(cfg: Config, framesDir: string, container: string, pol: Policy, b: Browser, clean: bool,
                         run: RowRun, row: seq<Result>, i: nat)
    requires RowOk(cfg, framesDir, container, pol.name, b, run, row) && NoDup(b.versions) && i < |row|
    requires run.Swept? ==> Pinned(run.start, run.before, container, cfg, pol, clean)
    requires row[i].status in {Pass, Fail}
    ensures VerdictIsTied(cfg, container, pol, b, clean, run, i, row[i])
  {
    assert run.Swept?;
    var plans := PlansOf(b, cfg.limits);
    BrowserIsDisjoint(b, cfg.limits);
    PoolVerdicts(run.pool, plans, run.before, i);
    assert KeyOf(plans[i], Smoke) == Key(Job, VersionedName(b.jobName, b.versions[i]));
    var m := OwnIsSeen(cfg, container, b, run, i, row[i].status == Pass);
    ServesItsPolicy(run, container, cfg, pol, clean, m);
  }

  lemma RowLabels(cfg: Config, framesDir: string, container: string, policy: string, b: Browser, run: RowRun, row: seq<Result>)
    requires RowOk(cfg, framesDir, container, policy, b, run, row)
    ensures LabelsOf(row) == Row(policy, b)
    ensures run.Skipped? ==> forall r :: r in row ==> r.status == Error
  {
  }

  lemma RowFiled(cfg: Config, framesDir: string, container: string, policy: string, b: Browser, run: RowRun, row: seq<Result>)
    requires b in cfg.browsers && RowOk(cfg, framesDir, container, policy, b, run, row)
    ensures AllFiled(cfg, framesDir, row)
  {
    if run.Skipped? { ErrorRowIsFiled(cfg, policy, b, framesDir); } else { RowIsFiled(cfg, policy, b, framesDir, Outcomes(run.pool)); }
  }

  // ---- One policy ----

  function Flat<T>(blocks: seq<seq<T>>): seq<T> {
    if blocks == [] then [] else Flat(blocks[..|blocks| - 1]) + blocks[|blocks| - 1]
  }

  lemma FlatSnoc<T>(blocks: seq<seq<T>>, b: seq<T>)
    ensures Flat(blocks + [b]) == Flat(blocks) + b
  {
    assert (blocks + [b])[..|blocks|] == blocks;
  }

  /** The first browsers' rows under one policy, each found pinned to it at its start. */
  ghost predicate RowsOk(cfg: Config, framesDir: string, container: string, pol: Policy, clean: bool,
                         runs: seq<RowRun>, rows: seq<seq<Result>>) {
    && |runs| == |rows| <= |cfg.browsers|
    && forall k :: 0 <= k < |runs| ==> RowAt(cfg, framesDir, container, pol, clean, cfg.browsers[k], runs[k], rows[k])
  }

  ghost predicate RowAt(cfg: Config, framesDir: string, container: string, pol: Policy, clean: bool, b: Browser,
                        run: RowRun, row: seq<Result>) {
    && RowOk(cfg, framesDir, container, pol.name, b, run, row)
    && (run.Swept? ==> Pinned(run.start, run.before, container, cfg, pol, clean))
  }

  lemma RowsSnoc(cfg: Config, framesDir: string, container: string, pol: Policy, clean: bool,
                 runs: seq<RowRun>, rows: seq<seq<Result>>, run: RowRun, row: seq<Result>)
    requires RowsOk(cfg, framesDir, container, pol, clean, runs, rows) && |runs| < |cfg.browsers|
    requires RowAt(cfg, framesDir, container, pol, clean, cfg.browsers[|runs|], run, row)
    ensures RowsOk(cfg, framesDir, container, pol, clean, runs + [run], rows + [row])
    ensures Flat(rows + [row]) == Flat(rows) + row
  {
    FlatSnoc(rows, row);
    forall k | 0 <= k < |runs + [run]|
      ensures RowAt(cfg, framesDir, container, pol, clean, cfg.browsers[k], (runs + [run])[k], (rows + [row])[k])
    {
      if k < |runs| { assert RowAt(cfg, framesDir, container, pol, clean, cfg.browsers[k], runs[k], rows[k]); }
    }
  }

  lemma RowsPrefix(cfg: Config, framesDir: string, container: string, pol: Policy, clean: bool,
                   runs: seq<RowRun>, rows: seq<seq<Result>>)
    requires RowsOk(cfg, framesDir, container, pol, clean, runs, rows) && runs != []
    ensures RowsOk(cfg, framesDir, container, pol, clean, runs[..|runs| - 1], rows[..|runs| - 1])
    ensures var n := |runs| - 1; RowAt(cfg, framesDir, container, pol, clean, cfg.browsers[n], runs[n], rows[n])
  {
    var n := |runs| - 1;
    forall k | 0 <= k < n ensures RowAt(cfg, framesDir, container, pol, clean, cfg.browsers[k], runs[..n][k], rows[..n][k]) {
      assert RowAt(cfg, framesDir, container, pol, clean, cfg.browsers[k], runs[k], rows[k]);
    }
  }

  lemma {:induction false} RowsLabels(cfg: Config, framesDir: string, container: string, pol: Policy, clean: bool,
                                      runs: seq<RowRun>, rows: seq<seq<Result>>)
    requires RowsOk(cfg, framesDir, container, pol, clean, runs, rows)
    ensures LabelsOf(Flat(rows)) == Block(pol.name, cfg.browsers[..|rows|])
    decreases |rows|
  {
    if rows != [] {
      var n := |rows| - 1;
      RowsPrefix(cfg, framesDir, container, pol, clean, runs, rows);
      RowsLabels(cfg, framesDir, container, pol, clean, runs[..n], rows[..n]);
      RowLabels(cfg, framesDir, container, pol.name, cfg.browsers[n], runs[n], rows[n]);
      LabelsConcat(Flat(rows[..n]), rows[n]);
      assert cfg.browsers[..n + 1][..n] == cfg.browsers[..n];
    }
  }

  lemma {:induction false} RowsFiled(cfg: Config, framesDir: string, container: string, pol: Policy, clean: bool,
                                      runs: seq<RowRun>, rows: seq<seq<Result>>)
    requires RowsOk(cfg, framesDir, container, pol, clean, runs, rows)
    ensures AllFiled(cfg, framesDir, Flat(rows))
    decreases |rows|
  {
    if rows != [] {
      var n := |rows| - 1;
      RowsPrefix(cfg, framesDir, container, pol, clean, runs, rows);
      RowsFiled(cfg, framesDir, container, pol, clean, runs[..n], rows[..n]);
      RowFiled(cfg, framesDir, container, pol.name, cfg.browsers[n], runs[n], rows[n]);
    }
  }

  lemma {:induction false} SkippedRowsFail(cfg: Config, framesDir: string, container: string, pol: Policy, clean: bool,
                                      runs: seq<RowRun>, rows: seq<seq<Result>>)
    requires RowsOk(cfg, framesDir, container, pol, clean, runs, rows)
    requires forall k :: 0 <= k < |runs| ==> runs[k].Skipped?
    ensures forall r :: r in Flat(rows) ==> r.status == Error
    decreases |rows|
  {
    if rows != [] {
      var n := |rows| - 1;
      RowsPrefix(cfg, framesDir, container, pol, clean, runs, rows);
      SkippedRowsFail(cfg, framesDir, container, pol, clean, runs[..n], rows[..n]);
      RowLabels(cfg, framesDir, container, pol.name, cfg.browsers[n], runs[n], rows[n]);
    }
  }

  /** One turn of the policy loop; if the policy could not be applied no pool was run. */
  datatype PassRun = PassRun(applied: bool, runs: seq<RowRun>, rows: seq<seq<Result>>)

  ghost predicate PassOk(cfg: Config, framesDir: string, container: string, pol: Policy, clean: bool, pass: PassRun) {
    && RowsOk(cfg, framesDir, container, pol, clean, pass.runs, pass.rows) && |pass.runs| == |cfg.browsers|
    && (!pass.applied ==> forall k :: 0 <= k < |pass.runs| ==> pass.runs[k].Skipped?)
  }

  /** What one turn reports: the policy's whole block in order; only errors if it could not be applied. */
  lemma PassLabels(cfg: Config, framesDir: string, container: string, pol: Policy, clean: bool, pass: PassRun)
    requires PassOk(cfg, framesDir, container, pol, clean, pass)
    ensures LabelsOf(Flat(pass.rows)) == Block(pol.name, cfg.browsers) && AllFiled(cfg, framesDir, Flat(pass.rows))
    ensures !pass.applied ==> forall r :: r in Flat(pass.rows) ==> r.status == Error
  {
    RowsLabels(cfg, framesDir, container, pol, clean, pass.runs, pass.rows);
    RowsFiled(cfg, framesDir, container, pol, clean, pass.runs, pass.rows);
    if !pass.applied { SkippedRowsFail(cfg, framesDir, container, pol, clean, pass.runs, pass.rows); }
    assert cfg.browsers[..|cfg.browsers|] == cfg.browsers;
  }

  // ---- The whole run ----

  ghost predicate PassesOk(cfg: Config, framesDir: string, container: string, clean: bool, passes: seq<PassRun>) {
    && |passes| <= |Passes(cfg)|
    && forall j :: 0 <= j < |passes| ==> PassOk(cfg, framesDir, container, Passes(cfg)[j], clean, passes[j])
  }

  function AllResults(passes: seq<PassRun>): seq<Result> {
    if passes == [] then [] else AllResults(passes[..|passes| - 1]) + Flat(passes[|passes| - 1].rows)
  }

  function AllRuns(passes: seq<PassRun>): seq<RowRun> {
    if passes == [] then [] else AllRuns(passes[..|passes| - 1]) + passes[|passes| - 1].runs
  }

  /** The pools ran one after another: each started from what the one before it left, give or take the cluster's own moves. */
  ghost predicate Chained(s: Cells, runs: seq<RowRun>, t: Cells) {
    if runs == [] then Grown(s, t)
    else
      var n := |runs| - 1;
      match runs[n]
      case Skipped => Chained(s, runs[..n], t)
      case Swept(before, _, pool, _) => Chained(s, runs[..n], before) && Grown(before, pool.fleet.cells) && Grown(pool.fleet.cells, t)
  }

  lemma {:induction false} ChainedGrows(s: Cells, runs: seq<RowRun>, t: Cells, u: Cells)
    requires Chained(s, runs, t) && Grown(t, u)
    ensures Chained(s, runs, u) && Grown(s, u)
    decreases |runs|
  {
    if runs != [] {
      var n := |runs| - 1;
      match runs[n]
      case Skipped => ChainedGrows(s, runs[..n], t, u);
      case Swept(before, _, pool, _) => ChainedGrows(s, runs[..n], before, before);
    }
  }

  lemma {:induction false} ChainedFrom(r: Cells, s: Cells, runs: seq<RowRun>, t: Cells)
    requires Grown(r, s) && Chained(s, runs, t)
    ensures Chained(r, runs, t)
  {
    if runs != [] {
      var n := |runs| - 1;
      ChainedFrom(r, s, runs[..n], if runs[n].Swept? then runs[n].before else t);
    }
  }

  lemma ChainedSnoc(s: Cells, runs: seq<RowRun>, m: Cells, run: RowRun, t: Cells)
    requires Chained(s, runs, m)
    requires if run.Swept? then run.before == m && Grown(m, run.pool.fleet.cells) && t == run.pool.fleet.cells else t == m
    ensures Chained(s, runs + [run], t)
  {
    assert (runs + [run])[..|runs|] == runs;
  }

  lemma {:induction false} ChainedConcat(s: Cells, a: seq<RowRun>, m: Cells, b: seq<RowRun>, t: Cells)
    requires Chained(s, a, m) && Chained(m, b, t)
    ensures Chained(s, a + b, t)
    decreases |b|
  {
    if b == [] {
      assert a + b == a;
      ChainedGrows(s, a, m, t);
    } else {
      var n := |b| - 1;
      assert (a + b)[..|a + b| - 1] == a + b[..n] && (a + b)[|a + b| - 1] == b[n];
      ChainedConcat(s, a, m, b[..n], if b[n].Swept? then b[n].before else t);
    }
  }

  /** A later pool starts no earlier than an earlier one ended: no identity it creates was there before. */
  lemma {:induction false} ChainedInOrder(s: Cells, runs: seq<RowRun>, t: Cells, m: nat, n: nat)
    requires Chained(s, runs, t) && m < n < |runs| && runs[m].Swept? && runs[n].Swept?
    ensures Grown(runs[m].pool.fleet.cells, runs[n].before)
    decreases |runs|
  {
    var l := |runs| - 1;
    if n < l {
      ChainedInOrder(s, runs[..l], if runs[l].Swept? then runs[l].before else t, m, n);
    } else {
      ChainedEnd(s, runs[..l], runs[l].before, m);
    }
  }

  lemma {:induction false} ChainedStart(s: Cells, runs: seq<RowRun>, t: Cells, m: nat)
    requires Chained(s, runs, t) && m < |runs| && runs[m].Swept?
    ensures Grown(s, runs[m].before)
    decreases |runs|
  {
    var l := |runs| - 1;
    var u := if runs[l].Swept? then runs[l].before else t;
    if m < l { ChainedStart(s, runs[..l], u, m); } else { ChainedGrows(s, runs[..l], u, u); }
  }

  lemma {:induction false} ChainedEnd(s: Cells, runs: seq<RowRun>, t: Cells, m: nat)
    requires Chained(s, runs, t) && m < |runs| && runs[m].Swept?
    ensures Grown(runs[m].pool.fleet.cells, t)
    decreases |runs|
  {
    var l := |runs| - 1;
    if m < l {
      var u := if runs[l].Swept? then runs[l].before else t;
      ChainedEnd(s, runs[..l], u, m);
    }
  }

  /** The transcript accounts for every result, in order, and for every pool behind them, between `s` and `t`. */
  ghost predicate Chronicle(cfg: Config, framesDir: string, container: string, clean: bool, passes: seq<PassRun>,
                            results: seq<Result>, s: Cells, t: Cells) {
    && |passes| == |Passes(cfg)| && PassesOk(cfg, framesDir, container, clean, passes)
    && results == AllResults(passes) && Chained(s, AllRuns(passes), t)
  }

  lemma AllSnoc(passes: seq<PassRun>, pass: PassRun)
    ensures AllResults(passes + [pass]) == AllResults(passes) + Flat(pass.rows)
    ensures AllRuns(passes + [pass]) == AllRuns(passes) + pass.runs
  {
    assert (passes + [pass])[..|passes|] == passes;
  }

  lemma PassesSnoc(cfg: Config, framesDir: string, container: string, clean: bool, passes: seq<PassRun>, pass: PassRun)
    requires PassesOk(cfg, framesDir, container, clean, passes) && |passes| < |Passes(cfg)|
    requires PassOk(cfg, framesDir, container, Passes(cfg)[|passes|], clean, pass)
    ensures PassesOk(cfg, framesDir, container, clean, passes + [pass])
  {
    forall j | 0 <= j < |passes + [pass]|
      ensures PassOk(cfg, framesDir, container, Passes(cfg)[j], clean, (passes + [pass])[j])
    {
      if j < |passes| { assert PassOk(cfg, framesDir, container, Passes(cfg)[j], clean, passes[j]); }
    }
  }

  lemma PassesPrefix(cfg: Config, framesDir: string, container: string, clean: bool, passes: seq<PassRun>)
    requires PassesOk(cfg, framesDir, container, clean, passes) && passes != []
    ensures PassesOk(cfg, framesDir, container, clean, passes[..|passes| - 1])
    ensures var n := |passes| - 1; PassOk(cfg, framesDir, container, Passes(cfg)[n], clean, passes[n])
  {
    var n := |passes| - 1;
    forall j | 0 <= j < n ensures PassOk(cfg, framesDir, container, Passes(cfg)[j], clean, passes[..n][j]) {
      assert PassOk(cfg, framesDir, container, Passes(cfg)[j], clean, passes[j]);
    }
  }

  lemma {:induction false} PassesLabels(cfg: Config, framesDir: string, container: string, clean: bool, passes: seq<PassRun>)
    requires PassesOk(cfg, framesDir, container, clean, passes)
    ensures LabelsOf(AllResults(passes)) == Cube(Passes(cfg)[..|passes|], cfg.browsers)
    ensures AllFiled(cfg, framesDir, AllResults(passes))
  {
    if passes != [] {
      var n := |passes| - 1;
      PassesPrefix(cfg, framesDir, container, clean, passes);
      PassesLabels(cfg, framesDir, container, clean, passes[..n]);
      PassLabels(cfg, framesDir, container, Passes(cfg)[n], clean, passes[n]);
      LabelsConcat(AllResults(passes[..n]), Flat(passes[n].rows));
      assert Passes(cfg)[..n + 1][..n] == Passes(cfg)[..n];
    }
  }

  /** A complete transcript reports the whole matrix, each cell once and in order. */
  lemma ChronicleLabels(cfg: Config, framesDir: string, container: string, clean: bool, passes: seq<PassRun>,
                        results: seq<Result>, s: Cells, t: Cells)
    requires Chronicle(cfg, framesDir, container, clean, passes, results, s, t)
    ensures LabelsOf(results) == Cube(Passes(cfg), cfg.browsers) && AllFiled(cfg, framesDir, results)
  {
    PassesLabels(cfg, framesDir, container, clean, passes);
    assert Passes(cfg)[..|Passes(cfg)|] == Passes(cfg);
  }

  /** Result i of row k of pass j is attributed. */
  ghost predicate AttributedAt(cfg: Config, framesDir: string, container: string, clean: bool, passes: seq<PassRun>, j: nat, k: nat, i: nat)
    requires j < |passes| <= |Passes(cfg)| && k < |passes[j].rows| == |passes[j].runs| <= |cfg.browsers| && i < |passes[j].rows[k]|
  {
    Attributed(cfg, framesDir, container, Passes(cfg)[j], cfg.browsers[k], clean, passes[j].runs[k], i, passes[j].rows[k][i])
  }

  /**
   * Verdict attribution over the whole run: for duplicate-free tags every pass or fail, under every policy,
   * is its own call's, judged under its own policy.
   */
  lemma EveryVerdictIsAttributed(cfg: Config, framesDir: string, container: string, clean: bool, passes: seq<PassRun>,
                                 j: nat, k: nat, i: nat)
    requires PassesOk(cfg, framesDir, container, clean, passes) && DistinctTags(cfg)
    requires j < |passes| && k < |passes[j].rows| && i < |passes[j].rows[k]|
    ensures |passes[j].rows| == |passes[j].runs| <= |cfg.browsers|
    ensures AttributedAt(cfg, framesDir, container, clean, passes, j, k, i)
  {
    var pass, b := passes[j], cfg.browsers[k];
    assert PassOk(cfg, framesDir, container, Passes(cfg)[j], clean, pass);
    assert RowAt(cfg, framesDir, container, Passes(cfg)[j], clean, b, pass.runs[k], pass.rows[k]);
    assert b in cfg.browsers;
    RowIsAttributed(cfg, framesDir, container, Passes(cfg)[j], b, clean, pass.runs[k], pass.rows[k], i);
  }

  /** Where row k of pass j stands among all the runs. */
  function Place(passes: seq<PassRun>, j: nat, k: nat): nat
    requires j < |passes|
  {
    |AllRuns(passes[..j])| + k
  }

  lemma {:induction false} RunAtPlace(passes: seq<PassRun>, j: nat, k: nat)
    requires j < |passes| && k < |passes[j].runs|
    ensures Place(passes, j, k) < |AllRuns(passes)| && AllRuns(passes)[Place(passes, j, k)] == passes[j].runs[k]
    decreases |passes|
  {
    var n := |passes| - 1;
    if j < n {
      RunAtPlace(passes[..n], j, k);
      assert passes[..n][..j] == passes[..j];
    }
  }

  lemma {:induction false} LaterPlace(passes: seq<PassRun>, i: nat, j: nat, k: nat, l: nat)
    requires i < j < |passes| && k < |passes[i].runs|
    ensures Place(passes, i, k) < Place(passes, j, l)
    decreases j
  {
    assert passes[..j][..j - 1] == passes[..j - 1] && passes[..j][j - 1] == passes[j - 1];
    if i < j - 1 { LaterPlace(passes, i, j - 1, k, 0); }
  }

  /**
   * Never an earlier Job: whatever its name, the Job behind a verdict did not exist at any moment of any
   * earlier pool, be it under an earlier policy or of an earlier browser under the same one.
   */
  lemma NeverAnEarlierJob(cfg: Config, framesDir: string, container: string, clean: bool, passes: seq<PassRun>,
                                 results: seq<Result>, s: Cells, t: Cells, i: nat, k: nat, j: nat, l: nat, v: nat)
    requires Chronicle(cfg, framesDir, container, clean, passes, results, s, t) && DistinctTags(cfg)
    requires (i < j || (i == j && k < l)) && j < |passes| && k < |passes[i].runs| && passes[i].runs[k].Swept?
    requires l < |passes[j].rows| && v < |passes[j].rows[l]| && passes[j].rows[l][v].status in {Pass, Fail}
    ensures l < |passes[j].runs| && l < |cfg.browsers| && passes[j].runs[l].Swept? && v < |cfg.browsers[l].versions|
    ensures v < |passes[j].runs[l].pool.fleet.workers| && passes[j].runs[l].pool.fleet.workers[v].sighting.Some?
    ensures At(passes[i].runs[k].pool.fleet.cells, Key(Job, VersionedName(cfg.browsers[l].jobName, cfg.browsers[l].versions[v]))).born
          < passes[j].runs[l].pool.fleet.workers[v].sighting.value.job
  {
    EveryVerdictIsAttributed(cfg, framesDir, container, clean, passes, j, l, v);
    RunAtPlace(passes, i, k);
    RunAtPlace(passes, j, l);
    if i < j { LaterPlace(passes, i, j, k, l); }
    ChainedInOrder(s, AllRuns(passes), t, Place(passes, i, k), Place(passes, j, l));
  }
}
