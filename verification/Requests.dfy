/** A validated request carried through to its report: the presets, the version lists, the policies, the run. */
module Requests {
  import opened Manifests
  import opened Report
  import opened Worker
  import opened Matrix
  import opened Cluster
  import opened Rehost
  import opened Parse
  import opened Policies
  import opened Transcript
  import opened Sweep
  import opened Naming
  import Grouping
  import Rendering

  datatype Request = Request(image: string, chrome: seq<int>, firefox: seq<int>, policies: map<string, string>)

  /** The rules protovalidate enforces before anything else happens. */
  predicate Validated(r: Request) {
    && r.image != ""
    && r.chrome != [] && (forall v :: v in r.chrome ==> v > 70)
    && r.firefox != [] && (forall v :: v in r.firefox ==> v > 101)
    && r.policies != map[] && forall name :: name in r.policies ==> ValidPolicyName(name) && r.policies[name] != ""
  }

  function ChromeBrowser(base: Base, versions: seq<string>): Browser {
    Browser("chrome", "ghcr.io/techarohq/gubal/chrome", "chrome", "chrome", "chrome-smoke", versions, base)
  }

  function FirefoxBrowser(base: Base, versions: seq<string>): Browser {
    Browser("firefox", "ghcr.io/techarohq/gubal/firefox", "firefox", "firefox", "firefox-smoke", versions, base)
  }

  function Presets(r: Request, chromeBase: Base, firefoxBase: Base): seq<Browser> {
    (if r.chrome == [] then [] else [ChromeBrowser(chromeBase, Itoas(r.chrome))])
    + (if r.firefox == [] then [] else [FirefoxBrowser(firefoxBase, Itoas(r.firefox))])
  }

  /** Presets carrying the requested versions; a browser without versions is left out, a repeated version is an error. */
  method BrowsersFor(r: Request, chromeBase: Base, firefoxBase: Base) returns (browsers: Option<seq<Browser>>)
    ensures browsers.None? <==> !NoDup(r.chrome) || !NoDup(r.firefox) || (r.chrome == [] && r.firefox == [])
    ensures browsers.Some? ==> browsers.value == Presets(r, chromeBase, firefoxBase)
  {
    var out: seq<Browser> := [];
    if |r.chrome| > 0 {
      var vs := ParseInts(r.chrome);
      if vs.None? { return None; }
      out := out + [ChromeBrowser(chromeBase, vs.value)];
    }
    if |r.firefox| > 0 {
      var vs := ParseInts(r.firefox);
      if vs.None? { return None; }
      out := out + [FirefoxBrowser(firefoxBase, vs.value)];
    }
    if out == [] { return None; }
    browsers := Some(out);
  }

  // ---- What validation and parsing guarantee ----

  lemma DecimalHasNoDash(s: string)
    requires Decimal(s)
    ensures NoDash(s)
  {
    assert !Digit('-');
  }

  lemma ItoasAreDecimal(vs: seq<int>)
    requires forall v :: v in vs ==> v >= 0
    ensures forall t :: t in Itoas(vs) ==> Decimal(t) && NoDash(t)
  {
    forall t | t in Itoas(vs) ensures Decimal(t) && NoDash(t) {
      var i :| 0 <= i < |vs| && Itoas(vs)[i] == t;
      assert vs[i] in vs;
      DecimalHasNoDash(Itoa(vs[i]));
    }
  }

  lemma SortedAreDistinct(ps: seq<Policy>)
    requires SortedByName(ps)
    ensures DistinctPolicies(ps)
  {
    forall i, j | 0 <= i < j < |ps| ensures ps[i].name != ps[j].name {
      assert Less(NamesOf(ps)[i], NamesOf(ps)[j]);
      LessIrreflexive(ps[i].name);
    }
  }

  lemma RequestedPoliciesArePlain(r: Request, ps: seq<Policy>)
    requires Validated(r) && SortedByName(ps) && Carries(r.policies, ps)
    ensures PlainPolicies(ps) && DistinctPolicies(ps) && ps != []
  {
    SortedAreDistinct(ps);
    CarriesNothing(r.policies, ps);
    assert r.policies.Keys != {};
    forall i | 0 <= i < |ps| ensures ps[i].name != "" && '/' !in ps[i].name {
      assert ps[i] in ps && ValidPolicyName(ps[i].name);
    }
  }

  predicate Requested(browsers: seq<Browser>, r: Request) {
    && |browsers| == 2
    && browsers[0] == ChromeBrowser(browsers[0].base, Itoas(r.chrome))
    && browsers[1] == FirefoxBrowser(browsers[1].base, Itoas(r.firefox))
    && NoDup(r.chrome) && NoDup(r.firefox)
  }

  lemma RequestedBrowsersArePlain(browsers: seq<Browser>, r: Request)
    requires Validated(r) && Requested(browsers, r)
    ensures PlainBrowsers(browsers) && DistinctBrowsers(browsers) && StemsApart(browsers)
    ensures forall b :: b in browsers ==> NoDup(b.versions) && PlainHost(b.deployment) && forall t :: t in b.versions ==> Decimal(t)
  {
    ItoasAreDecimal(r.chrome);
    ItoasAreDecimal(r.firefox);
    ItoasKeepDuplicates(r.chrome);
    ItoasKeepDuplicates(r.firefox);
    PresetsArePlain();
    assert "chrome" != "firefox";
    PresetsNameWell(browsers[0]);
    PresetsNameWell(browsers[1]);
    DashFreeStemsApart(browsers);
  }

  /** The presets by name: which image each requested version runs, and what its objects are called. */
  lemma RequestedImages(browsers: seq<Browser>, r: Request, limits: Limits, n: int, i: nat)
    requires Requested(browsers, r)
    requires n in r.chrome || n in r.firefox
    ensures n in r.chrome ==> Itoa(n) in browsers[0].versions
    ensures n in r.firefox ==> Itoa(n) in browsers[1].versions
    ensures browsers[0].base.Valid() && i < |browsers[0].base.deployment.containers|
            && browsers[0].base.deployment.containers[i].name == "chrome" ==>
      var p := PlanOf(browsers[0], Itoa(n), limits);
      && p.dep.containers[i].image == "ghcr.io/techarohq/gubal/chrome:" + Itoa(n)
      && p.dep.name == "chrome-" + Itoa(n) && p.smoke.name == "chrome-smoke-" + Itoa(n)
    ensures browsers[1].base.Valid() && i < |browsers[1].base.deployment.containers|
            && browsers[1].base.deployment.containers[i].name == "firefox" ==>
      var p := PlanOf(browsers[1], Itoa(n), limits);
      && p.dep.containers[i].image == "ghcr.io/techarohq/gubal/firefox:" + Itoa(n)
      && p.dep.name == "firefox-" + Itoa(n) && p.smoke.name == "firefox-smoke-" + Itoa(n)
  {
    if n in r.chrome {
      var j :| 0 <= j < |r.chrome| && r.chrome[j] == n;
      assert Itoas(r.chrome)[j] == Itoa(n);
    }
    if n in r.firefox {
      var j :| 0 <= j < |r.firefox| && r.firefox[j] == n;
      assert Itoas(r.firefox)[j] == Itoa(n);
    }
    if browsers[0].base.Valid() { PlanOfVersion(browsers[0], Itoa(n), limits); }
    if browsers[1].base.Valid() { PlanOfVersion(browsers[1], Itoa(n), limits); }
    assert "ghcr.io/techarohq/gubal/chrome" + ":" == "ghcr.io/techarohq/gubal/chrome:";
    assert "ghcr.io/techarohq/gubal/firefox" + ":" == "ghcr.io/techarohq/gubal/firefox:";
    assert "chrome" + "-" == "chrome-" && "chrome-smoke" + "-" == "chrome-smoke-";
    assert "firefox" + "-" == "firefox-" && "firefox-smoke" + "-" == "firefox-smoke-";
  }

  /**
   * Whatever the Job manifests say: retargeted for one of the requested versions, no argument reaches the
   * unversioned browser any more, and every `localhost:9222` is left as it was.
   */
  lemma JobsReachTheirOwnBrowser(browsers: seq<Browser>, r: Request, b: Browser, tag: string, limits: Limits, i: nat, j: nat)
    requires Validated(r) && Requested(browsers, r) && b in browsers && b.base.Valid() && tag in b.versions
    requires i < |b.base.job.containers| && j < |b.base.job.containers[i].args|
    ensures var arg, arg' := b.base.job.containers[i].args[j], PlanOf(b, tag, limits).smoke.containers[i].args[j];
      && Count(arg', CdpHost(b.deployment)) == 0
      && Count(arg', CdpHost(VersionedName(b.deployment, tag)))
         == Count(arg, CdpHost(VersionedName(b.deployment, tag))) + Count(arg, CdpHost(b.deployment))
      && Count(arg', LOCALHOST) == Count(arg, LOCALHOST)
  {
    RequestedBrowsersArePlain(browsers, r);
    RehostedArg(b.base.job.containers[i].args[j], b.deployment, tag);
  }

  /**
   * executeSweep on a validated request. When it succeeds: one result per requested (policy, browser,
   * version), shown in exactly that order; every pass or fail read from a Job of its own; no frame
   * overwrites another and no two bundle entries share a name. A repeated version is refused before anything moves.
   */
  method ExecuteSweep(c: Cluster, r: Request, chromeBase: Base, firefoxBase: Base, limits: Limits, framesDir: string,
                      manifestImage: string)
    returns (ok: bool, cfg: Config, results: seq<Result>, ghost passes: seq<PassRun>, fate: Fate)
    requires c.Valid() && Validated(r) && chromeBase.Valid() && firefoxBase.Valid()
    modifies c
    ensures c.Valid() && Grown(old(c.cells), c.cells)
    ensures c.restores == old(c.restores) + (if fate.taken then 1 else 0)
    ensures RunKeepsTemplate(fate, old(c.anubis.template), c.anubis)
    ensures ok ==> NoDup(r.chrome) && NoDup(r.firefox) && fate.taken
    ensures !NoDup(r.chrome) || !NoDup(r.firefox) ==> !fate.taken && c.cells == old(c.cells) && c.anubis == old(c.anubis)
    ensures ok ==>
      && Reported(r, cfg, results) && DistinctTags(cfg)
      && Chronicle(cfg, framesDir, c.container, old(Clean(c, cfg)), passes, results, old(c.cells), c.cells)
      && AllAttributed(cfg, framesDir, c.container, old(Clean(c, cfg)), passes)
  {
    ok, results, passes, fate := false, [], [], Fate(false, false, false);
    cfg := Config([], [], 8, "", limits);
    var browsers := BrowsersFor(r, chromeBase, firefoxBase);
    if browsers.None? { return; }
    var haveClient: bool := *;
    if !haveClient { return; }
    var policies := PoliciesFromMap(r.policies);
    cfg := Config(policies, browsers.value, 8, r.image, limits);
    var haveDir: bool := *;
    if !haveDir { return; }
    RequestedPoliciesArePlain(r, policies);
    RequestedBrowsersArePlain(browsers.value, r);
    assert WellNamed(cfg);
    var image;
    ok, image, results, passes, fate := Run(c, cfg, framesDir, manifestImage);
    if ok { ReportIsSound(cfg, framesDir, results); }
  }

  /** No two results share a label or a saved frame, and no bundle made of them repeats a name. */
  ghost predicate Distinguishable(rs: seq<Result>) {
    && NoDup(LabelsOf(rs))
    && (forall i, j :: 0 <= i < j < |rs| && rs[i].framePath != "" ==> rs[i].framePath != rs[j].framePath)
    && (forall json, markdown, disk :: NoDup(Names(BundleEntries(json, markdown, rs, disk))))
  }

  /** The requested matrix, each cell once, in order and shown in that order, with no two results confused. */
  ghost predicate Reported(r: Request, cfg: Config, results: seq<Result>) {
    && cfg.anubisImage == r.image
    && SortedByName(cfg.policies) && Carries(r.policies, cfg.policies) && Requested(cfg.browsers, r)
    && LabelsOf(results) == Cube(cfg.policies, cfg.browsers)
    && Grouping.Rows(results) == results && Distinguishable(results)
  }

  lemma ReportIsSound(cfg: Config, framesDir: string, rs: seq<Result>)
    requires WellNamed(cfg) && cfg.policies != [] && StemsApart(cfg.browsers)
    requires LabelsOf(rs) == Cube(Passes(cfg), cfg.browsers) && AllFiled(cfg, framesDir, rs)
    ensures Grouping.Rows(rs) == rs && Distinguishable(rs)
  {
    Rendering.RunOutputIsRenderedInOrder(rs, cfg);
    RunResultsAreOrderly(cfg, framesDir, rs);
    RunFilesNeverClash(cfg, framesDir, rs, "", "", map[]);
    forall json, markdown, disk ensures NoDup(Names(BundleEntries(json, markdown, rs, disk))) {
      BundleNamesDiffer(json, markdown, rs, disk);
    }
  }
}
