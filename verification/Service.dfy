/**
 * The two entry points of the server in the form the code has, over the real cluster, one request at a time,
 * while any other requests arrive, sweep and comment in between. Each takes only steps of the machine in
 * Server, and the sweep among them is the real one: that it gives the template back is what Run's contract says.
 */
module Service {
  import opened Store
  import opened Server
  import opened History
  import opened Manifests
  import C = Cluster
  import Anubis
  import Grouping
  import Matrix
  import Report
  import Requests
  import Sweep
  import T = Truncation
  import Worker

  /** Request i is at phase p. */
  predicate Stands(s: Server, i: nat, p: Phase) {
    i < |s.phases| && i < |s.reqs| && s.phases[i] == p
  }

  /**
   * The record of a request that went well: its own results, the requested matrix, with every verdict accounted for
   * and attributed, from a sweep that lay between the namespace the request came to and the one it left.
   */
  ghost predicate Recorded(l: Record, id: nat, q: Requests.Request, results: seq<Report.Result>, container: string,
                           s0: Cells, now: Cells) {
    && l.id == id && l.results == results && Requests.Reported(q, l.cfg, results)
    && RecordOk(l, container) && Matrix.Grown(s0, l.before) && Matrix.Grown(l.after, now)
  }

  /** The comment says that the test passed exactly when every version did, and otherwise that it found failures. */
  predicate ResultTold(body: T.Bytes, results: seq<Report.Result>) {
    && (T.SaysPassed(body) <==> forall r :: r in results ==> r.status == Report.Pass)
    && (T.SaysFailures(body) <==> exists r :: r in results && r.status != Report.Pass)
  }

  class Service {
    var s: Server
    const cluster: C.Cluster
    const chromeBase: Matrix.Base
    const firefoxBase: Matrix.Base
    const limits: Worker.Limits
    ghost const initial: Anubis.Template
    ghost var acts: seq<Act>

    /** What happened so far is a run of the machine. */
    ghost predicate Tracks()
      reads this
    {
      s == Run(Idle(initial), acts)
    }

    /** The machine's template is the one in the cluster. */
    ghost predicate Valid()
      reads this, cluster
    {
      Tracks() && cluster.Valid() && cluster.anubis.template == s.template && chromeBase.Valid() && firefoxBase.Valid()
    }

    /** Whenever the semaphore is free, Anubis has the template it started with, unless a restore failed. */
    ghost predicate AtRest()
      reads this, cluster
    {
      s.used == 0 && !s.lost ==> cluster.anubis.template == initial
    }

    constructor (cluster: C.Cluster, chromeBase: Matrix.Base, firefoxBase: Matrix.Base, limits: Worker.Limits)
      requires cluster.Valid() && chromeBase.Valid() && firefoxBase.Valid()
      ensures Valid() && this.cluster == cluster && initial == cluster.anubis.template && s == Idle(initial)
    {
      this.cluster, this.chromeBase, this.firefoxBase, this.limits := cluster, chromeBase, firefoxBase, limits;
      this.initial, s, acts := cluster.anubis.template, Idle(cluster.anubis.template), [];
    }

    method Move(a: Act)
      requires Tracks() && Enabled(s, a)
      modifies this`s, this`acts
      ensures Tracks() && s == Apply(old(s), a)
    {
      assert (acts + [a])[..|acts|] == acts;
      acts := acts + [a];
      s := Apply(s, a);
    }

    /** A move of another request; one that writes the template writes it in the cluster. */
    method Foreign(a: Act) returns (ghost done: Act)
      requires Valid() && Enabled(s, a)
      modifies this`s, this`acts, cluster`cells, cluster`anubis
      ensures Valid()
      ensures Enabled(old(s), done) && s == Apply(old(s), done)
      ensures if a.Write? then done.Write? && done.i == a.i else done == a
      ensures !a.Write? ==> cluster.cells == old(cluster.cells) && s.template == old(s.template)
      ensures Matrix.Grown(old(cluster.cells), cluster.cells)
    {
      if a.Write? {
        cluster.Churn();
        var _ := cluster.UpdateTemplate(a.t);
        done := Write(a.i, cluster.anubis.template);
        Move(Write(a.i, cluster.anubis.template));
      } else {
        done := a;
        Move(a);
      }
    }

    /** Anubis pods turn over, and some other request may move. */
    method OtherMove(i: nat)
      requires Valid() && i < |s.phases| && i < |s.reqs|
      modifies this`s, this`acts, cluster`cells, cluster`anubis
      ensures Valid() && i < |s.phases| && i < |s.reqs|
      ensures s.phases[i] == old(s.phases[i]) && s.reqs[i] == old(s.reqs[i])
      ensures Holding(s.phases[i]) ==> s.template == old(s.template) && cluster.cells == old(cluster.cells) && s.lost == old(s.lost)
      ensures Matrix.Grown(old(cluster.cells), cluster.cells)
    {
      var a: Act := *;
      cluster.Settle();
      if Enabled(s, a) && ByAnother(a, i) {
        ghost var t0 := s;
        if Holding(s.phases[i]) { TokenKeepsOthersOut(a, i); }
        ghost var done := Foreign(a);
        OthersKeep(t0, done, i);
      }
    }

    /**
     * Other requests arrive and make their moves; this one stands where it stood. While it holds the token
     * no one else sweeps: neither the template nor the namespace is touched.
     */
    method Others(i: nat)
      requires Valid() && i < |s.phases| && i < |s.reqs|
      modifies this`s, this`acts, cluster`cells, cluster`anubis
      ensures Valid() && i < |s.phases| && i < |s.reqs|
      ensures s.phases[i] == old(s.phases[i]) && s.reqs[i] == old(s.reqs[i])
      ensures Holding(s.phases[i]) ==> s.template == old(s.template) && cluster.cells == old(cluster.cells) && s.lost == old(s.lost)
      ensures Matrix.Grown(old(cluster.cells), cluster.cells)
    {
      var n := AnyNumber();
      for k := 0 to n
        invariant Valid() && i < |s.phases| && i < |s.reqs|
        invariant s.phases[i] == old(s.phases[i]) && s.reqs[i] == old(s.reqs[i])
        invariant Holding(s.phases[i]) ==> s.template == old(s.template) && cluster.cells == old(cluster.cells) && s.lost == old(s.lost)
        invariant Matrix.Grown(old(cluster.cells), cluster.cells)
      {
        OtherMove(i);
      }
    }

    lemma TokenKeepsOthersOut(a: Act, i: nat)
      requires Tracks() && Enabled(s, a) && ByAnother(a, i) && i < |s.phases| && Holding(s.phases[i])
      ensures !a.Write? && !a.Finish?
    {
      RunInv(initial, acts);
      assert forall j :: 0 <= j < |s.phases| && Holding(s.phases[j]) ==> j == i;
    }

    lemma Sane()
      requires Tracks()
      ensures |s.phases| == |s.reqs| && (s.used >= 1 ==> s.holder.Some?)
    {
      RunInv(initial, acts);
    }

    lemma Rested()
      requires Valid()
      ensures AtRest()
    {
      RunInv(initial, acts);
      assert forall i :: 0 <= i < |s.phases| && s.phases[i].Sweeping? ==> Holding(s.phases[i]);
    }

    /** What a request has posted, from where it stands. */
    lemma CommentsOf(id: nat)
      requires Tracks() && id < |s.phases|
      ensures |s.reqs| == |s.phases| && LogOf(s.log, id) == Expected(s.reqs[id], s.phases[id])
    {
      RunInv(initial, acts);
    }

    /**
     * executeSweep, with the real run inside. The machine's Finish is enabled because Run's contract says what
     * became of the template; a restore that failed is what marks the server's template as lost.
     */
    method ExecuteSweep(id: nat, q: Requests.Request, framesDir: string, manifestImage: string)
      returns (ok: bool, results: seq<Report.Result>, fate: Sweep.Fate, ghost l: Option<Record>)
      requires Valid() && Stands(s, id, Preparing) && Requests.Validated(q)
      modifies this`s, this`acts, cluster
      ensures Valid() && id < |s.reqs| && Stands(s, id, AfterSweep(s.reqs[id], ok)) && s.reqs[id] == old(s.reqs[id])
      ensures cluster.restores == old(cluster.restores) + (if fate.taken then 1 else 0)
      ensures s.lost == (old(s.lost) || (fate.taken && !fate.reverted))
      ensures Matrix.Grown(old(cluster.cells), cluster.cells)
      ensures (ok ==> fate.taken) && (l.Some? <==> ok)
      ensures ok ==> Recorded(l.value, id, q, results, cluster.container, old(cluster.cells), cluster.cells)
    {
      ghost var before := Beginning(id);
      ghost var found, cells := cluster.anubis, cluster.cells;
      ghost var passes;
      var cfg;
      ok, cfg, results, passes, fate := Requests.ExecuteSweep(cluster, q, chromeBase, firefoxBase, limits, framesDir, manifestImage);
      l := if ok then Some(Record(id, cfg, framesDir, found, cells, passes, results, cluster.cells)) else None;
      Finishing(id, ok, fate, before);
    }

    /** Into the sweep, with the template that is there now. */
    method Beginning(id: nat) returns (ghost before: Anubis.Template)
      requires Valid() && Stands(s, id, Preparing)
      modifies this`s, this`acts, cluster`cells, cluster`anubis
      ensures Valid() && Stands(s, id, Sweeping(before)) && before == cluster.anubis.template
      ensures s.reqs[id] == old(s.reqs[id]) && s.lost == old(s.lost) && Matrix.Grown(old(cluster.cells), cluster.cells)
    {
      Others(id);
      Sane();
      Move(Begin(id, true));
      Others(id);
      before := cluster.anubis.template;
    }

    /** The end of the sweep: the template it left, then Finish, which the run's fate permits. */
    method Finishing(id: nat, ok: bool, fate: Sweep.Fate, ghost before: Anubis.Template)
      requires Tracks() && cluster.Valid() && chromeBase.Valid() && firefoxBase.Valid()
      requires Stands(s, id, Sweeping(before)) && (ok ==> fate.taken)
      requires Sweep.RunKeepsTemplate(fate, before, cluster.anubis)
      modifies this`s, this`acts
      ensures Valid() && id < |s.reqs| && Stands(s, id, AfterSweep(s.reqs[id], ok)) && s.reqs[id] == old(s.reqs[id])
      ensures s.lost == (old(s.lost) || (fate.taken && !fate.reverted))
    {
      Sane();
      Move(Write(id, cluster.anubis.template));
      Move(Finish(id, fate.taken, fate.reverted, ok));
    }

    /** The deferred release. */
    method Release(id: nat, ok: bool)
      requires Valid() && Stands(s, id, Leaving(ok))
      modifies this`s, this`acts
      ensures Valid() && Stands(s, id, Over(Completed(ok))) && s.reqs[id] == old(s.reqs[id])
    {
      RunInv(initial, acts);
      assert Holding(s.phases[id]);
      Move(Act.Release(id));
    }

    /** A request comes in, and others come and go before it gets any further. */
    method Appear(r: Request) returns (id: nat)
      requires Valid()
      modifies this`s, this`acts, cluster`cells, cluster`anubis
      ensures Valid() && Stands(s, id, Arrived) && s.reqs[id] == r && Matrix.Grown(old(cluster.cells), cluster.cells)
    {
      id := |s.phases|;
      Sane();
      Move(Arrive(r));
      Others(id);
    }

    /** The closing comment's text, from how the sweep went; rendering, upload and error text are left open. */
    method ClosingBody(ok: bool, results: seq<Report.Result>, sha: T.Bytes) returns (body: T.Bytes)
      ensures if ok then ResultTold(body, results) else T.SaysNotRun(body)
    {
      var markdown: T.Bytes, url: T.Bytes, err: T.Bytes := *, *, *;
      if ok {
        var passed := Grouping.AllPassed(results);
        body := T.BodyResult(passed, markdown, sha, url);
        T.ResultSays(passed, markdown, sha, url);
      } else {
        body := T.BodyRunError(sha, err);
        T.RunErrorSays(sha, err);
      }
    }

    /** SmokeTest: validate, try the semaphore, sweep, and release it on the way out. */
    method SmokeTest(q: Requests.Request, framesDir: string, manifestImage: string)
      returns (reply: Reply, success: bool, results: seq<Report.Result>, ghost i: nat, ghost l: Option<Record>)
      requires Valid()
      modifies this`s, this`acts, cluster
      ensures Valid() && AtRest() && Stands(s, i, Over(reply)) && s.reqs[i] == Smoke(Requests.Validated(q))
      ensures reply == Invalid <==> !Requests.Validated(q)
      ensures Matrix.Grown(old(cluster.cells), cluster.cells)
      ensures l.Some? <==> reply == Completed(true)
      ensures l.Some? ==> (success <==> forall r :: r in results ==> r.status == Report.Pass)
      ensures l.Some? ==> Recorded(l.value, i, q, results, cluster.container, old(cluster.cells), cluster.cells)
      ensures LogOf(s.log, i) == []
    {
      success, results, l := false, [], None;
      var id := Appear(Smoke(Requests.Validated(q)));
      i := id;
      Sane();
      if !Requests.Validated(q) {
        reply := Refuse(id);
      } else {
        var taken;
        taken, reply := TryAtOnce(id);
        if taken {
          var ok;
          ok, success, results, l := SweepAndRelease(id, q, framesDir, manifestImage);
          reply := Completed(ok);
        }
      }
      CommentsOf(id);
      Rested();
    }

    /** SmokeTest's select on the semaphore: the token, or a busy reply at once. */
    method TryAtOnce(id: nat) returns (taken: bool, reply: Reply)
      requires Valid() && Stands(s, id, Arrived) && s.reqs[id] == Smoke(true)
      modifies this`s, this`acts
      ensures Valid() && Stands(s, id, if taken then Preparing else Over(reply)) && s.reqs[id] == old(s.reqs[id])
      ensures !taken ==> reply.Exhausted?
    {
      Sane();
      taken, reply := s.used < 1, Invalid;
      if !taken { reply := Exhausted(s.holder.value, |s.releases|); }
      Move(Enter(id));
    }

    /** With the token held: the sweep, then the deferred release. */
    method SweepAndRelease(id: nat, q: Requests.Request, framesDir: string, manifestImage: string)
      returns (ok: bool, success: bool, results: seq<Report.Result>, ghost l: Option<Record>)
      requires Valid() && Stands(s, id, Preparing) && s.reqs[id].Smoke? && Requests.Validated(q)
      modifies this`s, this`acts, cluster
      ensures Valid() && Stands(s, id, Over(Completed(ok))) && s.reqs[id] == old(s.reqs[id])
      ensures Matrix.Grown(old(cluster.cells), cluster.cells) && (l.Some? <==> ok)
      ensures success <==> Grouping.Passing(results)
      ensures l.Some? ==> Recorded(l.value, id, q, results, cluster.container, old(cluster.cells), cluster.cells)
    {
      var fate;
      ok, results, fate, l := ExecuteSweep(id, q, framesDir, manifestImage);
      success := Grouping.AllPassed(results);
      Others(id);
      Release(id, ok);
    }

    /** SubmitSmokeTest up to its reply: a busy server posts one note, a free one starts the background sweep. */
    method SubmitSmokeTest(q: Requests.Request, allowed: bool) returns (accepted: bool, reply: Reply, id: nat)
      requires Valid()
      modifies this`s, this`acts, cluster`cells, cluster`anubis
      ensures Valid() && AtRest() && Matrix.Grown(old(cluster.cells), cluster.cells)
      ensures Stands(s, id, if accepted then Admitted else Over(reply)) && s.reqs[id] == Submit(Requests.Validated(q), allowed)
      ensures !accepted ==> (reply == Invalid <==> !Requests.Validated(q)) && (reply == Denied <==> Requests.Validated(q) && !allowed)
      ensures accepted ==> Requests.Validated(q) && allowed
      ensures LogOf(s.log, id) == if !accepted && Requests.Validated(q) && allowed then [BusyNote] else []
    {
      var valid := Requests.Validated(q);
      id := Appear(Submit(valid, allowed));
      accepted, reply := false, Invalid;
      if !valid || !allowed {
        reply := Refuse(id);
      } else {
        accepted := TrySemaphore(id);
        if !accepted { reply := PostBusyNote(id); }
      }
      CommentsOf(id);
      Rested();
    }

    /** Validation first, then the allowlist; neither posts anything. */
    method Refuse(id: nat) returns (reply: Reply)
      requires Valid() && Stands(s, id, Arrived) && (!s.reqs[id].valid || s.reqs[id] == Submit(true, false))
      modifies this`s, this`acts
      ensures Valid() && Stands(s, id, Over(reply)) && s.reqs[id] == old(s.reqs[id])
      ensures reply == if s.reqs[id].valid then Denied else Invalid
    {
      Sane();
      reply := if s.reqs[id].valid then Denied else Invalid;
      Move(Enter(id));
    }

    /** The select on the semaphore: taken if there is room, otherwise straight to the default branch. */
    method TrySemaphore(id: nat) returns (taken: bool)
      requires Valid() && Stands(s, id, Arrived) && s.reqs[id] == Submit(true, true)
      modifies this`s, this`acts
      ensures Valid() && id < |s.phases| && id < |s.reqs| && s.reqs[id] == old(s.reqs[id])
      ensures if taken then s.phases[id] == Admitted else s.phases[id].Turned?
    {
      Sane();
      taken := s.used < 1;
      Move(Enter(id));
    }

    method PostBusyNote(id: nat) returns (reply: Reply)
      requires Valid() && id < |s.phases| && id < |s.reqs| && s.phases[id].Turned?
      modifies this`s, this`acts, cluster`cells, cluster`anubis
      ensures Valid() && Stands(s, id, Over(reply)) && s.reqs[id] == old(s.reqs[id])
      ensures reply == Exhausted(old(s.phases[id].holder), old(s.phases[id].turn))
      ensures Matrix.Grown(old(cluster.cells), cluster.cells)
    {
      reply := Exhausted(s.phases[id].holder, s.phases[id].turn);
      Others(id);
      Sane();
      Move(PostBusy(id));
    }

    method PostAckComment(id: nat)
      requires Valid() && Stands(s, id, Admitted)
      modifies this`s, this`acts, cluster`cells, cluster`anubis
      ensures Valid() && Stands(s, id, Preparing) && s.reqs[id] == old(s.reqs[id]) && Matrix.Grown(old(cluster.cells), cluster.cells)
    {
      Others(id);
      Sane();
      Move(PostAck(id));
    }

    /** The closing comment, then the deferred release. */
    method Close(id: nat, ok: bool)
      requires Valid() && Stands(s, id, Swept(ok)) && s.reqs[id].Submit?
      modifies this`s, this`acts, cluster`cells, cluster`anubis
      ensures Valid() && AtRest() && Stands(s, id, Over(Completed(ok)))
      ensures LogOf(s.log, id) == [Ack, if ok then ResultBody else RunErrorBody] && Matrix.Grown(old(cluster.cells), cluster.cells)
    {
      Others(id);
      Sane();
      Move(PostClosing(id));
      Others(id);
      Release(id, ok);
      CommentsOf(id);
      Rested();
    }

    /** The background goroutine of an accepted submit: ack, sweep, closing comment, release. */
    method Background(id: nat, q: Requests.Request, framesDir: string, manifestImage: string, sha: T.Bytes)
      returns (ok: bool, body: T.Bytes, results: seq<Report.Result>, ghost l: Option<Record>)
      requires Valid() && Stands(s, id, Admitted) && s.reqs[id].Submit? && Requests.Validated(q)
      modifies this`s, this`acts, cluster
      ensures Valid() && AtRest() && Stands(s, id, Over(Completed(ok)))
      ensures Matrix.Grown(old(cluster.cells), cluster.cells)
      ensures l.Some? <==> ok
      ensures l.Some? ==> Recorded(l.value, id, q, results, cluster.container, old(cluster.cells), cluster.cells)
      ensures if ok then ResultTold(body, results) else T.SaysNotRun(body)
      ensures LogOf(s.log, id) == [Ack, if ok then ResultBody else RunErrorBody]
    {
      PostAckComment(id);
      var fate;
      ok, results, fate, l := ExecuteSweep(id, q, framesDir, manifestImage);
      body := ClosingBody(ok, results, sha);
      Close(id, ok);
    }

    /** Some request of either kind, from arrival to reply or to the end of its background sweep. */
    method Handle(framesDir: string, manifestImage: string) returns (ghost l: Option<Record>)
      requires Valid()
      modifies this`s, this`acts, cluster
      ensures Valid() && AtRest() && Matrix.Grown(old(cluster.cells), cluster.cells)
      ensures l.Some? ==> RecordOk(l.value, cluster.container)
      ensures l.Some? ==> Matrix.Grown(old(cluster.cells), l.value.before) && Matrix.Grown(l.value.after, cluster.cells)
    {
      var q: Requests.Request, sync: bool, allowed: bool, sha: T.Bytes := *, *, *, *;
      l := None;
      var reply, success, body, results, ok, accepted, id;
      ghost var i;
      if sync {
        reply, success, results, i, l := SmokeTest(q, framesDir, manifestImage);
      } else {
        accepted, reply, id := SubmitSmokeTest(q, allowed);
        if accepted { ok, body, results, l := Background(id, q, framesDir, manifestImage, sha); }
      }
    }

    /** The server's life: any number of requests, and the records of those that went well. */
    method Serve(framesDir: string, manifestImage: string) returns (ghost log: seq<Record>)
      requires Valid()
      modifies this`s, this`acts, cluster
      ensures Valid() && AtRest() && Kept(log, cluster.container, cluster.cells)
    {
      log := [];
      Rested();
      var n := AnyNumber();
      for k := 0 to n
        invariant Valid() && AtRest() && Kept(log, cluster.container, cluster.cells)
      {
        ghost var now := cluster.cells;
        ghost var l := Handle(framesDir, manifestImage);
        log := Noted(log, l, now, cluster.container, cluster.cells);
      }
    }
  }

  ghost method Noted(log: seq<Record>, l: Option<Record>, s: Cells, container: string, t: Cells) returns (next: seq<Record>)
    requires Kept(log, container, s) && Matrix.Grown(s, t)
    requires l.Some? ==> RecordOk(l.value, container) && Matrix.Grown(s, l.value.before) && Matrix.Grown(l.value.after, t)
    ensures Kept(next, container, t)
  {
    if l.Some? {
      KeptSnoc(log, s, l.value, container, t);
      next := log + [l.value];
    } else {
      KeptGrows(log, container, s, t);
      next := log;
    }
  }

  /** A move of some other request. */
  predicate ByAnother(a: Act, i: nat) {
    a.Arrive? || a.i != i
  }

  lemma OthersKeep(s: Server, a: Act, i: nat)
    requires Enabled(s, a) && i < |s.phases| && i < |s.reqs| && ByAnother(a, i)
    ensures var t := Apply(s, a);
      i < |t.phases| && i < |t.reqs| && t.phases[i] == s.phases[i] && t.reqs[i] == s.reqs[i]
  {
  }
}
