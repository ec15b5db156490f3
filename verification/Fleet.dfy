/** Several `sweepOne` calls over one namespace, interleaved step by step in any order. */
module Fleet {
  import opened Manifests
  import opened Store
  import opened Report
  import opened Worker

  datatype Fleet = Fleet(workers: seq<Worker>, cells: Cells)

  type Schedule = seq<(nat, Action)>

  function FleetStep(f: Fleet, i: nat, a: Action): (f': Fleet)
    ensures |f'.workers| == |f.workers|
  {
    if i < |f.workers| then
      var (w, s) := Step(f.workers[i], f.cells, a);
      Fleet(f.workers[i := w], s)
    else f
  }

  function FleetExec(f: Fleet, sched: Schedule): (f': Fleet)
    ensures |f'.workers| == |f.workers|
  {
    if sched == [] then f
    else
      var last := sched[|sched| - 1];
      FleetStep(FleetExec(f, sched[..|sched| - 1]), last.0, last.1)
  }

  /** The steps of worker `i`, in order. */
  function Projection(sched: Schedule, i: nat): seq<Action> {
    if sched == [] then []
    else
      var last := sched[|sched| - 1];
      Projection(sched[..|sched| - 1], i) + if last.0 == i then [last.1] else []
  }

  predicate Disjoint(p: Plan, q: Plan) {
    forall r: Res, q': Res :: KeyOf(p, r) != KeyOf(q, q')
  }

  predicate AllDisjoint(plans: seq<Plan>) {
    forall i, j :: 0 <= i < |plans| && 0 <= j < |plans| && i != j ==> Disjoint(plans[i], plans[j])
  }

  predicate Agree(p: Plan, s: Cells, t: Cells) {
    forall r: Res :: At(s, KeyOf(p, r)) == At(t, KeyOf(p, r))
  }

  function Starts(plans: seq<Plan>, s: Cells): Fleet {
    Fleet(seq(|plans|, i requires 0 <= i < |plans| => Start(plans[i])), s)
  }

  /** What a call does to the worker and to the one object it names depends on that object alone. */
  lemma CallLocal(w: Worker, s: Cells, t: Cells, f: Fault)
    requires Agree(w.plan, s, t)
    ensures CallStep(w, s, f).0 == CallStep(w, t, f).0
  {
    match w.pc
    case Deleting(r) => assert At(s, KeyOf(w.plan, r)) == At(t, KeyOf(w.plan, r));
    case Clearing(r, _) => assert At(s, KeyOf(w.plan, r)) == At(t, KeyOf(w.plan, r));
    case Creating(r) => assert At(s, KeyOf(w.plan, r)) == At(t, KeyOf(w.plan, r));
    case AwaitReady(_) => assert At(s, KeyOf(w.plan, Dep)) == At(t, KeyOf(w.plan, Dep));
    case AwaitVerdict(_) => assert At(s, KeyOf(w.plan, Smoke)) == At(t, KeyOf(w.plan, Smoke));
    case _ =>
  }

  lemma CallCellLocal(w: Worker, s: Cells, t: Cells, f: Fault, r: Res)
    requires At(s, KeyOf(w.plan, r)) == At(t, KeyOf(w.plan, r))
    ensures At(CallStep(w, s, f).1, KeyOf(w.plan, r)) == At(CallStep(w, t, f).1, KeyOf(w.plan, r))
  {
    var k := KeyOf(w.plan, r);
    if (w.pc.Deleting? || w.pc.Creating? || w.pc.Tearing?) && w.pc.r == r {
      match w.pc
      case Deleting(_) => assert At(DeleteStep(w, s, r, f).1, k) == At(DeleteStep(w, t, r, f).1, k);
      case Creating(_) => assert At(CreateStep(w, s, r, f).1, k) == At(CreateStep(w, t, r, f).1, k);
      case Tearing(_) => assert At(TearStep(w, s, r, f).1, k) == At(TearStep(w, t, r, f).1, k);
    } else {
      CallFrame(w, s, f, k);
      CallFrame(w, t, f, k);
    }
  }

  /** A worker cannot tell two namespaces apart that agree on its own four names. */
  lemma StepLocal(w: Worker, s: Cells, t: Cells, a: Action)
    requires Agree(w.plan, s, t)
    ensures var (w', s') := Step(w, s, a); var (w'', t') := Step(w, t, a);
      w' == w'' && Agree(w.plan, s', t')
  {
    if a.Call? { CallLocal(w, s, t, a.fault); }
    forall r: Res
      ensures At(Step(w, s, a).1, KeyOf(w.plan, r)) == At(Step(w, t, a).1, KeyOf(w.plan, r))
    {
      assert At(s, KeyOf(w.plan, r)) == At(t, KeyOf(w.plan, r));
      if a.Call? { CallCellLocal(w, s, t, a.fault, r); }
    }
  }

  lemma {:induction false} PlansKept(plans: seq<Plan>, s: Cells, sched: Schedule, i: nat)
    requires i < |plans|
    ensures FleetExec(Starts(plans, s), sched).workers[i].plan == plans[i]
  {
    if sched != [] {
      var f := FleetExec(Starts(plans, s), sched[..|sched| - 1]);
      var last := sched[|sched| - 1];
      PlansKept(plans, s, sched[..|sched| - 1], i);
      if last.0 < |plans| {
        StepPlan(f.workers[last.0], f.cells, last.1);
      }
    }
  }

  /** A step of another worker changes nothing that worker `p` could see. */
  lemma OtherStep(p: Plan, w: Worker, s: Cells, a: Action)
    requires Disjoint(p, w.plan)
    ensures Agree(p, s, Step(w, s, a).1)
  {
    forall r: Res
      ensures At(s, KeyOf(p, r)) == At(Step(w, s, a).1, KeyOf(p, r))
    {
      StepFrame(w, s, a, KeyOf(p, r));
    }
  }

  lemma ExecSnoc(w: Worker, s: Cells, acts: seq<Action>, a: Action)
    ensures Exec(w, s, acts + [a])
         == (var (w', s') := Exec(w, s, acts); Step(w', s', a))
  {
    assert (acts + [a])[..|acts|] == acts;
  }

  /**
   * In every interleaving each worker ends exactly as it would have ended alone, doing its own steps
   * in the same order, and so do its four objects.
   */
  lemma {:induction false} WorkerIsAlone(plans: seq<Plan>, s: Cells, sched: Schedule, i: nat)
    requires AllDisjoint(plans) && i < |plans|
    ensures var f := FleetExec(Starts(plans, s), sched);
      var (w, t) := Exec(Start(plans[i]), s, Projection(sched, i));
      f.workers[i] == w && w.plan == plans[i] && Agree(plans[i], f.cells, t)
  {
    if sched != [] {
      var rest, last := sched[..|sched| - 1], sched[|sched| - 1];
      WorkerIsAlone(plans, s, rest, i);
      var f := FleetExec(Starts(plans, s), rest);
      var (w, t) := Exec(Start(plans[i]), s, Projection(rest, i));
      if last.0 == i {
        ExecSnoc(Start(plans[i]), s, Projection(rest, i), last.1);
        StepLocal(w, f.cells, t, last.1);
        StepPlan(w, t, last.1);
      } else {
        assert Projection(sched, i) == Projection(rest, i);
        if last.0 < |plans| {
          PlansKept(plans, s, rest, last.0);
          OtherStep(plans[i], f.workers[last.0], f.cells, last.1);
        }
      }
    }
  }

  /** Where step j of worker i stands in the schedule. */
  lemma {:induction false} ProjectionIndex(sched: Schedule, i: nat, j: nat) returns (k: nat)
    requires j < |Projection(sched, i)|
    ensures k < |sched| && sched[k] == (i, Projection(sched, i)[j]) && Projection(sched[..k], i) == Projection(sched, i)[..j]
  {
    var n := |sched| - 1;
    var rest := Projection(sched[..n], i);
    if j < |rest| {
      k := ProjectionIndex(sched[..n], i, j);
      assert sched[..n][..k] == sched[..k];
      assert Projection(sched, i)[..j] == rest[..j];
    } else {
      k := n;
      assert Projection(sched, i)[..j] == rest;
    }
  }

  /** Step k writes the verdict seen to worker i's own Job; `serving` is what Anubis served at that step. */
  ghost predicate WrittenAt(plans: seq<Plan>, s: Cells, sched: Schedule, k: int, i: nat, x: Sighting)
    requires i < |plans|
  {
    && 0 <= k < |sched| && sched[k].0 == i && sched[k].1.Rewrite? && sched[k].1.r == Smoke
    && Decides(sched[k].1.status.conditions, x.passed) && sched[k].1.status.judged == x.serving
    && At(FleetExec(Starts(plans, s), sched[..k]).cells, KeyOf(plans[i], Smoke)).born == x.job
  }

  /** A write of a worker's own run is a write of the whole schedule, made to the same identity. */
  lemma WriteInSchedule(plans: seq<Plan>, s: Cells, sched: Schedule, i: nat, j: nat, x: Sighting) returns (k: nat)
    requires AllDisjoint(plans) && i < |plans| && WroteAt(plans[i], s, Projection(sched, i), j, x)
    ensures WrittenAt(plans, s, sched, k, i, x)
  {
    k := ProjectionIndex(sched, i, j);
    WorkerIsAlone(plans, s, sched[..k], i);
    var f := FleetExec(Starts(plans, s), sched[..k]);
    var (w, t) := Exec(Start(plans[i]), s, Projection(sched, i)[..j]);
    assert At(f.cells, KeyOf(plans[i], Smoke)) == At(t, KeyOf(plans[i], Smoke));
  }

  ghost predicate Foreign(plans: seq<Plan>, k: Key) {
    forall i, r: Res :: 0 <= i < |plans| ==> KeyOf(plans[i], r) != k
  }

  /** The union of the workers' footprints is all that ever changes. */
  lemma {:induction false} FleetFrame(plans: seq<Plan>, s: Cells, sched: Schedule, k: Key)
    requires Foreign(plans, k)
    ensures At(FleetExec(Starts(plans, s), sched).cells, k) == At(s, k)
  {
    if sched != [] {
      var rest, last := sched[..|sched| - 1], sched[|sched| - 1];
      FleetFrame(plans, s, rest, k);
      if last.0 < |plans| {
        var f := FleetExec(Starts(plans, s), rest);
        PlansKept(plans, s, rest, last.0);
        StepFrame(f.workers[last.0], f.cells, last.1, k);
      }
    }
  }

  /** Two interleavings of the same per-worker steps are indistinguishable. */
  lemma OrderDoesNotMatter(plans: seq<Plan>, s: Cells, a: Schedule, b: Schedule)
    requires AllDisjoint(plans)
    requires forall i :: 0 <= i < |plans| ==> Projection(a, i) == Projection(b, i)
    ensures var f := FleetExec(Starts(plans, s), a); var g := FleetExec(Starts(plans, s), b);
      f.workers == g.workers && Same(f.cells, g.cells)
  {
    var f := FleetExec(Starts(plans, s), a);
    var g := FleetExec(Starts(plans, s), b);
    forall i | 0 <= i < |plans|
      ensures f.workers[i] == g.workers[i] && Agree(plans[i], f.cells, g.cells)
    {
      WorkerIsAlone(plans, s, a, i);
      WorkerIsAlone(plans, s, b, i);
    }
    forall k: Key
      ensures At(f.cells, k) == At(g.cells, k)
    {
      if Foreign(plans, k) {
        FleetFrame(plans, s, a, k);
        FleetFrame(plans, s, b, k);
      } else {
        var i, r: Res :| 0 <= i < |plans| && KeyOf(plans[i], r) == k;
        assert Agree(plans[i], f.cells, g.cells);
      }
    }
  }

  function Tagged(acts: seq<Action>, i: nat): Schedule {
    seq(|acts|, j requires 0 <= j < |acts| => (i, acts[j]))
  }

  /** The workers of `sched` run one after another: 0 to the end, then 1, and so on. */
  function OneByOne(sched: Schedule, n: nat): Schedule {
    if n == 0 then [] else OneByOne(sched, n - 1) + Tagged(Projection(sched, n - 1), n - 1)
  }

  lemma {:induction false} ProjectionConcat(a: Schedule, b: Schedule, i: nat)
    ensures Projection(a + b, i) == Projection(a, i) + Projection(b, i)
  {
    if b == [] {
      assert a + b == a;
    } else {
      assert (a + b)[..|a + b| - 1] == a + b[..|b| - 1];
      ProjectionConcat(a, b[..|b| - 1], i);
    }
  }

  lemma {:induction false} ProjectionTagged(acts: seq<Action>, j: nat, i: nat)
    ensures Projection(Tagged(acts, j), i) == if i == j then acts else []
  {
    if acts != [] {
      ProjectionTagged(acts[..|acts| - 1], j, i);
      assert Tagged(acts, j)[..|acts| - 1] == Tagged(acts[..|acts| - 1], j);
    }
  }

  lemma {:induction false} ProjectionOneByOne(sched: Schedule, n: nat, i: nat)
    ensures Projection(OneByOne(sched, n), i) == if i < n then Projection(sched, i) else []
  {
    if n > 0 {
      ProjectionOneByOne(sched, n - 1, i);
      ProjectionConcat(OneByOne(sched, n - 1), Tagged(Projection(sched, n - 1), n - 1), i);
      ProjectionTagged(Projection(sched, n - 1), n - 1, i);
    }
  }

  /**
   * Non-interference: any interleaving of workers with disjoint names ends with the same workers and
   * the same namespace as running them one after another.
   */
  lemma NonInterference(plans: seq<Plan>, s: Cells, sched: Schedule)
    requires AllDisjoint(plans)
    ensures var f := FleetExec(Starts(plans, s), sched);
      var g := FleetExec(Starts(plans, s), OneByOne(sched, |plans|));
      f.workers == g.workers && Same(f.cells, g.cells)
  {
    forall i | 0 <= i < |plans|
      ensures Projection(sched, i) == Projection(OneByOne(sched, |plans|), i)
    {
      ProjectionOneByOne(sched, |plans|, i);
    }
    OrderDoesNotMatter(plans, s, sched, OneByOne(sched, |plans|));
  }

  lemma StepGrows(w: Worker, s: Cells, a: Action, k: Key)
    ensures At(s, k).born <= At(Step(w, s, a).1, k).born
  {
    if a.Call? {
      match w.pc
      case Creating(r) => assert At(s, k).born <= At(CreateStep(w, s, r, a.fault).1, k).born;
      case _ =>
    }
  }

  /** At step k worker i is handed these logs and this frame. */
  predicate GatheredAt(sched: Schedule, k: int, i: nat, c: Captured) {
    0 <= k < |sched| && sched[k] == (i, Gather(c))
  }

  /** A worker that has recorded an outcome tells what happened to it, even if names clash. */
  ghost predicate TellsAll(sched: Schedule, i: nat, w: Worker) {
    && TellInv(w)
    && (w.outcome.Some? ==>
          if w.outcome.value.status in {Pass, Fail} then exists k :: GatheredAt(sched, k, i, w.outcome.value.captured)
          else w.outcome.value.captured == NOTHING)
  }

  lemma TellsOn(sched: Schedule, i: nat, w: Worker, last: (nat, Action))
    requires TellsAll(sched, i, w)
    ensures TellsAll(sched + [last], i, w)
  {
    if w.outcome.Some? && w.outcome.value.status in {Pass, Fail} {
      var k :| GatheredAt(sched, k, i, w.outcome.value.captured);
      assert GatheredAt(sched + [last], k, i, w.outcome.value.captured);
    }
  }

  lemma TellsNext(sched: Schedule, i: nat, w: Worker, s: Cells, a: Action)
    requires TellsAll(sched, i, w)
    ensures TellsAll(sched + [(i, a)], i, Step(w, s, a).0)
  {
    var w' := Step(w, s, a).0;
    TellStep(w, s, a);
    GatherStep(w, s, a);
    TellsOn(sched, i, w, (i, a));
    if w'.outcome != w.outcome && a.Gather? { assert GatheredAt(sched + [(i, a)], |sched|, i, a.captured); }
  }

  lemma {:induction false} FleetTells(plans: seq<Plan>, s: Cells, sched: Schedule, i: nat)
    requires i < |plans|
    ensures TellsAll(sched, i, FleetExec(Starts(plans, s), sched).workers[i])
  {
    if sched != [] {
      var rest, last := sched[..|sched| - 1], sched[|sched| - 1];
      FleetTells(plans, s, rest, i);
      var f := FleetExec(Starts(plans, s), rest);
      assert rest + [last] == sched;
      if last.0 == i { TellsNext(rest, i, f.workers[i], f.cells, last.1); } else { TellsOn(rest, i, f.workers[i], last); }
    }
  }

  // ---- What a worker has seen, step by step of the schedule ----

  /** Step k is worker i's. */
  predicate IsStepOf(sched: Schedule, k: int, i: nat) {
    0 <= k < |sched| && sched[k].0 == i
  }

  ghost predicate CreatedAt(plans: seq<Plan>, s: Cells, sched: Schedule, k: int, i: nat, r: Res)
    requires i < |plans|
  {
    IsStepOf(sched, k, i)
    && var f := FleetExec(Starts(plans, s), sched[..k]); SeesCreated(f.workers[i], f.cells, sched[k].1, r)
  }

  ghost predicate ReadyAt(plans: seq<Plan>, s: Cells, sched: Schedule, k: int, i: nat)
    requires i < |plans|
  {
    IsStepOf(sched, k, i)
    && var f := FleetExec(Starts(plans, s), sched[..k]); SeesReady(f.workers[i], f.cells, sched[k].1)
  }

  ghost predicate VerdictAt(plans: seq<Plan>, s: Cells, sched: Schedule, k: int, i: nat, passed: bool)
    requires i < |plans|
  {
    IsStepOf(sched, k, i)
    && var f := FleetExec(Starts(plans, s), sched[..k]); SeesVerdict(f.workers[i], f.cells, sched[k].1, passed)
  }

  ghost predicate SawCreated(plans: seq<Plan>, s: Cells, sched: Schedule, i: nat, r: Res)
    requires i < |plans|
  {
    exists k :: CreatedAt(plans, s, sched, k, i, r)
  }

  ghost predicate SawReady(plans: seq<Plan>, s: Cells, sched: Schedule, i: nat)
    requires i < |plans|
  {
    exists k :: ReadyAt(plans, s, sched, k, i)
  }

  ghost predicate SawVerdict(plans: seq<Plan>, s: Cells, sched: Schedule, i: nat, passed: bool)
    requires i < |plans|
  {
    exists k :: VerdictAt(plans, s, sched, k, i, passed)
  }

  lemma CreatedLater(plans: seq<Plan>, s: Cells, sched: Schedule, i: nat, r: Res)
    requires i < |plans| && sched != []
    ensures SawCreated(plans, s, sched, i, r)
       <==> SawCreated(plans, s, sched[..|sched| - 1], i, r) || CreatedAt(plans, s, sched, |sched| - 1, i, r)
  {
    var rest := sched[..|sched| - 1];
    if k :| CreatedAt(plans, s, rest, k, i, r) {
      assert rest[..k] == sched[..k];
      assert CreatedAt(plans, s, sched, k, i, r);
    }
    if k :| CreatedAt(plans, s, sched, k, i, r) && k < |rest| {
      assert rest[..k] == sched[..k];
      assert CreatedAt(plans, s, rest, k, i, r);
    }
  }

  lemma ReadyLater(plans: seq<Plan>, s: Cells, sched: Schedule, i: nat)
    requires i < |plans| && sched != []
    ensures SawReady(plans, s, sched, i)
       <==> SawReady(plans, s, sched[..|sched| - 1], i) || ReadyAt(plans, s, sched, |sched| - 1, i)
  {
    var rest := sched[..|sched| - 1];
    if k :| ReadyAt(plans, s, rest, k, i) {
      assert rest[..k] == sched[..k];
      assert ReadyAt(plans, s, sched, k, i);
    }
    if k :| ReadyAt(plans, s, sched, k, i) && k < |rest| {
      assert rest[..k] == sched[..k];
      assert ReadyAt(plans, s, rest, k, i);
    }
  }

  lemma VerdictLater(plans: seq<Plan>, s: Cells, sched: Schedule, i: nat, passed: bool)
    requires i < |plans| && sched != []
    ensures SawVerdict(plans, s, sched, i, passed)
       <==> SawVerdict(plans, s, sched[..|sched| - 1], i, passed) || VerdictAt(plans, s, sched, |sched| - 1, i, passed)
  {
    var rest := sched[..|sched| - 1];
    if k :| VerdictAt(plans, s, rest, k, i, passed) {
      assert rest[..k] == sched[..k];
      assert VerdictAt(plans, s, sched, k, i, passed);
    }
    if k :| VerdictAt(plans, s, sched, k, i, passed) && k < |rest| {
      assert rest[..k] == sched[..k];
      assert VerdictAt(plans, s, rest, k, i, passed);
    }
  }

  lemma {:induction false} KnowsCreated(plans: seq<Plan>, s: Cells, sched: Schedule, i: nat, r: Res)
    requires i < |plans|
    ensures r in FleetExec(Starts(plans, s), sched).workers[i].made <==> SawCreated(plans, s, sched, i, r)
  {
    if sched != [] {
      var rest, last := sched[..|sched| - 1], sched[|sched| - 1];
      KnowsCreated(plans, s, rest, i, r);
      CreatedLater(plans, s, sched, i, r);
      var f := FleetExec(Starts(plans, s), rest);
      if last.0 == i { CreatedStep(f.workers[i], f.cells, last.1, r); }
    }
  }

  lemma {:induction false} KnowsReady(plans: seq<Plan>, s: Cells, sched: Schedule, i: nat)
    requires i < |plans|
    ensures FleetExec(Starts(plans, s), sched).workers[i].ready <==> SawReady(plans, s, sched, i)
  {
    if sched != [] {
      var rest, last := sched[..|sched| - 1], sched[|sched| - 1];
      KnowsReady(plans, s, rest, i);
      ReadyLater(plans, s, sched, i);
      var f := FleetExec(Starts(plans, s), rest);
      if last.0 == i { ReadyKept(f.workers[i], f.cells, last.1); }
    }
  }

  lemma {:induction false} KnowsVerdict(plans: seq<Plan>, s: Cells, sched: Schedule, i: nat, passed: bool)
    requires i < |plans|
    ensures Sighted(FleetExec(Starts(plans, s), sched).workers[i], passed) <==> SawVerdict(plans, s, sched, i, passed)
  {
    if sched != [] {
      var rest, last := sched[..|sched| - 1], sched[|sched| - 1];
      KnowsVerdict(plans, s, rest, i, passed);
      VerdictLater(plans, s, sched, i, passed);
      var f := FleetExec(Starts(plans, s), rest);
      if last.0 == i {
        FleetTells(plans, s, rest, i);
        VerdictKept(f.workers[i], f.cells, last.1, passed);
      }
    }
  }

  /**
   * What a status says, in terms of what the API answered: pass or fail exactly when the worker's own Job was read to say
   * so; not ready exactly when everything was put up and no poll found the rollout complete; error in every other case.
   */
  ghost predicate SaysWhatWasSeen(plans: seq<Plan>, s: Cells, sched: Schedule, i: nat, status: Status)
    requires i < |plans|
  {
    var up := SawCreated(plans, s, sched, i, Dep) && SawCreated(plans, s, sched, i, Svc) && SawCreated(plans, s, sched, i, Net);
    && (status == Pass <==> SawVerdict(plans, s, sched, i, true))
    && (status == Fail <==> SawVerdict(plans, s, sched, i, false))
    && (status == NotReady <==> up && !SawReady(plans, s, sched, i))
    && (status == Error <==>
          !up || (SawReady(plans, s, sched, i) && !SawVerdict(plans, s, sched, i, true) && !SawVerdict(plans, s, sched, i, false)))
  }

  lemma StatusSaysWhatWasSeen(plans: seq<Plan>, s: Cells, sched: Schedule, i: nat)
    requires i < |plans|
    ensures var w := FleetExec(Starts(plans, s), sched).workers[i];
      w.outcome.Some? ==> SaysWhatWasSeen(plans, s, sched, i, w.outcome.value.status)
  {
    var w := FleetExec(Starts(plans, s), sched).workers[i];
    FleetTells(plans, s, sched, i);
    KnowsCreated(plans, s, sched, i, Dep);
    KnowsCreated(plans, s, sched, i, Svc);
    KnowsCreated(plans, s, sched, i, Net);
    KnowsReady(plans, s, sched, i);
    KnowsVerdict(plans, s, sched, i, true);
    KnowsVerdict(plans, s, sched, i, false);
  }

  predicate Recorded(w: Worker) {
    w.outcome.Some? <==> Leaving(w)
  }

  predicate AllRecorded(workers: seq<Worker>) {
    forall i :: 0 <= i < |workers| ==> Recorded(workers[i])
  }

  /** Identities are never reused and a worker that is tearing down has recorded its outcome, even if names clash. */
  lemma {:induction false} FleetKeeps(plans: seq<Plan>, s: Cells, sched: Schedule)
    ensures var f := FleetExec(Starts(plans, s), sched);
      && (forall k: Key :: At(s, k).born <= At(f.cells, k).born)
      && AllRecorded(f.workers)
  {
    if sched != [] {
      var rest, last := sched[..|sched| - 1], sched[|sched| - 1];
      FleetKeeps(plans, s, rest);
      var f := FleetExec(Starts(plans, s), rest);
      if last.0 < |plans| {
        forall k: Key
          ensures At(f.cells, k).born <= At(Step(f.workers[last.0], f.cells, last.1).1, k).born
        {
          StepGrows(f.workers[last.0], f.cells, last.1, k);
        }
        StepOutcome(f.workers[last.0], f.cells, last.1);
      }
    }
  }

  lemma StepOutcome(w: Worker, s: Cells, a: Action)
    requires Recorded(w)
    ensures Recorded(Step(w, s, a).0)
  {
  }
}
