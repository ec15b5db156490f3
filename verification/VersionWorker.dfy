/**
 * `sweepOne` in the form the code has: API calls, polling loops, early returns and a deferred teardown.
 * Each method is proved to take exactly the steps of the machine in Worker, so what holds over every
 * run of that machine holds of this code.
 */
module VersionWorker {
  import opened Manifests
  import opened Store
  import opened Report
  import opened Worker
  import opened Fleet

  /** An API reply: an error other than "not found" says nothing about what happened. */
  datatype Reply = Found | NotFound | Unanswered

  class Session {
    const plan: Plan
    var cells: Cells
    ghost const before: Cells
    ghost var acts: seq<Action>
    ghost var w: Worker

    /** The steps taken so far lead the machine from where the call began to where it is. */
    ghost predicate Tracks()
      reads this
    {
      w.plan == plan && Exec(Start(plan), before, acts) == (w, cells)
    }

    /** An early return with this status is under way. */
    ghost predicate Aborted(status: Status)
      reads this
    {
      w.pc == Tearing(Dep) && w.outcome == Some(Outcome(status, NOTHING)) && w.torn == []
    }

    constructor (plan: Plan, cells: Cells)
      ensures Tracks() && w == Start(plan)
      ensures this.plan == plan && this.cells == cells && before == cells
    {
      this.plan, this.cells, this.before := plan, cells, cells;
      acts, w := [], Start(plan);
    }

    /** One more step of the machine, already made in the namespace. */
    ghost method Note(a: Action, prev: Cells)
      requires w.plan == plan && Exec(Start(plan), before, acts) == (w, prev)
      requires Step(w, prev, a).1 == cells
      modifies `acts, `w
      ensures Tracks() && w == Step(old(w), prev, a).0
    {
      ExecSnoc(Start(plan), before, acts, a);
      StepPlan(w, prev, a);
      acts, w := acts + [a], Step(w, prev, a).0;
    }

    /** The cluster finishes deletions and controllers write status. */
    method Settle()
      requires Tracks()
      modifies `cells, `acts, `w
      ensures Tracks() && w == old(w)
    {
      var n := AnyNumber();
      for i := 0 to n
        invariant Tracks() && w == old(w)
      {
        var r: Res, reap: bool, status: ObjStatus := *, *, *;
        ghost var prev := cells;
        if reap {
          cells := Reaped(cells, KeyOf(plan, r));
          Note(Reap(r), prev);
        } else {
          cells := Reported(cells, KeyOf(plan, r), status);
          Note(Rewrite(r, status), prev);
        }
      }
    }

    method Delete(k: Key) returns (reply: Reply, ghost f: Fault)
      modifies `cells
      ensures cells == if f == Refused then old(cells) else Marked(old(cells), k)
      ensures reply == if f != Granted then Unanswered else if Exists(old(cells), k) then Found else NotFound
    {
      var fault: Fault := *;
      f := fault;
      reply := if fault != Granted then Unanswered else if Exists(cells, k) then Found else NotFound;
      if fault != Refused { cells := Marked(cells, k); }
    }

    method Get(k: Key) returns (reply: Reply, c: Cell, ghost f: Fault)
      ensures c == At(cells, k)
      ensures reply == if f != Granted then Unanswered else if Exists(cells, k) then Found else NotFound
    {
      var fault: Fault := *;
      f := fault;
      c := At(cells, k);
      reply := if fault != Granted then Unanswered else if Exists(cells, k) then Found else NotFound;
    }

    method Create(k: Key, spec: Manifest) returns (ok: bool, ghost f: Fault)
      modifies `cells
      ensures cells == if f == Refused || old(Exists(cells, k)) then old(cells) else Created(old(cells), k, spec)
      ensures ok <==> f == Granted && !old(Exists(cells, k))
    {
      var fault: Fault := *;
      f := fault;
      ok := fault == Granted && !Exists(cells, k);
      if fault != Refused && !Exists(cells, k) { cells := Created(cells, k, spec); }
    }

    method WaitGone(r: Res) returns (ok: bool)
      requires Tracks() && w.pc == Clearing(r, ClearLimit(plan, r)) && w.torn == []
      modifies `cells, `acts, `w
      ensures Tracks() && w.torn == [] && if ok then w.pc == Creating(r) else Aborted(Error)
    {
      var polls := ClearLimit(plan, r);
      while true
        invariant Tracks() && w.pc == Clearing(r, polls) && w.torn == []
        decreases polls
      {
        Settle();
        var reply, _, f := Get(KeyOf(plan, r));
        Note(Call(f), cells);
        if reply == NotFound { return true; }
        if reply == Unanswered { return false; }
        if polls == 0 { return false; }
        polls := polls - 1;
      }
    }

    /** CreateOrReplaceDeployment, -Service, -NetworkPolicy and ReplaceJob. */
    method CreateOrReplace(r: Res, spec: Manifest) returns (ok: bool)
      requires Tracks() && w.pc == Deleting(r) && spec == SpecOf(plan, r) && w.torn == []
      modifies `cells, `acts, `w
      ensures Tracks() && w.torn == [] && if ok then w.pc == AfterCreate(plan, r) else Aborted(Error)
    {
      var k := KeyOf(plan, r);
      Settle();
      ghost var prev := cells;
      var reply, f := Delete(k);
      Note(Call(f), prev);
      if reply == Unanswered { return false; }
      if reply == Found {
        ok := WaitGone(r);
        if !ok { return; }
      }
      Settle();
      prev := cells;
      ok, f := Create(k, spec);
      Note(Call(f), prev);
    }

    /** WaitDeploymentReady on this version's Deployment. */
    method WaitReady() returns (ok: bool)
      requires Tracks() && w.pc == AwaitReady(plan.limits.ready) && w.torn == []
      modifies `cells, `acts, `w
      ensures Tracks() && w.torn == [] && if ok then w.pc == Deleting(Smoke) else Aborted(NotReady)
    {
      var polls := plan.limits.ready;
      while true
        invariant Tracks() && w.pc == AwaitReady(polls) && w.torn == []
        decreases polls
      {
        Settle();
        var reply, c, f := Get(KeyOf(plan, Dep));
        Note(Call(f), cells);
        if reply != Found { return false; }
        if c.obj.value.status.rollout.Ready() { return true; }
        if polls == 0 { return false; }
        polls := polls - 1;
      }
    }

    method WaitJob() returns (done: bool, succeeded: bool)
      requires Tracks() && w.pc == AwaitVerdict(plan.limits.job) && w.torn == []
      modifies `cells, `acts, `w
      ensures Tracks() && w.torn == [] && if done then w.pc == Gathering(succeeded) else Aborted(Error)
      ensures done ==> var c := At(cells, KeyOf(plan, Smoke)); c.obj.Some? && Decides(c.obj.value.status.conditions, succeeded)
    {
      succeeded := false;
      var polls := plan.limits.job;
      while true
        invariant Tracks() && w.pc == AwaitVerdict(polls) && w.torn == []
        decreases polls
      {
        Settle();
        var reply, c, f := Get(KeyOf(plan, Smoke));
        Note(Call(f), cells);
        if reply != Found { return false, false; }
        VerdictMeaning(c.obj.value.status.conditions);
        var found, verdict := ReadConditions(c.obj.value.status.conditions);
        if found { return true, verdict; }
        if polls == 0 { return false, false; }
        polls := polls - 1;
      }
    }

    /** Every delete is tried whatever became of the ones before; no error exactly when each was answered. */
    method DeleteVersionResources() returns (clean: bool)
      requires Tracks() && w.pc == Tearing(Dep) && w.torn == []
      modifies `cells, `acts, `w
      ensures Tracks() && w.pc == Finished && w.outcome == old(w.outcome)
      ensures |w.torn| == 4 && (clean <==> w.torn[0].1 && w.torn[1].1 && w.torn[2].1 && w.torn[3].1)
    {
      var dep := Tear(Dep);
      var svc := Tear(Svc);
      var net := Tear(Net);
      var job := Tear(Smoke);
      clean := dep && svc && net && job;
    }

    method Tear(r: Res) returns (answered: bool)
      requires Tracks() && w.pc == Tearing(r)
      modifies `cells, `acts, `w
      ensures Tracks() && w.pc == AfterTear(r) && w.outcome == old(w.outcome)
      ensures w.torn == old(w.torn) + [(r, answered)]
    {
      Settle();
      ghost var prev := cells;
      var reply, f := Delete(KeyOf(plan, r));
      Note(Call(f), prev);
      answered := reply != Unanswered;
    }

    /** The body of sweepOne up to its return. */
    method Attempt() returns (o: Outcome)
      requires Tracks() && w == Start(plan)
      modifies `cells, `acts, `w
      ensures Tracks() && w.pc == Tearing(Dep) && w.torn == [] && w.outcome == Some(o)
    {
      var ok := CreateOrReplace(Dep, plan.dep);
      if !ok { return Outcome(Error, NOTHING); }
      ok := CreateOrReplace(Svc, plan.svc);
      if !ok { return Outcome(Error, NOTHING); }
      ok := CreateOrReplace(Net, plan.net);
      if !ok { return Outcome(Error, NOTHING); }
      ok := WaitReady();
      if !ok { return Outcome(NotReady, NOTHING); }
      ok := CreateOrReplace(Smoke, plan.smoke);
      if !ok { return Outcome(Error, NOTHING); }
      var done, passed := WaitJob();
      if !done { return Outcome(Error, NOTHING); }
      var captured: Captured := *;
      Note(Gather(captured), cells);
      o := Outcome(if passed then Pass else Fail, captured);
    }

    /**
     * The call: whatever fails, it ends, records one outcome and tries all four deletes; a pass or a fail
     * was read from the Job this call created, once the browser was ready; nothing outside its four names moves.
     */
    method SweepOne() returns (o: Outcome)
      requires Tracks() && w == Start(plan) && cells == before
      modifies `cells, `acts, `w
      ensures Tracks() && w.pc == Finished && w.outcome == Some(o) && |w.torn| == 4
      ensures o.status in {Pass, Fail} ==>
        && w.ready && w.sighting.Some? && w.sighting.value.passed == (o.status == Pass)
        && w.sighting.value.job == At(old(cells), KeyOf(plan, Smoke)).born + 1
        && exists i :: WroteAt(plan, before, acts, i, w.sighting.value)
      ensures Tells(w, o.status)
      ensures forall i :: 0 <= i < 4 && w.torn[i].1 ==> Cleared(cells, KeyOf(plan, ALL[i]))
      ensures forall k: Key :: Outside(plan, k) ==> At(cells, k) == At(old(cells), k)
    {
      o := Attempt();
      var _ := DeleteVersionResources();
      VerdictIsOwn(plan, before, acts);
      OutcomeTells(plan, before, acts);
      TeardownIsComplete(plan, before, acts);
      forall k: Key | Outside(plan, k) ensures At(cells, k) == At(before, k) {
        FootprintIsFour(Start(plan), before, acts, k);
      }
    }
  }

  /** The loop over a Job's conditions: the first true Complete or Failed is the answer. */
  method ReadConditions(conditions: seq<Condition>) returns (found: bool, succeeded: bool)
    ensures if found then Decides(conditions, succeeded) else Undecided(conditions)
  {
    for i := 0 to |conditions|
      invariant forall j :: 0 <= j < i ==> !Settles(conditions[j])
    {
      if !conditions[i].isTrue { continue; }
      match conditions[i].kind {
        case Complete =>
          assert DecidesAt(conditions, i, true);
          return true, true;
        case Failed =>
          assert DecidesAt(conditions, i, false);
          return true, false;
        case Other =>
      }
    }
    return false, false;
  }
}
