/**
 * `sweepOne` as a program over a shared namespace. Every API call is one step, may be refused, and
 * may also take effect although its reply is lost. Between two calls the cluster finishes deletions
 * and rewrites status. The steps are those of CreateOrReplaceDeployment/Service/NetworkPolicy,
 * WaitDeploymentReady, ReplaceJob, WaitJob and DeleteVersionResources.
 */
module Worker {
  import opened Manifests
  import opened Store
  import opened Report

  datatype Res = Dep | Svc | Net | Smoke

  /** How many more polls each wait allows after its first one. */
  datatype Limits = Limits(clear: nat, clearJob: nat, ready: nat, job: nat)

  /** What one call of `sweepOne` is given: names and the four retargeted manifests. */
  datatype Plan = Plan(name: string, jobName: string, dep: Manifest, svc: Manifest, net: Manifest,
                       smoke: Manifest, limits: Limits)

  function KeyOf(p: Plan, r: Res): Key {
    match r
    case Dep => Key(Deployment, p.name)
    case Svc => Key(Service, p.name)
    case Net => Key(NetworkPolicy, p.name + "-lockdown")
    case Smoke => Key(Job, p.jobName)
  }

  function SpecOf(p: Plan, r: Res): Manifest {
    match r
    case Dep => p.dep
    case Svc => p.svc
    case Net => p.net
    case Smoke => p.smoke
  }

  function Ord(r: Res): nat {
    match r case Dep => 0 case Svc => 1 case Net => 2 case Smoke => 3
  }

  function ClearLimit(p: Plan, r: Res): nat {
    if r == Smoke then p.limits.clearJob else p.limits.clear
  }

  datatype Pc =
    | Deleting(r: Res)
    | Clearing(r: Res, polls: nat)
    | Creating(r: Res)
    | AwaitReady(polls: nat)
    | AwaitVerdict(polls: nat)
    | Gathering(passed: bool)
    | Tearing(r: Res)
    | Finished

  /** The logs and frame fetched before teardown; a capture that failed is empty. */
  datatype Captured = Captured(browser: string, bully: string, smoke: string, frame: bool)

  datatype Outcome = Outcome(status: Status, captured: Captured)

  const NOTHING := Captured("", "", "", false)

  /** The Job whose conditions were read, what they said, and what Anubis served when they were written. */
  datatype Sighting = Sighting(job: nat, passed: bool, serving: Serving)

  /** Status writes: to which resource, to which identity of it, and what. */
  type Log = set<(Res, nat, ObjStatus)>

  /** The sighting is a verdict written to that very Job, and `serving` what Anubis served at the write. */
  ghost predicate Wrote(log: Log, x: Sighting) {
    exists status: ObjStatus :: (Smoke, x.job, status) in log
      && Verdict(status.conditions) == Some(x.passed) && status.judged == x.serving
  }

  /** `made`, `ready`, `sighting` and `torn` are history: identities created, readiness seen, verdict seen, deletes tried. */
  datatype Worker = Worker(plan: Plan, pc: Pc, made: map<Res, nat>, ready: bool, sighting: Option<Sighting>,
                           outcome: Option<Outcome>, torn: seq<(Res, bool)>)

  function Start(p: Plan): Worker {
    Worker(p, Deleting(Dep), map[], false, None, None, [])
  }

  datatype Fault = Granted | Refused | Lost

  datatype Action = Call(fault: Fault) | Gather(captured: Captured) | Reap(r: Res) | Rewrite(r: Res, status: ObjStatus)

  /** An early return: record the status and go to the deferred teardown. */
  function Abort(w: Worker, status: Status): Worker {
    w.(pc := Tearing(Dep), outcome := Some(Outcome(status, NOTHING)))
  }

  function AfterCreate(p: Plan, r: Res): Pc {
    match r
    case Dep => Deleting(Svc)
    case Svc => Deleting(Net)
    case Net => AwaitReady(p.limits.ready)
    case Smoke => AwaitVerdict(p.limits.job)
  }

  function AfterTear(r: Res): Pc {
    match r case Dep => Tearing(Svc) case Svc => Tearing(Net) case Net => Tearing(Smoke) case Smoke => Finished
  }

  function DeleteStep(w: Worker, s: Cells, r: Res, f: Fault): (Worker, Cells) {
    var k := KeyOf(w.plan, r);
    if f == Refused then (Abort(w, Error), s)
    else if f == Lost then (Abort(w, Error), Marked(s, k))
    else (w.(pc := if Exists(s, k) then Clearing(r, ClearLimit(w.plan, r)) else Creating(r)), Marked(s, k))
  }

  function ClearStep(w: Worker, s: Cells, r: Res, polls: nat, f: Fault): Worker {
    if f != Granted then Abort(w, Error)
    else if !Exists(s, KeyOf(w.plan, r)) then w.(pc := Creating(r))
    else if polls == 0 then Abort(w, Error)
    else w.(pc := Clearing(r, polls - 1))
  }

  function CreateStep(w: Worker, s: Cells, r: Res, f: Fault): (Worker, Cells) {
    var k := KeyOf(w.plan, r);
    if f == Refused || Exists(s, k) then (Abort(w, Error), s)
    else if f == Lost then (Abort(w, Error), Created(s, k, SpecOf(w.plan, r)))
    else (w.(pc := AfterCreate(w.plan, r), made := w.made[r := At(s, k).born + 1]), Created(s, k, SpecOf(w.plan, r)))
  }

  function ReadyStep(w: Worker, s: Cells, polls: nat, f: Fault): Worker {
    var k := KeyOf(w.plan, Dep);
    if f != Granted || !Exists(s, k) then Abort(w, NotReady)
    else if At(s, k).obj.value.status.rollout.Ready() then w.(pc := Deleting(Smoke), ready := true)
    else if polls == 0 then Abort(w, NotReady)
    else w.(pc := AwaitReady(polls - 1))
  }

  function VerdictStep(w: Worker, s: Cells, polls: nat, f: Fault): Worker {
    var k := KeyOf(w.plan, Smoke);
    if f != Granted || !Exists(s, k) then Abort(w, Error)
    else
      var status := At(s, k).obj.value.status;
      match Verdict(status.conditions)
      case Some(passed) =>
        w.(pc := Gathering(passed), sighting := Some(Sighting(At(s, k).born, passed, status.judged)))
      case None =>
        if polls == 0 then Abort(w, Error) else w.(pc := AwaitVerdict(polls - 1))
  }

  function TearStep(w: Worker, s: Cells, r: Res, f: Fault): (Worker, Cells) {
    (w.(pc := AfterTear(r), torn := w.torn + [(r, f == Granted)]),
     if f == Refused then s else Marked(s, KeyOf(w.plan, r)))
  }

  function CallStep(w: Worker, s: Cells, f: Fault): (Worker, Cells) {
    match w.pc
    case Deleting(r) => DeleteStep(w, s, r, f)
    case Clearing(r, polls) => (ClearStep(w, s, r, polls, f), s)
    case Creating(r) => CreateStep(w, s, r, f)
    case AwaitReady(polls) => (ReadyStep(w, s, polls, f), s)
    case AwaitVerdict(polls) => (VerdictStep(w, s, polls, f), s)
    case Gathering(_) => (w, s)
    case Tearing(r) => TearStep(w, s, r, f)
    case Finished => (w, s)
  }

  /** One step of the worker or of the cluster on the worker's objects. */
  function Step(w: Worker, s: Cells, a: Action): (Worker, Cells) {
    match a
    case Call(f) => CallStep(w, s, f)
    case Gather(c) =>
      if w.pc.Gathering? then
        (w.(pc := Tearing(Dep), outcome := Some(Outcome(if w.pc.passed then Pass else Fail, c))), s)
      else (w, s)
    case Reap(r) => (w, Reaped(s, KeyOf(w.plan, r)))
    case Rewrite(r, status) => (w, Reported(s, KeyOf(w.plan, r), status))
  }

  function Exec(w: Worker, s: Cells, acts: seq<Action>): (Worker, Cells) {
    if acts == [] then (w, s)
    else
      var (w', s') := Exec(w, s, acts[..|acts| - 1]);
      Step(w', s', acts[|acts| - 1])
  }

  // ---- Footprint ----

  /** Not one of the plan's four names. */
  ghost predicate Outside(p: Plan, k: Key) {
    forall r: Res :: KeyOf(p, r) != k
  }

  /** A step touches only the object its program counter names, or the one the cluster acts on. */
  lemma CallFrame(w: Worker, s: Cells, f: Fault, k: Key)
    requires (w.pc.Deleting? || w.pc.Creating? || w.pc.Tearing?) ==> k != KeyOf(w.plan, w.pc.r)
    ensures At(CallStep(w, s, f).1, k) == At(s, k)
  {
  }

  lemma StepFrame(w: Worker, s: Cells, a: Action, k: Key)
    requires Outside(w.plan, k)
    ensures At(Step(w, s, a).1, k) == At(s, k)
  {
    if a.Call? { CallFrame(w, s, a.fault, k); }
  }

  lemma StepPlan(w: Worker, s: Cells, a: Action)
    ensures Step(w, s, a).0.plan == w.plan
  {
  }

  // ---- What every step keeps ----

  /** Where a resource stands at `pc`: not reached, about to be created, created by this call, or being torn down. */
  datatype Mode = Ahead | Vacant | Mine | Gone

  function ModeOf(pc: Pc, r: Res): Mode {
    match pc
    case Deleting(q) => if Ord(r) < Ord(q) then Mine else Ahead
    case Clearing(q, _) => if Ord(r) < Ord(q) then Mine else Ahead
    case Creating(q) => if Ord(r) < Ord(q) then Mine else if r == q then Vacant else Ahead
    case AwaitReady(_) => if r == Smoke then Ahead else Mine
    case AwaitVerdict(_) => Mine
    case Gathering(_) => Mine
    case Tearing(_) => Gone
    case Finished => Gone
  }

  predicate Leaving(w: Worker) {
    w.pc.Tearing? || w.pc.Finished?
  }

  /** A cell holding exactly the object this call created, not marked for deletion. */
  predicate Holds(c: Cell, job: nat, spec: Manifest) {
    c.born == job && c.obj.Some? && c.obj.value.spec == spec && !c.obj.value.terminating
  }

  predicate CellOk(r: Res, born0: nat, c: Cell, made: Option<nat>, mode: Mode, spec: Manifest, log: Log) {
    && born0 <= c.born <= born0 + 1
    && (made.Some? ==> made.value == born0 + 1 == c.born)
    && (mode.Ahead? || mode.Vacant? ==> made.None? && c.born == born0)
    && (mode.Vacant? ==> c.obj.None?)
    && (mode.Mine? ==> made.Some? && Holds(c, made.value, spec))
    && (made.Some? && c.obj.Some? && c.obj.value.status.conditions != [] ==> (r, c.born, c.obj.value.status) in log)
  }

  function Made(w: Worker, r: Res): Option<nat> {
    if r in w.made then Some(w.made[r]) else None
  }

  predicate Logged(p: Plan, s: Cells, a: Action, log: Log) {
    a.Rewrite? ==> (a.r, At(s, KeyOf(p, a.r)).born, a.status) in log
  }

  /** `s0` is the namespace the call started from. */
  predicate CellInv(w: Worker, s: Cells, s0: Cells, log: Log, r: Res) {
    var k := KeyOf(w.plan, r);
    CellOk(r, At(s0, k).born, At(s, k), Made(w, r), ModeOf(w.pc, r), SpecOf(w.plan, r), log)
  }

  ghost predicate SightInv(w: Worker, log: Log) {
    && (w.sighting.Some? ==>
        && (w.pc.Gathering? || Leaving(w))
        && Smoke in w.made && w.sighting.value.job == w.made[Smoke]
        && Wrote(log, w.sighting.value) && w.ready)
    && (w.pc.Gathering? ==> w.sighting.Some? && w.sighting.value.passed == w.pc.passed)
    && ((w.pc.AwaitVerdict? || w.pc == Deleting(Smoke) || w.pc == Creating(Smoke)
         || (w.pc.Clearing? && w.pc.r == Smoke)) ==> w.ready)
    && (w.outcome.Some? <==> Leaving(w))
    && (w.outcome.Some? && w.outcome.value.status in {Pass, Fail} ==>
        w.sighting.Some? && (w.sighting.value.passed <==> w.outcome.value.status == Pass))
  }

  const ALL := [Dep, Svc, Net, Smoke]

  predicate Cleared(s: Cells, k: Key) {
    At(s, k).obj.Some? ==> At(s, k).obj.value.terminating
  }

  predicate TornInv(w: Worker, s: Cells) {
    && |w.torn| == (match w.pc case Tearing(r) => Ord(r) case Finished => 4 case _ => 0)
    && (forall i :: 0 <= i < |w.torn| ==> w.torn[i].0 == ALL[i])
    && (Leaving(w) ==> forall i :: 0 <= i < |w.torn| && w.torn[i].1 ==> Cleared(s, KeyOf(w.plan, w.torn[i].0)))
  }

  ghost predicate Inv(w: Worker, s: Cells, s0: Cells, log: Log) {
    && (forall r: Res :: CellInv(w, s, s0, log, r))
    && SightInv(w, log)
    && TornInv(w, s)
  }

  lemma StartInv(p: Plan, s: Cells, log: Log)
    ensures Inv(Start(p), s, s, log)
  {
  }

  predicate Keeps(w: Worker, w': Worker, s: Cells, r: Res) {
    && w'.plan == w.plan && Made(w', r) == Made(w, r)
    && (|| ModeOf(w'.pc, r) == ModeOf(w.pc, r)
        || ModeOf(w'.pc, r) == Gone
        || (ModeOf(w.pc, r) == Ahead && ModeOf(w'.pc, r) == Vacant && !Exists(s, KeyOf(w.plan, r))))
  }

  /** Nothing happens to resource `r`; its standing stays, or teardown begins, or it is found absent. */
  lemma KeepCell(w: Worker, s: Cells, w': Worker, s': Cells, s0: Cells, log: Log, r: Res)
    requires CellInv(w, s, s0, log, r)
    requires At(s', KeyOf(w.plan, r)) == At(s, KeyOf(w.plan, r))
    requires Keeps(w, w', s, r)
    ensures CellInv(w', s', s0, log, r)
  {
  }

  lemma DeleteCell(w: Worker, s: Cells, s0: Cells, log: Log, f: Fault)
    requires w.pc.Deleting? && CellInv(w, s, s0, log, w.pc.r)
    ensures var (w', s') := DeleteStep(w, s, w.pc.r, f); CellInv(w', s', s0, log, w.pc.r)
  {
  }

  lemma CreateCell(w: Worker, s: Cells, s0: Cells, log: Log, f: Fault)
    requires w.pc.Creating? && CellInv(w, s, s0, log, w.pc.r)
    ensures var (w', s') := CreateStep(w, s, w.pc.r, f); CellInv(w', s', s0, log, w.pc.r)
  {
  }

  lemma TearCell(w: Worker, s: Cells, s0: Cells, log: Log, f: Fault)
    requires w.pc.Tearing? && CellInv(w, s, s0, log, w.pc.r)
    ensures var (w', s') := TearStep(w, s, w.pc.r, f); CellInv(w', s', s0, log, w.pc.r)
  {
  }

  lemma CreateMode(w: Worker, s: Cells, f: Fault, r: Res)
    requires w.pc.Creating? && w.pc.r != r
    ensures Keeps(w, CreateStep(w, s, w.pc.r, f).0, s, r)
  {
  }

  lemma DeleteMode(w: Worker, s: Cells, f: Fault, r: Res)
    requires w.pc.Deleting? && w.pc.r != r
    ensures Keeps(w, DeleteStep(w, s, w.pc.r, f).0, s, r)
  {
  }

  lemma ClearMode(w: Worker, s: Cells, f: Fault, r: Res)
    requires w.pc.Clearing?
    ensures Keeps(w, ClearStep(w, s, w.pc.r, w.pc.polls, f), s, r)
  {
  }

  lemma WaitMode(w: Worker, s: Cells, f: Fault, r: Res)
    requires w.pc.AwaitReady? || w.pc.AwaitVerdict?
    ensures w.pc.AwaitReady? ==> Keeps(w, ReadyStep(w, s, w.pc.polls, f), s, r)
    ensures w.pc.AwaitVerdict? ==> Keeps(w, VerdictStep(w, s, w.pc.polls, f), s, r)
  {
  }

  lemma TearMode(w: Worker, s: Cells, f: Fault, r: Res)
    requires w.pc.Tearing?
    ensures Keeps(w, TearStep(w, s, w.pc.r, f).0, s, r)
  {
  }

  /** What a call does to the standing of a resource it does not create, delete or tear down. */
  lemma CallMode(w: Worker, s: Cells, f: Fault, r: Res)
    requires (w.pc.Deleting? || w.pc.Creating? || w.pc.Tearing?) ==> w.pc.r != r
    ensures Keeps(w, CallStep(w, s, f).0, s, r)
  {
    match w.pc
    case Deleting(_) => DeleteMode(w, s, f, r);
    case Clearing(_, _) => ClearMode(w, s, f, r);
    case Creating(_) => CreateMode(w, s, f, r);
    case AwaitReady(_) => WaitMode(w, s, f, r);
    case AwaitVerdict(_) => WaitMode(w, s, f, r);
    case Tearing(_) => TearMode(w, s, f, r);
    case _ =>
  }

  lemma CallCell(w: Worker, s: Cells, s0: Cells, log: Log, f: Fault, r: Res)
    requires CellInv(w, s, s0, log, r)
    ensures var (w', s') := CallStep(w, s, f); CellInv(w', s', s0, log, r)
  {
    if w.pc.Deleting? && w.pc.r == r {
      DeleteCell(w, s, s0, log, f);
    } else if w.pc.Creating? && w.pc.r == r {
      CreateCell(w, s, s0, log, f);
    } else if w.pc.Tearing? && w.pc.r == r {
      TearCell(w, s, s0, log, f);
    } else {
      var (w', s') := CallStep(w, s, f);
      CallFrame(w, s, f, KeyOf(w.plan, r));
      CallMode(w, s, f, r);
      KeepCell(w, s, w', s', s0, log, r);
    }
  }

  lemma ClusterCell(w: Worker, s: Cells, s0: Cells, log: Log, a: Action, r: Res)
    requires CellInv(w, s, s0, log, r) && (a.Reap? || a.Rewrite?) && Logged(w.plan, s, a, log)
    ensures var (w', s') := Step(w, s, a); CellInv(w', s', s0, log, r)
  {
  }

  lemma VerdictSight(w: Worker, s: Cells, s0: Cells, log: Log, f: Fault)
    requires w.pc.AwaitVerdict? && SightInv(w, log) && CellInv(w, s, s0, log, Smoke)
    ensures SightInv(VerdictStep(w, s, w.pc.polls, f), log)
  {
  }

  lemma DeleteSight(w: Worker, s: Cells, log: Log, f: Fault)
    requires w.pc.Deleting? && SightInv(w, log)
    ensures SightInv(DeleteStep(w, s, w.pc.r, f).0, log)
  {
  }

  lemma ClearSight(w: Worker, s: Cells, log: Log, f: Fault)
    requires w.pc.Clearing? && SightInv(w, log)
    ensures SightInv(ClearStep(w, s, w.pc.r, w.pc.polls, f), log)
  {
  }

  lemma CreateSight(w: Worker, s: Cells, log: Log, f: Fault)
    requires w.pc.Creating? && SightInv(w, log)
    ensures SightInv(CreateStep(w, s, w.pc.r, f).0, log)
  {
  }

  lemma ReadySight(w: Worker, s: Cells, log: Log, f: Fault)
    requires w.pc.AwaitReady? && SightInv(w, log)
    ensures SightInv(ReadyStep(w, s, w.pc.polls, f), log)
  {
  }

  lemma TearSight(w: Worker, s: Cells, log: Log, f: Fault)
    requires w.pc.Tearing? && SightInv(w, log)
    ensures SightInv(TearStep(w, s, w.pc.r, f).0, log)
  {
  }

  lemma OtherSight(w: Worker, s: Cells, log: Log, f: Fault)
    requires !w.pc.AwaitVerdict? && SightInv(w, log)
    ensures SightInv(CallStep(w, s, f).0, log)
  {
    match w.pc
    case Deleting(_) => DeleteSight(w, s, log, f);
    case Clearing(_, _) => ClearSight(w, s, log, f);
    case Creating(_) => CreateSight(w, s, log, f);
    case AwaitReady(_) => ReadySight(w, s, log, f);
    case Tearing(_) => TearSight(w, s, log, f);
    case _ =>
  }

  /** Once teardown has begun nothing is created again. */
  lemma StaysCleared(w: Worker, s: Cells, a: Action, k: Key)
    requires Leaving(w) && Cleared(s, k)
    ensures Cleared(Step(w, s, a).1, k)
  {
  }

  lemma TearTorn(w: Worker, s: Cells, f: Fault)
    requires w.pc.Tearing? && TornInv(w, s)
    ensures var (w', s') := TearStep(w, s, w.pc.r, f); TornInv(w', s')
  {
    var (w', s') := TearStep(w, s, w.pc.r, f);
    forall i | 0 <= i < |w'.torn| && w'.torn[i].1
      ensures Cleared(s', KeyOf(w'.plan, w'.torn[i].0))
    {
      if i < |w.torn| { StaysCleared(w, s, Call(f), KeyOf(w.plan, w.torn[i].0)); }
    }
  }

  /** Before teardown nothing is torn down; during it, steps other than deletes leave the record alone. */
  lemma TornKept(w: Worker, s: Cells, a: Action)
    requires a.Call? ==> !w.pc.Tearing?
    ensures var w' := Step(w, s, a).0;
      w'.torn == w.torn && w'.plan == w.plan && if Leaving(w) then w'.pc == w.pc else Leaving(w') ==> w'.pc == Tearing(Dep)
  {
  }

  lemma StepTorn(w: Worker, s: Cells, a: Action)
    requires TornInv(w, s)
    ensures var (w', s') := Step(w, s, a); TornInv(w', s')
  {
    if a.Call? && w.pc.Tearing? {
      TearTorn(w, s, a.fault);
    } else {
      TornKept(w, s, a);
      var (w', s') := Step(w, s, a);
      forall i | 0 <= i < |w.torn| && w.torn[i].1 && Leaving(w)
        ensures Cleared(s', KeyOf(w.plan, w.torn[i].0))
      {
        StaysCleared(w, s, a, KeyOf(w.plan, w.torn[i].0));
      }
    }
  }

  lemma StepInv(w: Worker, s: Cells, s0: Cells, log: Log, a: Action)
    requires Inv(w, s, s0, log) && Logged(w.plan, s, a, log)
    ensures var (w', s') := Step(w, s, a); Inv(w', s', s0, log)
  {
    var (w', s') := Step(w, s, a);
    forall r: Res ensures CellInv(w', s', s0, log, r) {
      assert CellInv(w, s, s0, log, r);
      match a
      case Call(f) => CallCell(w, s, s0, log, f, r);
      case Gather(_) => KeepCell(w, s, w', s', s0, log, r);
      case _ => ClusterCell(w, s, s0, log, a, r);
    }
    if a.Call? {
      assert CellInv(w, s, s0, log, Smoke);
      if w.pc.AwaitVerdict? { VerdictSight(w, s, s0, log, a.fault); } else { OtherSight(w, s, log, a.fault); }
    }
    StepTorn(w, s, a);
  }

  // ---- What holds over whole calls ----

  /** Every status write among the steps is in the log, under the identity it was made to. */
  ghost predicate AllLogged(p: Plan, s0: Cells, acts: seq<Action>, log: Log) {
    forall i :: 0 <= i < |acts| ==> Logged(p, Exec(Start(p), s0, acts[..i]).1, acts[i], log)
  }

  lemma {:induction false} ExecInv(p: Plan, s0: Cells, log: Log, acts: seq<Action>)
    requires AllLogged(p, s0, acts, log)
    ensures var (w, s) := Exec(Start(p), s0, acts); w.plan == p && Inv(w, s, s0, log)
  {
    if acts == [] {
      StartInv(p, s0, log);
    } else {
      LoggedPrefix(p, s0, acts, log);
      ExecInv(p, s0, log, acts[..|acts| - 1]);
      LastStepInv(p, s0, log, acts);
    }
  }

  lemma LoggedPrefix(p: Plan, s0: Cells, acts: seq<Action>, log: Log)
    requires acts != [] && AllLogged(p, s0, acts, log)
    ensures AllLogged(p, s0, acts[..|acts| - 1], log)
  {
    var rest := acts[..|acts| - 1];
    forall i | 0 <= i < |rest| ensures Logged(p, Exec(Start(p), s0, rest[..i]).1, rest[i], log) {
      assert rest[..i] == acts[..i];
    }
  }

  lemma LastStepInv(p: Plan, s0: Cells, log: Log, acts: seq<Action>)
    requires acts != [] && AllLogged(p, s0, acts, log)
    requires var (w, s) := Exec(Start(p), s0, acts[..|acts| - 1]); w.plan == p && Inv(w, s, s0, log)
    ensures var (w, s) := Exec(Start(p), s0, acts); w.plan == p && Inv(w, s, s0, log)
  {
    var (w, s) := Exec(Start(p), s0, acts[..|acts| - 1]);
    StepInv(w, s, s0, log, acts[|acts| - 1]);
    StepPlan(w, s, acts[|acts| - 1]);
  }

  /** The identity step i finds under the resource it writes. */
  function Target(p: Plan, s0: Cells, acts: seq<Action>, i: nat): nat
    requires i < |acts| && acts[i].Rewrite?
  {
    At(Exec(Start(p), s0, acts[..i]).1, KeyOf(p, acts[i].r)).born
  }

  /** The log of exactly the writes among the steps. */
  function LogOf(p: Plan, s0: Cells, acts: seq<Action>): Log {
    set i | 0 <= i < |acts| && acts[i].Rewrite? :: (acts[i].r, Target(p, s0, acts, i), acts[i].status)
  }

  lemma LogIsComplete(p: Plan, s0: Cells, acts: seq<Action>)
    ensures AllLogged(p, s0, acts, LogOf(p, s0, acts))
  {
    forall i | 0 <= i < |acts| && acts[i].Rewrite?
      ensures (acts[i].r, Target(p, s0, acts, i), acts[i].status) in LogOf(p, s0, acts)
    {
    }
  }

  /**
   * Create-or-replace under asynchronous deletion: a create is only issued when no object of that
   * name is left, terminating or not, and afterwards, until teardown, the name holds exactly the
   * given manifest under an identity one past whatever the name held before the call.
   */
  lemma CreateOrReplaceIsExact(p: Plan, s0: Cells, acts: seq<Action>, r: Res)
    ensures var (w, s) := Exec(Start(p), s0, acts);
      && (w.pc == Creating(r) ==> !Exists(s, KeyOf(p, r)))
      && (ModeOf(w.pc, r) == Mine ==> Holds(At(s, KeyOf(p, r)), At(s0, KeyOf(p, r)).born + 1, SpecOf(p, r)))
  {
    var log := LogOf(p, s0, acts);
    LogIsComplete(p, s0, acts);
    ExecInv(p, s0, log, acts);
    var (w, s) := Exec(Start(p), s0, acts);
    assert CellInv(w, s, s0, log, r);
  }

  /** Step i writes the verdict seen to the Job it was seen on; `serving` is what Anubis served at that step. */
  ghost predicate WroteAt(p: Plan, s0: Cells, acts: seq<Action>, i: int, x: Sighting) {
    && 0 <= i < |acts| && acts[i].Rewrite? && acts[i].r == Smoke && Target(p, s0, acts, i) == x.job
    && Decides(acts[i].status.conditions, x.passed) && acts[i].status.judged == x.serving
  }

  lemma LogHasWrite(p: Plan, s0: Cells, acts: seq<Action>, x: Sighting)
    requires Wrote(LogOf(p, s0, acts), x)
    ensures exists i :: WroteAt(p, s0, acts, i, x)
  {
    var status: ObjStatus :| (Smoke, x.job, status) in LogOf(p, s0, acts)
      && Verdict(status.conditions) == Some(x.passed) && status.judged == x.serving;
    var i :| 0 <= i < |acts| && acts[i].Rewrite?
      && (acts[i].r, Target(p, s0, acts, i), acts[i].status) == (Smoke, x.job, status);
    VerdictMeaning(status.conditions);
    assert WroteAt(p, s0, acts, i, x);
  }

  /**
   * A pass or a fail was read off a Job this very call created (its identity did not exist when the
   * call began), after the browser's rollout was seen ready, and the conditions it was read from were
   * written to that Job by one of the status writes of this call.
   */
  lemma VerdictIsOwn(p: Plan, s0: Cells, acts: seq<Action>)
    ensures var (w, s) := Exec(Start(p), s0, acts);
      w.pc.Finished? ==>
        && w.outcome.Some?
        && (w.outcome.value.status in {Pass, Fail} ==>
            && w.ready
            && w.sighting.Some? && w.sighting.value.passed == (w.outcome.value.status == Pass)
            && w.sighting.value.job == At(s0, KeyOf(p, Smoke)).born + 1
            && (exists i :: WroteAt(p, s0, acts, i, w.sighting.value))
            && At(s, KeyOf(p, Smoke)).born == At(s0, KeyOf(p, Smoke)).born + 1)
  {
    var log := LogOf(p, s0, acts);
    LogIsComplete(p, s0, acts);
    ExecInv(p, s0, log, acts);
    var (w, s) := Exec(Start(p), s0, acts);
    assert CellInv(w, s, s0, log, Smoke);
    if w.sighting.Some? { LogHasWrite(p, s0, acts, w.sighting.value); }
  }

  /**
   * Teardown: whatever happened before, a finished call tried all four deletes, once each, whether or
   * not earlier ones failed; a delete that was answered leaves nothing that is not on its way out.
   */
  lemma TeardownIsComplete(p: Plan, s0: Cells, acts: seq<Action>)
    ensures var (w, s) := Exec(Start(p), s0, acts);
      w.pc.Finished? ==>
        && |w.torn| == 4
        && w.torn[0].0 == Dep && w.torn[1].0 == Svc && w.torn[2].0 == Net && w.torn[3].0 == Smoke
        && (forall i :: 0 <= i < 4 && w.torn[i].1 ==> Cleared(s, KeyOf(p, ALL[i])))
  {
    var log := LogOf(p, s0, acts);
    LogIsComplete(p, s0, acts);
    ExecInv(p, s0, log, acts);
  }

  /** No call leaves anything outside its four names changed. */
  lemma {:induction false} FootprintIsFour(w: Worker, s: Cells, acts: seq<Action>, k: Key)
    requires Outside(w.plan, k)
    ensures var (w', s') := Exec(w, s, acts); w'.plan == w.plan && At(s', k) == At(s, k)
  {
    if acts != [] {
      FootprintIsFour(w, s, acts[..|acts| - 1], k);
      var (w', s') := Exec(w, s, acts[..|acts| - 1]);
      StepFrame(w', s', acts[|acts| - 1], k);
      StepPlan(w', s', acts[|acts| - 1]);
    }
  }

  // ---- What an outcome tells ----

  /** The browser's Deployment, Service and NetworkPolicy were all created by this call. */
  predicate AllUp(w: Worker) {
    Dep in w.made && Svc in w.made && Net in w.made
  }

  /**
   * What a status says, and nothing less: pass and fail exactly when a verdict was read, and which; not ready exactly
   * when everything was put up and the rollout was not seen complete; error in every other case.
   */
  predicate Tells(w: Worker, status: Status) {
    && (status in {Pass, Fail} <==> w.sighting.Some?)
    && (w.sighting.Some? ==> (status == Pass <==> w.sighting.value.passed))
    && (status == NotReady <==> AllUp(w) && !w.ready)
    && (status == Error <==> !AllUp(w) || (w.ready && w.sighting.None?))
  }

  /** At this step the call is answered that the object was created. */
  predicate SeesCreated(w: Worker, s: Cells, a: Action, r: Res) {
    a == Call(Granted) && w.pc == Creating(r) && At(s, KeyOf(w.plan, r)).obj.None?
  }

  /** At this step the call reads its browser's Deployment, and the rollout is complete. */
  predicate SeesReady(w: Worker, s: Cells, a: Action) {
    a == Call(Granted) && w.pc.AwaitReady?
    && var c := At(s, KeyOf(w.plan, Dep)); c.obj.Some? && c.obj.value.status.rollout.Ready()
  }

  /** At this step the call reads its Job, and the conditions carry this verdict. */
  ghost predicate SeesVerdict(w: Worker, s: Cells, a: Action, passed: bool) {
    a == Call(Granted) && w.pc.AwaitVerdict?
    && var c := At(s, KeyOf(w.plan, Smoke)); c.obj.Some? && Decides(c.obj.value.status.conditions, passed)
  }

  /** What a call keeps of what it sees. */
  lemma CreatedStep(w: Worker, s: Cells, a: Action, r: Res)
    ensures r in Step(w, s, a).0.made <==> r in w.made || SeesCreated(w, s, a, r)
  {
  }

  lemma ReadyKept(w: Worker, s: Cells, a: Action)
    ensures Step(w, s, a).0.ready <==> w.ready || SeesReady(w, s, a)
  {
  }

  predicate Sighted(w: Worker, passed: bool) {
    w.sighting.Some? && w.sighting.value.passed == passed
  }

  lemma VerdictKept(w: Worker, s: Cells, a: Action, passed: bool)
    requires w.pc.AwaitVerdict? ==> w.sighting.None?
    ensures Sighted(Step(w, s, a).0, passed) <==> Sighted(w, passed) || SeesVerdict(w, s, a, passed)
  {
    if a.Call? && w.pc.AwaitVerdict? && Exists(s, KeyOf(w.plan, Smoke)) {
      VerdictMeaning(At(s, KeyOf(w.plan, Smoke)).obj.value.status.conditions);
    }
  }

  /** Whether a call at `pc` is past the creation of a resource, and past the wait for readiness. */
  predicate TellInv(w: Worker) {
    && (w.ready ==> AllUp(w)) && (w.sighting.Some? ==> w.ready)
    && if Leaving(w) then w.outcome.Some? && Tells(w, w.outcome.value.status)
       else
         && w.outcome.None? && (w.sighting.Some? <==> w.pc.Gathering?)
         && (w.pc.Gathering? ==> w.sighting.value.passed == w.pc.passed)
         && (w.ready <==> w.pc.AwaitVerdict? || w.pc.Gathering? || (!w.pc.AwaitReady? && w.pc.r == Smoke))
         && (forall r: Res :: r in w.made <==> ModeOf(w.pc, r) == Mine)
  }

  lemma TellCreate(w: Worker, s: Cells, f: Fault)
    requires w.pc.Creating? && TellInv(w)
    ensures TellInv(CreateStep(w, s, w.pc.r, f).0)
  {
  }

  lemma TellDelete(w: Worker, s: Cells, f: Fault)
    requires w.pc.Deleting? && TellInv(w)
    ensures TellInv(DeleteStep(w, s, w.pc.r, f).0)
  {
  }

  lemma TellClear(w: Worker, s: Cells, f: Fault)
    requires w.pc.Clearing? && TellInv(w)
    ensures TellInv(ClearStep(w, s, w.pc.r, w.pc.polls, f))
  {
  }

  lemma TellWait(w: Worker, s: Cells, f: Fault)
    requires (w.pc.AwaitReady? || w.pc.AwaitVerdict?) && TellInv(w)
    ensures w.pc.AwaitReady? ==> TellInv(ReadyStep(w, s, w.pc.polls, f))
    ensures w.pc.AwaitVerdict? ==> TellInv(VerdictStep(w, s, w.pc.polls, f))
  {
  }

  /** Every step of a call keeps it, whatever else happens to the namespace. */
  lemma TellStep(w: Worker, s: Cells, a: Action)
    requires TellInv(w)
    ensures TellInv(Step(w, s, a).0)
  {
    if a.Call? {
      match w.pc
      case Deleting(_) => TellDelete(w, s, a.fault);
      case Clearing(_, _) => TellClear(w, s, a.fault);
      case Creating(_) => TellCreate(w, s, a.fault);
      case AwaitReady(_) => TellWait(w, s, a.fault);
      case AwaitVerdict(_) => TellWait(w, s, a.fault);
      case _ =>
    }
  }

  /** An outcome shows what was gathered at the step that recorded it, or nothing if there was no verdict. */
  lemma GatherStep(w: Worker, s: Cells, a: Action)
    ensures var w' := Step(w, s, a).0;
      w'.outcome == w.outcome
      || (a.Gather? && w'.outcome.Some? && w'.outcome.value.captured == a.captured)
      || (w'.outcome.Some? && w'.outcome.value.captured == NOTHING && w'.outcome.value.status !in {Pass, Fail})
  {
  }

  /** What a finished call says is what happened: its status, and the logs and frame it shows. */
  lemma {:induction false} OutcomeTells(p: Plan, s0: Cells, acts: seq<Action>)
    ensures var w := Exec(Start(p), s0, acts).0;
      && TellInv(w)
      && (w.outcome.Some? ==>
            if w.outcome.value.status in {Pass, Fail} then exists i :: 0 <= i < |acts| && acts[i] == Gather(w.outcome.value.captured)
            else w.outcome.value.captured == NOTHING)
  {
    if acts != [] {
      var rest, a := acts[..|acts| - 1], acts[|acts| - 1];
      OutcomeTells(p, s0, rest);
      var (w, s) := Exec(Start(p), s0, rest);
      TellStep(w, s, a);
      GatherStep(w, s, a);
      var w' := Step(w, s, a).0;
      if w'.outcome.Some? && w'.outcome == w.outcome && w.outcome.value.status in {Pass, Fail} {
        var i :| 0 <= i < |rest| && rest[i] == Gather(w.outcome.value.captured);
        assert acts[i] == rest[i];
      }
    }
  }

  // ---- Termination ----

  /** An upper bound on the calls still to come right after `r` was created. */
  function RankCreated(l: Limits, r: Res): nat {
    match r
    case Smoke => 6 + l.job
    case Net => 10 + l.job + l.clearJob + l.ready
    case Svc => 13 + l.job + l.clearJob + l.ready + l.clear
    case Dep => 16 + l.job + l.clearJob + l.ready + 2 * l.clear
  }

  function Rank(w: Worker): nat {
    var l := w.plan.limits;
    match w.pc
    case Deleting(r) => RankCreated(l, r) + 3 + ClearLimit(w.plan, r)
    case Clearing(r, polls) => RankCreated(l, r) + 2 + polls
    case Creating(r) => RankCreated(l, r) + 1
    case AwaitReady(polls) => 10 + l.job + l.clearJob + polls
    case AwaitVerdict(polls) => 6 + polls
    case Gathering(_) => 5
    case Tearing(r) => 4 - Ord(r)
    case Finished => 0
  }

  /** Whose turn it is: gathering logs and the frame, or the next API call. */
  predicate Due(w: Worker, a: Action) {
    (a.Call? && !w.pc.Gathering? && !w.pc.Finished?) || (a.Gather? && w.pc.Gathering?)
  }

  lemma DeleteRank(w: Worker, s: Cells, f: Fault)
    requires w.pc.Deleting?
    ensures Rank(DeleteStep(w, s, w.pc.r, f).0) < Rank(w)
  {
  }

  lemma CreateRank(w: Worker, s: Cells, f: Fault)
    requires w.pc.Creating?
    ensures Rank(CreateStep(w, s, w.pc.r, f).0) < Rank(w)
  {
  }

  lemma ClearRank(w: Worker, s: Cells, f: Fault)
    requires w.pc.Clearing?
    ensures Rank(ClearStep(w, s, w.pc.r, w.pc.polls, f)) < Rank(w)
  {
  }

  lemma WaitRank(w: Worker, s: Cells, f: Fault)
    requires w.pc.AwaitReady? || w.pc.AwaitVerdict?
    ensures w.pc.AwaitReady? ==> Rank(ReadyStep(w, s, w.pc.polls, f)) < Rank(w)
    ensures w.pc.AwaitVerdict? ==> Rank(VerdictStep(w, s, w.pc.polls, f)) < Rank(w)
  {
  }

  /** Each of the worker's own steps brings it closer to the end; the cluster's steps never set it back. */
  lemma StepRank(w: Worker, s: Cells, a: Action)
    ensures var w' := Step(w, s, a).0;
      if Due(w, a) then Rank(w') < Rank(w) else w' == w
  {
    if a.Call? {
      match w.pc
      case Deleting(_) => DeleteRank(w, s, a.fault);
      case Clearing(_, _) => ClearRank(w, s, a.fault);
      case Creating(_) => CreateRank(w, s, a.fault);
      case AwaitReady(_) => WaitRank(w, s, a.fault);
      case AwaitVerdict(_) => WaitRank(w, s, a.fault);
      case _ =>
    }
  }
}
