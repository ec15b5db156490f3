/**
 * The bounded goroutine pool of `sweepBrowsers`: a spawner that adds to the WaitGroup before it blocks
 * on the semaphore, workers that publish into their own slot, then free the semaphore, then call Done,
 * and a final Wait. Every interleaving of spawner, workers and cluster is a run of this machine.
 */
module Pool {
  import opened Manifests
  import opened Store
  import Report
  import opened Worker
  import opened Fleet

  datatype Phase = Unborn | Running | Published | Released | Exited

  /** `added`: the spawner has called wg.Add for `next` and waits for the semaphore. `sched` is history. */
  datatype Pool = Pool(cap: nat, next: nat, added: bool, returned: bool, wg: int, sem: int,
                       phases: seq<Phase>, slots: seq<Option<Outcome>>, fleet: Fleet, sched: Schedule)

  datatype Move = Add | Spawn | Work(i: nat, a: Action) | Publish(i: nat) | Release(i: nat) | Done(i: nat) | Wait

  function Capacity(parallelism: int): nat {
    if parallelism < 1 then 1 else parallelism
  }

  function Opened(parallelism: int, plans: seq<Plan>, s: Cells): Pool {
    var n := |plans|;
    Pool(Capacity(parallelism), 0, false, false, 0, 0, seq(n, _ => Unborn), seq(n, _ => None), Starts(plans, s), [])
  }

  predicate Enabled(p: Pool, m: Move) {
    && !p.returned && |p.phases| == |p.slots| == |p.fleet.workers|
    && var n := |p.phases|;
    match m
    case Add => p.next < n && !p.added
    case Spawn => p.next < n && p.added && p.sem < p.cap
    case Work(i, a) => i < n && (a.Call? || a.Gather? ==> p.phases[i] == Running && Due(p.fleet.workers[i], a))
    case Publish(i) => i < n && p.phases[i] == Running && p.fleet.workers[i].pc.Finished?
    case Release(i) => i < n && p.phases[i] == Published
    case Done(i) => i < n && p.phases[i] == Released
    case Wait => p.next == n && !p.added && p.wg == 0
  }

  function Apply(p: Pool, m: Move): Pool
    requires Enabled(p, m)
  {
    match m
    case Add => p.(added := true, wg := p.wg + 1)
    case Spawn => p.(added := false, sem := p.sem + 1, next := p.next + 1, phases := p.phases[p.next := Running])
    case Work(i, a) => p.(fleet := FleetStep(p.fleet, i, a), sched := p.sched + [(i, a)])
    case Publish(i) => p.(slots := p.slots[i := p.fleet.workers[i].outcome], phases := p.phases[i := Published])
    case Release(i) => p.(sem := p.sem - 1, phases := p.phases[i := Released])
    case Done(i) => p.(wg := p.wg - 1, phases := p.phases[i := Exited])
    case Wait => p.(returned := true)
  }

  /** A move that is not enabled does not happen. */
  function Next(p: Pool, m: Move): Pool {
    if Enabled(p, m) then Apply(p, m) else p
  }

  function Run(p: Pool, moves: seq<Move>): Pool {
    if moves == [] then p
    else Next(Run(p, moves[..|moves| - 1]), moves[|moves| - 1])
  }

  // ---- Counting ----

  function Count(phases: seq<Phase>, which: set<Phase>): nat {
    if phases == [] then 0
    else Count(phases[..|phases| - 1], which) + if phases[|phases| - 1] in which then 1 else 0
  }

  lemma {:induction false} CountUpdate(phases: seq<Phase>, i: nat, x: Phase, which: set<Phase>)
    requires i < |phases|
    ensures Count(phases[i := x], which) + (if phases[i] in which then 1 else 0)
         == Count(phases, which) + (if x in which then 1 else 0)
  {
    var n := |phases| - 1;
    if i == n {
      assert phases[i := x][..n] == phases[..n];
    } else {
      assert phases[i := x][..n] == phases[..n][i := x];
      CountUpdate(phases[..n], i, x, which);
    }
  }

  lemma {:induction false} CountZero(phases: seq<Phase>, which: set<Phase>)
    ensures Count(phases, which) == 0 <==> forall i :: 0 <= i < |phases| ==> phases[i] !in which
  {
    if phases != [] {
      var n := |phases| - 1;
      CountZero(phases[..n], which);
      assert forall i :: 0 <= i < n ==> phases[..n][i] == phases[i];
    }
  }

  const HOLDING := {Running, Published}
  const ALIVE := {Running, Published, Released}

  // ---- The invariant ----

  predicate Counters(p: Pool) {
    && p.sem == Count(p.phases, HOLDING) <= p.cap
    && p.wg == Count(p.phases, ALIVE) + (if p.added then 1 else 0)
  }

  predicate Spawner(p: Pool) {
    && p.next <= |p.phases| && (p.added ==> p.next < |p.phases|)
    && (forall i :: 0 <= i < |p.phases| ==> (p.phases[i] == Unborn <==> p.next <= i))
    && (p.returned ==> p.next == |p.phases| && !p.added && p.wg == 0)
  }

  predicate SlotOk(phase: Phase, slot: Option<Outcome>, w: Worker) {
    if phase in {Published, Released, Exited} then w.pc.Finished? && slot == w.outcome else slot == None
  }

  ghost predicate PoolInv(p: Pool, plans: seq<Plan>, s0: Cells) {
    && |p.phases| == |p.slots| == |p.fleet.workers| == |plans|
    && p.fleet == FleetExec(Starts(plans, s0), p.sched)
    && Counters(p) && Spawner(p)
    && (forall i :: 0 <= i < |plans| ==> SlotOk(p.phases[i], p.slots[i], p.fleet.workers[i]))
  }

  lemma OpenedInv(parallelism: int, plans: seq<Plan>, s: Cells)
    ensures PoolInv(Opened(parallelism, plans, s), plans, s)
  {
    var p := Opened(parallelism, plans, s);
    CountZero(p.phases, HOLDING);
    CountZero(p.phases, ALIVE);
  }

  /** The index whose phase a move changes, and the new phase. */
  function Moved(p: Pool, m: Move): Option<(nat, Phase)> {
    match m
    case Spawn => Some((p.next, Running))
    case Publish(i) => Some((i, Published))
    case Release(i) => Some((i, Released))
    case Done(i) => Some((i, Exited))
    case _ => None
  }

  lemma ApplyCounters(p: Pool, m: Move)
    requires Enabled(p, m) && Counters(p) && Spawner(p)
    ensures Counters(Apply(p, m)) && Spawner(Apply(p, m))
  {
    if Moved(p, m).Some? {
      var (i, x) := Moved(p, m).value;
      CountUpdate(p.phases, i, x, HOLDING);
      CountUpdate(p.phases, i, x, ALIVE);
    }
  }

  lemma WorkInv(p: Pool, plans: seq<Plan>, s0: Cells, i: nat, a: Action)
    requires PoolInv(p, plans, s0) && Enabled(p, Work(i, a))
    ensures PoolInv(Apply(p, Work(i, a)), plans, s0)
  {
    var p' := Apply(p, Work(i, a));
    assert p'.sched[..|p'.sched| - 1] == p.sched;
    ApplyCounters(p, Work(i, a));
    forall j | 0 <= j < |plans|
      ensures SlotOk(p'.phases[j], p'.slots[j], p'.fleet.workers[j])
    {
      assert SlotOk(p.phases[j], p.slots[j], p.fleet.workers[j]);
      StepRank(p.fleet.workers[i], p.fleet.cells, a);
    }
  }

  lemma ApplyInv(p: Pool, plans: seq<Plan>, s0: Cells, m: Move)
    requires PoolInv(p, plans, s0) && Enabled(p, m)
    ensures PoolInv(Apply(p, m), plans, s0)
  {
    if m.Work? {
      WorkInv(p, plans, s0, m.i, m.a);
    } else {
      ApplyCounters(p, m);
      var p' := Apply(p, m);
      forall j | 0 <= j < |plans|
        ensures SlotOk(p'.phases[j], p'.slots[j], p'.fleet.workers[j])
      {
        assert SlotOk(p.phases[j], p.slots[j], p.fleet.workers[j]);
      }
    }
  }

  /**
   * In every reachable state: the running workers never exceed max(1, Parallelism), the semaphore
   * counts its holders, the WaitGroup counts Adds minus Dones, and a slot holds exactly its own
   * worker's published outcome.
   */
  lemma {:induction false} RunInv(parallelism: int, plans: seq<Plan>, s: Cells, moves: seq<Move>)
    ensures PoolInv(Run(Opened(parallelism, plans, s), moves), plans, s)
    ensures var q := Run(Opened(parallelism, plans, s), moves);
      && Count(q.phases, {Running}) <= q.cap && q.cap >= 1 && q.cap >= parallelism && (q.cap == 1 || q.cap == parallelism)
  {
    var p := Opened(parallelism, plans, s);
    if moves == [] {
      OpenedInv(parallelism, plans, s);
    } else {
      RunInv(parallelism, plans, s, moves[..|moves| - 1]);
      var q := Run(p, moves[..|moves| - 1]);
      if Enabled(q, moves[|moves| - 1]) { ApplyInv(q, plans, s, moves[|moves| - 1]); }
    }
    CountMonotone(Run(p, moves).phases, {Running}, HOLDING);
  }

  lemma {:induction false} CountMonotone(phases: seq<Phase>, a: set<Phase>, b: set<Phase>)
    requires a <= b
    ensures Count(phases, a) <= Count(phases, b)
  {
    if phases != [] { CountMonotone(phases[..|phases| - 1], a, b); }
  }

  /**
   * The pool is a sequential map over the tags: whatever the schedule, when Wait returns slot i holds
   * what tag i's call returns when run alone.
   */
  lemma PoolIsAMap(p: Pool, plans: seq<Plan>, s: Cells)
    requires AllDisjoint(plans) && PoolInv(p, plans, s) && p.returned
    ensures forall i :: 0 <= i < |plans| ==>
      var w := Exec(Start(plans[i]), s, Projection(p.sched, i)).0;
      w.pc.Finished? && p.slots[i] == w.outcome && p.slots[i].Some?
  {
    CountZero(p.phases, ALIVE);
    forall i | 0 <= i < |plans|
      ensures var w := Exec(Start(plans[i]), s, Projection(p.sched, i)).0;
        w.pc.Finished? && p.slots[i] == w.outcome && p.slots[i].Some?
    {
      assert p.phases[i] == Exited;
      assert SlotOk(p.phases[i], p.slots[i], p.fleet.workers[i]);
      WorkerIsAlone(plans, s, p.sched, i);
      LogIsComplete(plans[i], s, Projection(p.sched, i));
      ExecInv(plans[i], s, LogOf(plans[i], s, Projection(p.sched, i)), Projection(p.sched, i));
    }
  }

  /** Worker i's verdict is its own: read from the one Job it created, off a status written to that Job meanwhile. */
  ghost predicate Own(plans: seq<Plan>, s: Cells, sched: Schedule, i: nat, x: Option<Sighting>, passed: bool)
    requires i < |plans|
  {
    && x.Some? && x.value.passed == passed && x.value.job == At(s, KeyOf(plans[i], Smoke)).born + 1
    && (exists k :: WrittenAt(plans, s, sched, k, i, x.value))
  }

  lemma FleetVerdict(plans: seq<Plan>, s: Cells, sched: Schedule, i: nat)
    requires AllDisjoint(plans) && i < |plans|
    ensures var f := FleetExec(Starts(plans, s), sched); var k := KeyOf(plans[i], Smoke); var w := f.workers[i];
      && w == Exec(Start(plans[i]), s, Projection(sched, i)).0
      && (w.pc.Finished? ==> w.outcome.Some?)
      && (w.pc.Finished? && w.outcome.value.status in {Report.Pass, Report.Fail} ==>
           && Own(plans, s, sched, i, w.sighting, w.outcome.value.status == Report.Pass)
           && At(f.cells, k).born == At(s, k).born + 1)
  {
    WorkerIsAlone(plans, s, sched, i);
    var acts := Projection(sched, i);
    VerdictIsOwn(plans[i], s, acts);
    var (w, t) := Exec(Start(plans[i]), s, acts);
    assert At(FleetExec(Starts(plans, s), sched).cells, KeyOf(plans[i], Smoke)) == At(t, KeyOf(plans[i], Smoke));
    if w.pc.Finished? && w.outcome.value.status in {Report.Pass, Report.Fail} {
      var j :| WroteAt(plans[i], s, acts, j, w.sighting.value);
      var k := WriteInSchedule(plans, s, sched, i, j, w.sighting.value);
    }
  }

  /**
   * Each pass or fail the pool returns was read from a Job the same call created, one identity past
   * what the name held before the pool was opened, off a status written to that very Job while the pool ran.
   */
  lemma PoolVerdicts(p: Pool, plans: seq<Plan>, s: Cells, i: nat)
    requires AllDisjoint(plans) && PoolInv(p, plans, s) && p.returned && i < |plans|
    ensures var k := KeyOf(plans[i], Smoke);
      p.slots[i].Some? &&
      (p.slots[i].value.status in {Report.Pass, Report.Fail} ==>
        && Own(plans, s, p.sched, i, p.fleet.workers[i].sighting, p.slots[i].value.status == Report.Pass)
        && At(p.fleet.cells, k).born == At(s, k).born + 1)
  {
    PoolIsAMap(p, plans, s);
    FleetVerdict(plans, s, p.sched, i);
  }

  /** When Wait returns every slot is filled, even if tags clash. */
  lemma SlotsAreFull(p: Pool, plans: seq<Plan>, s: Cells)
    requires PoolInv(p, plans, s) && p.returned
    ensures forall i :: 0 <= i < |plans| ==> p.slots[i].Some?
  {
    CountZero(p.phases, ALIVE);
    FleetKeeps(plans, s, p.sched);
    forall i | 0 <= i < |plans|
      ensures p.slots[i].Some?
    {
      assert p.phases[i] == Exited && Recorded(p.fleet.workers[i]);
      assert SlotOk(p.phases[i], p.slots[i], p.fleet.workers[i]);
    }
  }

  /** What Wait leaves in a slot is its own worker's outcome, and that tells what happened, even if tags clash. */
  lemma PoolTells(p: Pool, plans: seq<Plan>, s: Cells, i: nat)
    requires PoolInv(p, plans, s) && p.returned && i < |plans|
    ensures var w := p.fleet.workers[i];
      && p.slots[i].Some? && w.outcome == p.slots[i] && Tells(w, p.slots[i].value.status) && TellsAll(p.sched, i, w)
      && SaysWhatWasSeen(plans, s, p.sched, i, p.slots[i].value.status)
  {
    SlotsAreFull(p, plans, s);
    CountZero(p.phases, ALIVE);
    FleetTells(plans, s, p.sched, i);
    StatusSaysWhatWasSeen(plans, s, p.sched, i);
    assert p.phases[i] == Exited && SlotOk(p.phases[i], p.slots[i], p.fleet.workers[i]);
  }

  // ---- Progress ----

  function PhaseRank(phase: Phase, w: Worker): nat {
    match phase
    case Unborn => Rank(w) + 4
    case Running => Rank(w) + 3
    case Published => 2
    case Released => 1
    case Exited => 0
  }

  function Left(phases: seq<Phase>, workers: seq<Worker>): nat
    requires |phases| == |workers|
  {
    if phases == [] then 0
    else
      var n := |phases| - 1;
      Left(phases[..n], workers[..n]) + PhaseRank(phases[n], workers[n])
  }

  lemma {:induction false} LeftUpdate(phases: seq<Phase>, workers: seq<Worker>, i: nat, x: Phase, w: Worker)
    requires |phases| == |workers| && i < |phases|
    ensures Left(phases[i := x], workers[i := w]) + PhaseRank(phases[i], workers[i])
         == Left(phases, workers) + PhaseRank(x, w)
  {
    var n := |phases| - 1;
    if i == n {
      assert phases[i := x][..n] == phases[..n] && workers[i := w][..n] == workers[..n];
    } else {
      assert phases[i := x][..n] == phases[..n][i := x] && workers[i := w][..n] == workers[..n][i := w];
      LeftUpdate(phases[..n], workers[..n], i, x, w);
    }
  }

  function Measure(p: Pool): int
    requires |p.phases| == |p.fleet.workers|
  {
    2 * (|p.phases| - p.next) - (if p.added then 1 else 0) + Left(p.phases, p.fleet.workers) + (if p.returned then 0 else 1)
  }

  predicate ClusterMove(m: Move) {
    m.Work? && (m.a.Reap? || m.a.Rewrite?)
  }

  lemma WorkMeasure(p: Pool, i: nat, a: Action)
    requires Enabled(p, Work(i, a))
    ensures var p' := Apply(p, Work(i, a));
      if a.Reap? || a.Rewrite? then Measure(p') == Measure(p) else Measure(p') < Measure(p)
  {
    var p' := Apply(p, Work(i, a));
    StepRank(p.fleet.workers[i], p.fleet.cells, a);
    LeftUpdate(p.phases, p.fleet.workers, i, p.phases[i], p'.fleet.workers[i]);
    assert p'.phases == p.phases[i := p.phases[i]] && p'.fleet.workers == p.fleet.workers[i := p'.fleet.workers[i]];
  }

  lemma PhaseMeasure(p: Pool, m: Move)
    requires Enabled(p, m) && Spawner(p) && !m.Work?
    ensures Measure(Apply(p, m)) < Measure(p)
  {
    if Moved(p, m).Some? {
      var (i, x) := Moved(p, m).value;
      LeftUpdate(p.phases, p.fleet.workers, i, x, p.fleet.workers[i]);
      assert p.fleet.workers == p.fleet.workers[i := p.fleet.workers[i]];
    }
  }

  /** Every move of the spawner or a worker brings Wait's return closer; the cluster's moves never set it back. */
  lemma MoveMeasure(p: Pool, plans: seq<Plan>, s0: Cells, m: Move)
    requires PoolInv(p, plans, s0) && Enabled(p, m)
    ensures var p' := Apply(p, m);
      |p'.phases| == |p'.fleet.workers| &&
      if ClusterMove(m) then Measure(p') == Measure(p) else 0 <= Measure(p') < Measure(p)
  {
    ApplyInv(p, plans, s0, m);
    if m.Work? { WorkMeasure(p, m.i, m.a); } else { PhaseMeasure(p, m); }
  }

  /** Some move other than the cluster's is possible until Wait has returned. */
  lemma NotStuck(p: Pool, plans: seq<Plan>, s0: Cells) returns (m: Move)
    requires PoolInv(p, plans, s0) && !p.returned && p.cap >= 1
    ensures Enabled(p, m) && !ClusterMove(m)
  {
    if i :| 0 <= i < |plans| && p.phases[i] in ALIVE {
      match p.phases[i]
      case Running =>
        match p.fleet.workers[i].pc {
          case Finished => m := Publish(i);
          case Gathering(_) => m := Work(i, Gather(NOTHING));
          case _ => m := Work(i, Call(Granted));
        }
      case Published => m := Release(i);
      case Released => m := Done(i);
    } else {
      CountZero(p.phases, ALIVE);
      CountZero(p.phases, HOLDING);
      m := if p.added then Spawn else if p.next < |plans| then Add else Wait;
    }
  }
}
