/**
 * The sweeps of a server's whole life, one request after another: what each reported, from which state of the
 * namespace to which. The names of the Jobs are the same every time; the Jobs are not.
 */
module History {
  import opened Manifests
  import opened Store
  import opened Report
  import opened Anubis
  import opened Matrix
  import opened Transcript
  import opened Sweep

  /** A sweep that went well: its request, what it found, its transcript, its results, and what it left. */
  datatype Record = Record(id: nat, cfg: Config, framesDir: string, start: Anubis, before: Cells,
                           passes: seq<PassRun>, results: seq<Result>, after: Cells)

  /** It accounts for every result, and every verdict is its own call's, judged under its own policy. */
  ghost predicate RecordOk(l: Record, container: string) {
    var clean := CleanFrom(l.start, container, l.cfg, 0);
    && DistinctTags(l.cfg) && AllAttributed(l.cfg, l.framesDir, container, clean, l.passes)
    && Chronicle(l.cfg, l.framesDir, container, clean, l.passes, l.results, l.before, l.after)
  }

  /** Records of one sweep after another: each found a namespace no older than those before it left; so is now. */
  ghost predicate Kept(log: seq<Record>, container: string, now: Cells) {
    && (forall m :: 0 <= m < |log| ==> RecordOk(log[m], container) && Grown(log[m].after, now))
    && (forall m, n :: 0 <= m < n < |log| ==> Grown(log[m].after, log[n].before))
  }

  lemma KeptGrows(log: seq<Record>, container: string, s: Cells, t: Cells)
    requires Kept(log, container, s) && Grown(s, t)
    ensures Kept(log, container, t)
  {
  }

  /** What a sweep left is no older than what it found. */
  lemma RecordGrows(l: Record, container: string)
    requires RecordOk(l, container)
    ensures Grown(l.before, l.after)
  {
    ChainedGrows(l.before, AllRuns(l.passes), l.after, l.after);
  }

  lemma KeptSnoc(log: seq<Record>, s: Cells, l: Record, container: string, t: Cells)
    requires Kept(log, container, s) && Grown(s, l.before) && RecordOk(l, container) && Grown(l.after, t)
    ensures Kept(log + [l], container, t)
  {
    RecordGrows(l, container);
    var log' := log + [l];
    forall m | 0 <= m < |log'| ensures RecordOk(log'[m], container) && Grown(log'[m].after, t) {
      if m < |log| { GrownOn(log[m].after, s, l.before, l.after, t); }
    }
    forall m, n | 0 <= m < n < |log'| ensures Grown(log'[m].after, log'[n].before) {
      if n == |log| { GrownOn(log[m].after, s, l.before, l.before, l.before); }
    }
  }

  lemma GrownOn(a: Cells, b: Cells, c: Cells, d: Cells, e: Cells)
    requires Grown(a, b) && Grown(b, c) && Grown(c, d) && Grown(d, e)
    ensures Grown(a, e)
  {
  }

  /** A result: of which pass, which browser's row, which version. */
  datatype Spot = Spot(pass: nat, row: nat, col: nat)

  ghost predicate VerdictAt(l: Record, x: Spot) {
    && x.pass < |l.passes| && x.row < |l.passes[x.pass].rows| && x.col < |l.passes[x.pass].rows[x.row]|
    && l.passes[x.pass].rows[x.row][x.col].status in {Pass, Fail}
  }

  /** The worker behind a result, and what it saw. */
  predicate Told(l: Record, x: Spot) {
    && x.pass < |l.passes| && x.row < |l.passes[x.pass].runs| && x.row < |l.cfg.browsers|
    && x.col < |l.cfg.browsers[x.row].versions| && l.passes[x.pass].runs[x.row].Swept?
    && x.col < |l.passes[x.pass].runs[x.row].pool.fleet.workers|
    && l.passes[x.pass].runs[x.row].pool.fleet.workers[x.col].sighting.Some?
  }

  function JobKey(l: Record, x: Spot): Key
    requires Told(l, x)
  {
    var b := l.cfg.browsers[x.row];
    Key(Job, VersionedName(b.jobName, b.versions[x.col]))
  }

  function JobSeen(l: Record, x: Spot): nat
    requires Told(l, x)
  {
    l.passes[x.pass].runs[x.row].pool.fleet.workers[x.col].sighting.value.job
  }

  function PoolStart(l: Record, x: Spot): Cells
    requires Told(l, x)
  {
    l.passes[x.pass].runs[x.row].before
  }

  function PoolEnd(l: Record, x: Spot): Cells
    requires Told(l, x)
  {
    l.passes[x.pass].runs[x.row].pool.fleet.cells
  }

  /** A verdict's Job came up in its own pool. */
  lemma VerdictIsTold(l: Record, container: string, x: Spot)
    requires RecordOk(l, container) && VerdictAt(l, x)
    ensures Told(l, x) && JobSeen(l, x) == At(PoolStart(l, x), JobKey(l, x)).born + 1 == At(PoolEnd(l, x), JobKey(l, x)).born
  {
    assert AttributedAt(l.cfg, l.framesDir, container, CleanFrom(l.start, container, l.cfg, 0), l.passes, x.pass, x.row, x.col);
  }

  /** Every pool lies between what its sweep found and what it left. */
  lemma PoolIsWithin(l: Record, container: string, x: Spot)
    requires RecordOk(l, container) && Told(l, x)
    ensures Grown(l.before, PoolStart(l, x)) && Grown(PoolEnd(l, x), l.after)
  {
    RunAtPlace(l.passes, x.pass, x.row);
    ChainedStart(l.before, AllRuns(l.passes), l.after, Transcript.Place(l.passes, x.pass, x.row));
    ChainedEnd(l.before, AllRuns(l.passes), l.after, Transcript.Place(l.passes, x.pass, x.row));
  }

  /** The Job behind a verdict did not exist at any moment up to the start of its request's sweep. */
  lemma NewerThanItsRequest(l: Record, container: string, s: Cells, x: Spot)
    requires RecordOk(l, container) && VerdictAt(l, x) && Grown(s, l.before)
    ensures Told(l, x) && At(s, JobKey(l, x)).born < JobSeen(l, x)
  {
    VerdictIsTold(l, container, x);
    PoolIsWithin(l, container, x);
  }

  /** So it did not exist during any earlier request either. */
  lemma NeverAnEarlierRequest(log: seq<Record>, container: string, now: Cells, m: nat, n: nat, x: Spot)
    requires Kept(log, container, now) && m < n < |log| && VerdictAt(log[n], x)
    ensures Told(log[n], x) && At(log[m].after, JobKey(log[n], x)).born < JobSeen(log[n], x)
  {
    NewerThanItsRequest(log[n], container, log[m].after, x);
  }

  predicate SameJob(a: Record, x: Spot, b: Record, y: Spot)
    requires Told(a, x) && Told(b, y)
  {
    JobKey(a, x) == JobKey(b, y) && JobSeen(a, x) == JobSeen(b, y)
  }

  lemma EarlierRequestOtherJob(log: seq<Record>, container: string, now: Cells, m: nat, x: Spot, n: nat, y: Spot)
    requires Kept(log, container, now) && m < n < |log| && VerdictAt(log[m], x) && VerdictAt(log[n], y)
    ensures Told(log[m], x) && Told(log[n], y) && !SameJob(log[m], x, log[n], y)
  {
    VerdictIsTold(log[m], container, x);
    PoolIsWithin(log[m], container, x);
    NeverAnEarlierRequest(log, container, now, m, n, y);
  }

  /** A pool comes before another one of the same sweep. */
  predicate Before(x: Spot, y: Spot) {
    x.pass < y.pass || (x.pass == y.pass && x.row < y.row)
  }

  lemma EarlierPoolOtherJob(l: Record, container: string, x: Spot, y: Spot)
    requires RecordOk(l, container) && VerdictAt(l, x) && VerdictAt(l, y) && Before(x, y)
    ensures Told(l, x) && Told(l, y) && !SameJob(l, x, l, y)
  {
    var clean := CleanFrom(l.start, container, l.cfg, 0);
    VerdictIsTold(l, container, x);
    VerdictIsTold(l, container, y);
    NeverAnEarlierJob(l.cfg, l.framesDir, container, clean, l.passes, l.results, l.before, l.after,
                      x.pass, x.row, y.pass, y.row, y.col);
  }

  lemma OtherVersionOtherJob(l: Record, x: Spot, y: Spot)
    requires DistinctTags(l.cfg) && Told(l, x) && Told(l, y) && x.row == y.row && x.col != y.col
    ensures !SameJob(l, x, l, y)
  {
    var b := l.cfg.browsers[x.row];
    assert b in l.cfg.browsers && b.versions[x.col] != b.versions[y.col];
    TagsNameApart(b.jobName, b.versions[x.col], b.versions[y.col]);
  }

  lemma TagsNameApart(base: string, t: string, u: string)
    requires t != u
    ensures VersionedName(base, t) != VersionedName(base, u)
  {
    var n := |base| + 1;
    assert VersionedName(base, t)[n..] == t && VersionedName(base, u)[n..] == u;
  }

  lemma SameRequestOtherJob(l: Record, container: string, x: Spot, y: Spot)
    requires RecordOk(l, container) && VerdictAt(l, x) && VerdictAt(l, y) && x != y
    ensures Told(l, x) && Told(l, y) && !SameJob(l, x, l, y)
  {
    if Before(x, y) {
      EarlierPoolOtherJob(l, container, x, y);
    } else if Before(y, x) {
      EarlierPoolOtherJob(l, container, y, x);
    } else {
      VerdictIsTold(l, container, x);
      VerdictIsTold(l, container, y);
      OtherVersionOtherJob(l, x, y);
    }
  }

  /**
   * One Job, one result: over the server's whole life no Job decides two results, be they of different requests,
   * different policies, different browsers or different versions.
   */
  lemma OneJobOneResult(log: seq<Record>, container: string, now: Cells, m: nat, x: Spot, n: nat, y: Spot)
    requires Kept(log, container, now) && m < |log| && n < |log| && VerdictAt(log[m], x) && VerdictAt(log[n], y)
    requires m != n || x != y
    ensures Told(log[m], x) && Told(log[n], y) && !SameJob(log[m], x, log[n], y)
  {
    if m < n {
      EarlierRequestOtherJob(log, container, now, m, x, n, y);
    } else if n < m {
      EarlierRequestOtherJob(log, container, now, n, y, m, x);
    } else {
      SameRequestOtherJob(log[m], container, x, y);
    }
  }
}
