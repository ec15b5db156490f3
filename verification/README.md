# A verified model of Gubal's sweep engine

Gubal tests lists of browser image tags against an in-cluster Anubis. One sweep takes policies one after
another; each is written into the shared Anubis Deployment and then every requested browser version is
tried in a bounded pool of goroutines. Every version gets its own Deployment, Service, NetworkPolicy and
smoke Job, and all of them are torn down again. The *names* of these objects are the same under every policy,
deletion is asynchronous, every API call may fail or lose its reply, and every wait may end early. A server
lets one sweep run at a time and reports the outcome on a pull request.

This project models that system in Dafny and proves what its comments promise.

| file | what it models |
|---|---|
| `Store.dfy`, `Manifests.dfy`, `Report.dfy` | a namespace whose objects are only *marked* by a delete and reaped later; manifests and results as values |
| `Worker.dfy` | `sweepOne` as a program over a shared namespace, one API call a step |
| `VersionWorker.dfy` | the same call as the code writes it (loops, early returns, deferred teardown), proved to take exactly those steps |
| `Fleet.dfy`, `Pool.dfy` | several such calls interleaved; the semaphore, the WaitGroup and the result slots |
| `Anubis.dfy`, `PodTemplate.dfy`, `Cluster.dfy` | the shared Deployment and its rollouts; its pod template in memory, edited in place; the API client's methods on it |
| `Matrix.dfy`, `Transcript.dfy`, `Sweep.dfy` | the matrix to report on; the transcript of a run and what follows from it; `Run` and all it calls |
| `Server.dfy`, `Service.dfy` | the one-slot semaphore and the comments over every interleaving; the two entry points over the real cluster, with the real run inside |
| `History.dfy` | the sweeps of a server's whole life and the Jobs behind their results |
| `Requests.dfy` | a validated request from its version lists to its report |
| `Truncation.dfy`, `Grouping.dfy`, `Rendering.dfy`, `Rehost.dfy`, `Retarget.dfy`, `Policies.dfy`, `Naming.dfy`, `Parse.dfy`, `LogLines.dfy`, `Frames.dfy` | the data layer |

## How it hangs together

An object's identity is the number of objects its name has ever held, so "fresh" means "one past what was there
before the call". Every status the cluster writes to an object takes effect. `Worker.VerdictIsOwn` shows that a pass
or a fail comes from a Job the same call created, off a status written to that very Job during the call.
`Fleet.NonInterference` carries this from one call to any interleaving and `Pool.PoolIsAMap` to the bounded pool.

`Sweep.RunPool` runs the pool while Anubis pods turn over as they like, and records what Anubis was at each step;
every status is judged by what Anubis served at the step that wrote it. The methods above it return a transcript:
for each policy and browser either a skipped row or the pool itself, the cells and the Anubis it started from, and
that history. `Transcript.Chronicle`, part of `Sweep.Run`'s contract, ties all of it down: each pool satisfies the
pool machine's invariant from its own start, the starts follow one another, each row is read off its own pool's
slots, the results are those rows in order. `Transcript.EveryVerdictIsAttributed` and
`Transcript.NeverAnEarlierJob` are consequences. `Transcript.RowIsAccounted` is the other direction: what a worker was
answered is what its result says, no less and no more (`Fleet.StatusSaysWhatWasSeen`). Where a function of the code
is written once and used by a method and its specification (what a Job's conditions mean, an image change, what a
version runs, a comment's words), a lemma named for its meaning says what it computes without calling it. `Requests.ExecuteSweep` shows that a validated request meets every
assumption made on the way, and `Service` calls it: that a sweep gives the template back is there derived from the
run's contract, and that is what enables the server machine's `Finish` step. Each request that goes well leaves a
record of its transcript; `Service.Serve` handles any number of requests and `History.OneJobOneResult` concludes that
no Job ever decides two results, be they of different requests, policies, browsers or versions.

Assumptions: nobody but this server writes to the namespace; the Anubis Deployment's name is not one of the
per-version names; the Deployment controller reports a rollout complete only once the pods run the template; no
container has two `POLICY_FNAME` environment entries, and no mount or volume of the policy volume's name occurs
twice (the upserts change the first, a container runtime uses the last: `Anubis.UpsertTakesEffect` says exactly when
that matters, `Anubis.UniqueIsFirst` that under this assumption it does not). Anubis pods may restart or roll out at
any moment, also in the middle of a pool.

## Where code and comments part

Each item names the exact condition and a lemma at a failing input.

- `applyPolicy` waits for the rollout "so subsequent browser requests hit the new ruleset" (`chromesweep/sweep.go:95-97`).
  If Anubis already ran the wired template with an older ruleset, the update changes nothing, no rollout starts and
  the wait returns at once. `Anubis.ReadyMeansNewRuleset` proves that this is exactly when it goes wrong;
  `Anubis.StaleRuleset` gives the run: a sweep applies a policy, its restore is lost, the next request sends the same
  policy with other content. The condition `Clean` in `Sweep.Run` rules it out, and `Sweep.NextRunIsClean` says a
  run whose restore rolled out leaves the next one such a start.
- `capTo` promises "at most max bytes" (`cmd/gubald/svc/smoketest/comments.go:14-16`). It exceeds the limit exactly when
  it truncates to a limit below the length of its note: `Truncation.CappedBound`, `Truncation.BodyResultBound`. Failing
  inputs: `Truncation.TinyLimitIsExceeded`, `Truncation.LongLinkIsTooMuch`.
- `localFrameName` promises that "nothing collides" (`chromesweep/sweep.go:318-320`). `Naming.FramesCollide` gives
  the exact browsers and tags, of any text, that do under some two valid policies, and those that do without policies.
  The command line takes any tags (`cmd/chrome-sweep/main.go:77-78`), and under two policies the chrome preset collides
  with itself: `Naming.DashedTagCollides` gives the versions and the policies. Tags without dashes, such as a server
  request's numbers, do not do that to the presets (`Naming.DashFreeTagsCollide`, `Naming.FrameNameInjective`). The
  entries of the bundle never collide for the presets, whatever the tags (`Naming.RunFilesNeverClash`).
- `retargetJob` promises to leave `localhost:9222` alone (`chromesweep/retarget.go:70-71`). `Rehost.LocalhostSurvives`
  gives, for every tag, the exact base hosts (texts without a colon) for which it does wherever a `localhost:9222`
  stands; the presets are among them (`Rehost.PresetsSpareLocalhost`). `Rehost.HostLosesLocalhost` gives two that are not.
- `lastLines` says a single trailing newline is ignored (`chromesweep/report.go:184-186`); it trims them all.
  `LogLines.ExcerptKeepsItsPromise` says for which texts that shows, `LogLines.TwoNewlinesDiffer` gives one.
- `EnsureCollector` leaves its pod behind when it fails after creating it: the removal is only deferred
  afterwards (`chromesweep/sweep.go:64-71`). `Cluster.CollectorIsLeftBehind` gives the exact answers of the API under
  which that happens, `Cluster.PodThatNeverRuns` one such case. `Sweep.Run` counts removals accordingly.

## Model

| member | source | states |
|---|---|---|
| Worker.CreateOrReplaceIsExact | chromesweep/cluster.go:86-191 | over every run of a call, with refused calls, lost replies and deletions still pending: a create is only issued when no object of that name is left, and from then until teardown the name holds exactly the given manifest under an identity one past whatever it held when the call began |
| Worker.VerdictIsOwn | chromesweep/sweep.go:232-316 | a finished call that says pass or fail read it from the Job this call created, after the browser's rollout was seen ready, off conditions written to that very Job by one of the status writes during this call, the first true Complete or Failed among which is what it says; every status write takes effect |
| Worker.OutcomeTells | chromesweep/sweep.go:222-316 | over every run of a call: pass or fail exactly when a verdict was read, and which; not ready exactly when Deployment, Service and NetworkPolicy were created and the rollout was not seen complete; error in every other case; the logs and frame of an outcome with a verdict are those gathered, one without shows none |
| Worker.TeardownIsComplete | chromesweep/sweep.go:230-236 | a finished call tried all four deletes once each, in order, whatever failed before; each answered delete leaves nothing that is not on its way out |
| Worker.FootprintIsFour | chromesweep/sweep.go:222-316 | no call changes anything outside its four names |
| Worker.StepRank | chromesweep/cluster.go:61-98 | every step of a call brings it closer to its end, cluster steps never set it back: calls always terminate |
| Worker.ExecInv | chromesweep/sweep.go:222-316 | the invariant behind the four results above, in every reachable state of a call |
| VersionWorker.Session.SweepOne | chromesweep/sweep.go:222-316 | the call in code form ends, records one outcome, tries four deletes and keeps to its names; its status tells what happened, no less and no more; its steps are a run of the machine, so all of the above holds of it |
| VersionWorker.Session.Attempt | chromesweep/sweep.go:238-315 | every early return leaves the machine at the start of its teardown with exactly the status returned |
| VersionWorker.Session.CreateOrReplace | chromesweep/cluster.go:77-191 | delete, wait until gone, create: success leaves the machine past the creation, any failure aborts the call as an error |
| VersionWorker.Session.WaitGone | chromesweep/cluster.go:86-98 | succeeds only at a poll that finds the name empty |
| VersionWorker.Session.WaitReady | chromesweep/cluster.go:63-83 | succeeds only at a poll that finds the rollout complete; anything else is recorded as not ready |
| VersionWorker.Session.WaitJob | chromesweep/cluster.go:214-240 | returns the verdict that the Job's conditions carry at the first poll at which they carry one: the first true Complete or Failed decides |
| VersionWorker.ReadConditions | chromesweep/cluster.go:224-236 | finds a verdict exactly when some true condition says Complete or Failed, and returns success exactly when the first of them says Complete |
| Store.VerdictMeaning | chromesweep/cluster.go:224-236 | the verdict a Job's conditions carry, over their places: success (or failure) exactly when some condition is true and says Complete (or Failed) and no true one before it says either; none exactly when no true condition says either |
| Store.ReadyMeansAllPods | chromesweep/cluster.go:63-83 | with the counters taken from the Deployment's pods: a rollout is complete if and only if the current generation has been seen, there are exactly as many pods as wanted, and each is of the current template and available |
| Store.LifeOfAnObject | chromesweep/cluster.go:86-98 | a create fills an empty name one identity on; a delete only marks the object; only then can it go, and the name keeps its count |
| VersionWorker.Session.DeleteVersionResources | chromesweep/cluster.go:193-212 | all four deletes are tried; no error exactly when each was answered |
| Fleet.WorkerIsAlone | chromesweep/sweep.go:156-168 | in any interleaving of calls with disjoint names each ends as it would have ended alone, and so do its objects |
| Fleet.NonInterference | chromesweep/sweep.go:156-168 | any interleaving ends with the same workers and the same namespace as running the calls one after another |
| Fleet.OrderDoesNotMatter | chromesweep/sweep.go:156-168 | two interleavings of the same per-call steps cannot be told apart |
| Fleet.FleetFrame | chromesweep/sweep.go:156-168 | a pool changes nothing but its workers' names |
| Fleet.FleetKeeps | chromesweep/sweep.go:156-168 | even if names clash, identities only grow and every call that is leaving has recorded its outcome |
| Fleet.StatusSaysWhatWasSeen | chromesweep/sweep.go:238-315 | in any interleaving, even with clashing names, a status in terms of what the API answered: pass or fail exactly when some step of the worker read its Job with conditions that say so; not ready exactly when steps created Deployment, Service and NetworkPolicy and none read a complete rollout; error otherwise |
| Matrix.TagsAreDisjoint | chromesweep/sweep.go:222-225 | different tags of one browser share no (kind, name), whatever characters the tags have |
| Matrix.BrowserIsDisjoint | chromesweep/parse.go:12-30 | duplicate-free tags give pairwise disjoint calls |
| Matrix.CubeHasNoDup | chromesweep/sweep.go:81-91 | with distinct names and tags no cell of the policy, browser, version matrix occurs twice |
| Matrix.PlanOfVersion | chromesweep/sweep.go:222-262 | the four objects are called what the call looks for; the Deployment is the base's with image repo:tag in every container of the browser's name and the base's image in every other, names, arguments and order kept |
| Matrix.PlanKeepsTheRest | chromesweep/retarget.go:17-82 | labels and selectors are the base's with app set to the version's name; the Job keeps its containers, their names and images, and the number of their arguments |
| Matrix.VersionsRunTheirOwnImage | chromesweep/sweep.go:225-225 | different tags run different images |
| Matrix.CubeAt | chromesweep/sweep.go:81-91 | the place of every cell: policies outermost, then browsers, then versions, each in the order given |
| Matrix.CubeSize | chromesweep/sweep.go:81-91 | and there are no other cells |
| Matrix.PassesMeaning | chromesweep/sweep.go:73-79 | without policies one pass under no name, otherwise one for each in order |
| Pool.RunInv | chromesweep/sweep.go:139-168 | in every reachable state no more calls run than the larger of 1 and Parallelism, which is what the semaphore holds; it counts its holders, the WaitGroup counts Adds minus Dones, and each slot is empty or holds its own worker's outcome |
| Pool.PoolIsAMap | chromesweep/sweep.go:156-169 | when Wait returns, slot i holds what tag i's call returns when run alone, whatever the schedule |
| Pool.PoolVerdicts | chromesweep/sweep.go:156-169 | a pass or fail in slot i comes from the one Job its own call created, one identity past what the name held when the pool was opened, off a status written to that Job at some step of the pool's schedule |
| Pool.SlotsAreFull | chromesweep/sweep.go:156-169 | when Wait returns every slot is filled, even if tags clash |
| Pool.PoolTells | chromesweep/sweep.go:156-169 | when Wait returns, each slot holds its own worker's outcome, and its status says what that worker was answered |
| Pool.MoveMeasure | chromesweep/sweep.go:159-168 | every move of spawner or worker brings Wait's return closer |
| Pool.NotStuck | chromesweep/sweep.go:159-168 | until Wait has returned some move is always possible: Add before the semaphore and release before Done never deadlock |
| PodTemplates.UpsertInPlace | chromesweep/cluster.go:472-514 | the loop of the three upserts computes Upsert: it writes into the slice when the name is there, and leaves that slice alone and returns a longer one when not |
| Anubis.UpsertMeaning | chromesweep/cluster.go:472-514 | after an upsert the name carries the new entry, every entry of another name stays, in order |
| Anubis.UpsertTakesEffect | chromesweep/cluster.go:472-487 | for a runtime that lets the last duplicate win, an upsert takes effect if and only if the name does not occur again behind its first entry, or occurs last with that same value |
| Anubis.UniqueIsFirst | chromesweep/cluster.go:472-514 | where a name occurs at most once the first entry is the one in force |
| PodTemplates.PodTemplate.WireSlots | chromesweep/cluster.go:450-462 | the container loop finds the container exactly when it is there and wires every container of that name, its own slices only |
| PodTemplates.PodTemplate.SetPolicy | chromesweep/cluster.go:449-466 | edited in place, the template becomes Wire of what it was, or stays as it was when the container is not there |
| PodTemplates.SnapshotThenWire | chromesweep/cluster.go:412-420 | later edits of the object a snapshot was taken from do not reach the snapshot |
| PodTemplates.SharedSlicesLeak | chromesweep/cluster.go:412-420 | what the deep copy is for: with shared slices, wiring an Anubis that had a policy volume before would point the snapshot at the new ConfigMap |
| Anubis.LastPolicyWins | chromesweep/cluster.go:438-470 | any number of policies applied in a row leave exactly the template of the last one alone |
| Anubis.WireTouchesOnlyThePolicy | chromesweep/cluster.go:438-470 | every other env entry, mount, volume and container is untouched and in order |
| Anubis.WireSets | chromesweep/cluster.go:380-387 | what wiring sets, spelled out: POLICY_FNAME names botPolicies.yaml below the read-only mount /policy of the volume anubis-policy, which comes from the ConfigMap |
| Anubis.SourceMeaning | chromesweep/cluster.go:438-470 | the container takes its ruleset from a ConfigMap exactly when variable, mount and volume are set so |
| Anubis.WirePointsAtIt | chromesweep/cluster.go:457-465 | a wired template takes its ruleset from the given ConfigMap, reading the first entry of each name |
| Anubis.ImagedMeaning | chromesweep/cluster.go:35-47 | after an image change every container of that name runs the image and nothing else differs, in order; if there was none, exactly one is added behind the others |
| Anubis.WireKeepsImage | chromesweep/cluster.go:438-470 | a policy change leaves the image alone |
| Anubis.ImageKeepsSource | chromesweep/cluster.go:35-47 | changing the image never wires the container to a ConfigMap |
| Anubis.AppliedIsFresh | chromesweep/sweep.go:98-115 | if the pods were not already running the wired template with old contents, a complete rollout means the new ruleset is loaded |
| Anubis.ReadyMeansNewRuleset | chromesweep/sweep.go:95-115 | "ready" means "new ruleset in force" for all cluster behaviours if and only if the pods were not already running the wired template with another ruleset |
| Anubis.StaleRuleset | chromesweep/sweep.go:95-115 | from any Anubis, for any policy name and any two contents: a sweep applies and rolls out the first, its restore is lost, the next sweep applies the second; the wait reports ready, the ConfigMap holds the second, and the first is still in force |
| Anubis.TimelineDrifts | chromesweep/sweep.go:136-172 | through any number of restarts, rollouts and reports Anubis keeps its template, and pods that ran it and had read its ruleset still do |
| Cluster.Cluster.SetAnubisPolicy | chromesweep/cluster.go:444-470 | on success the template is the wired one and the container exists; otherwise it is unchanged or the wired one |
| Cluster.Cluster.SnapshotPodTemplate | chromesweep/cluster.go:412-420 | hands back the template as it stands in an object that shares nothing with any other; changes nothing |
| Cluster.Cluster.RestorePodTemplate | chromesweep/cluster.go:422-436 | on success the template is the snapshot; otherwise unchanged or the snapshot; one attempt is counted |
| Cluster.Cluster.SetImage | chromesweep/cluster.go:35-47 | on success the named container runs the image and nothing else has changed (or the container was added); otherwise the same, or nothing at all has changed |
| Cluster.Cluster.WaitReady | chromesweep/cluster.go:63-83 | on success the rollout is complete, so the pods run the template |
| Cluster.Cluster.CreateOrReplaceConfigMap | chromesweep/cluster.go:389-410 | on success the ConfigMap holds the ruleset; nothing else moves |
| Cluster.Cluster.WaitGone | chromesweep/cluster.go:305-317 | on success the pod is gone, nothing else moved and nothing was created |
| Cluster.Cluster.EnsureCollector | chromesweep/cluster.go:299-355 | does exactly what Collected says for the answers it got; on success a poll found the new pod Running, every poll before that was answered, and the name holds the new pod one identity past the stale one; nothing else moves |
| Cluster.CollectorIsLeftBehind | chromesweep/cluster.go:299-355 | a failed call leaves a new pod behind if and only if its create took effect: its reply was lost, or the polls did not find the pod Running |
| Cluster.PodThatNeverRuns | chromesweep/cluster.go:299-355 | one such case: an empty name, everything granted, a pod that does not come up |
| Cluster.Cluster.DeleteCollector | chromesweep/cluster.go:357-364 | marks the pod at most and reports success only when it did; one attempt is counted |
| Sweep.ApplyPolicy | chromesweep/sweep.go:95-115 | on success Anubis runs a template wired to the policy's ConfigMap and, unless it was wired to it before, has loaded exactly the policy's content; no other ConfigMap becomes wired |
| Sweep.PolicyErrorResults | chromesweep/sweep.go:117-134 | a block of skipped rows: one error for every browser and version, in order |
| Transcript.ErrorRow | chromesweep/sweep.go:147-154 | one error for every version of the browser, in order |
| Sweep.RunPool | chromesweep/sweep.go:156-168 | under any schedule, with Anubis pods turning over in between, the pool ends as its machine's invariant says from the cells it started with, its slots are full and returned, no ruleset moves; the recorded history has Anubis at every step, each state reached from the last by the cluster alone, and every status written was judged by what Anubis served at that step |
| Sweep.SweepBrowser | chromesweep/sweep.go:145-170 | one browser's row is read off the slots of a pool that started from the cells and the Anubis this call found, each result with its slot's status, frame and logs (RowIsAccounted), or is an error row and no pool ran |
| Sweep.SweepBrowsers | chromesweep/sweep.go:136-172 | the policy's block: one row for each browser in order, each pool starting where the previous one left off and with Anubis still pinned to the policy |
| Sweep.PrepareAnubis | chromesweep/sweep.go:174-220 | hands back the snapshot exactly when a restore is still owed, and then, if an image was asked for, the pods' named container runs the image returned and nothing else has changed; every failing path after a snapshot has restored once, and reports what became of it |
| Sweep.Restore | chromesweep/sweep.go:196-204 | one attempt; the template is what the snapshot object holds if it succeeded, and the pods run it too if the rollout was waited for |
| Sweep.RunPolicy | chromesweep/sweep.go:81-91 | one pass, applied or all skipped, whose rows are the returned block; the policies still to come stay unwired |
| Sweep.RunPolicies | chromesweep/sweep.go:80-92 | all passes: a transcript that accounts for every result and every pool between the cells before and after |
| Sweep.SweepPolicies | chromesweep/sweep.go:71-93 | the policies and then one removal of the collector: the whole matrix in order, accounted for and attributed |
| Sweep.Run | chromesweep/sweep.go:49-93 | an error-free run reports every (policy, browser, tag) once and in order and accounts for each in its transcript; for duplicate-free tags every result says what its own call was answered, and every pass or fail is its own Job's, judged while Anubis ran the image asked for, served its own policy's ConfigMap and, if policies are distinct and Anubis was wired to none of them before, that policy's content; the snapshot is restored exactly once on every path that took one, and if that rolled out Anubis is steady on the template it was found with |
| Sweep.NextRunIsClean | chromesweep/sweep.go:174-220 | an Anubis steady on a template wired to none of the next request's ConfigMaps gives that run the clean start every claim about content needs |
| Transcript.RowIsAccounted | chromesweep/sweep.go:145-170 | for every result of a row, no less and no more: its status says what its own worker was answered; with a verdict it shows the frame and logs its worker gathered, browser's log first, none of them empty, without one it shows nothing; a skipped row has only errors |
| Transcript.RowIsAttributed | chromesweep/sweep.go:145-170 | besides, every pass or fail was seen by its own call's worker on the one Job it created, in a status written to that Job at a step of this pool at which Anubis ran the image asked for, read its ruleset from the policy's own ConfigMap and, in a clean run, had loaded the policy's content |
| Transcript.EveryVerdictIsAttributed | chromesweep/sweep.go:80-92 | the same for every result under every policy of a run, given duplicate-free tags |
| Transcript.NeverAnEarlierJob | chromesweep/sweep.go:80-92 | the Job behind a verdict did not exist at any moment of any earlier pool, under an earlier policy or an earlier browser, although names repeat under every policy |
| Transcript.PassLabels | chromesweep/sweep.go:81-91 | one pass reports its whole block in order, and only errors if the policy could not be applied |
| Transcript.ChronicleLabels | chromesweep/sweep.go:49-93 | a complete transcript reports every (policy, browser, tag) of the matrix once and in order |
| Server.RunInv | cmd/gubald/svc/smoketest/smoketest.go:58-234 | the server's invariant in every interleaving of any number of requests |
| Server.OneSweepAtATime | cmd/gubald/svc/smoketest/smoketest.go:22-73 | never two active sweeps; unless a restore failed, whenever the semaphore is free the template is the initial one (Service shows that the real sweep takes only such steps) |
| Server.CommentProtocol | cmd/gubald/svc/smoketest/smoketest.go:165-234 | an accepted submit posted its ack and then exactly one closing comment: a result body if its sweep went well, a run-error body if not; a busy one exactly one note, others nothing; no closing comment of the wrong kind ever appears; blocks never interleave; each token is released exactly once; every busy answer was given at a step of the run at which the named other request held the token, by a grant not yet released |
| Server.BusyWasTrue | cmd/gubald/svc/smoketest/smoketest.go:63-71 | that step, for any busy answer in any run |
| Server.NothingWaits | cmd/gubald/svc/smoketest/smoketest.go:63-71 | no request is ever blocked by another: each unfinished one has a step of its own that brings it closer to its end |
| Server.SweepIsOneStep | cmd/gubald/svc/smoketest/smoketest.go:22-73 | however other requests move while one sweeps, the server ends as if they had all moved first and the sweep had then written its last template in one step |
| Service.Service.Others | cmd/gubald/svc/smoketest/smoketest.go:22-73 | whatever other requests do, this one stays where it stood; while it holds the token none of them touches the template or the namespace or loses a restore |
| Service.Service.SmokeTest | cmd/gubald/svc/smoketest/smoketest.go:58-74 | ends with its reply, posts nothing, and leaves a record of its results exactly when it completed well, with success exactly when every version passed, every result accounted for and its sweep after all the namespace had seen before; takes only steps of the server machine whatever other requests do, so with the semaphore free and no restore failed the cluster has its initial template |
| Service.Service.SubmitSmokeTest | cmd/gubald/svc/smoketest/smoketest.go:169-233 | rejects invalid and disallowed requests without a comment, a busy one with one note, and otherwise hands the token to the background sweep |
| Service.Service.Background | cmd/gubald/svc/smoketest/smoketest.go:198-231 | ends with the token released and exactly an ack and the closing comment: a result body, saying that the test passed exactly when every version did and otherwise that it found failures, if the sweep went well, a run-error body saying that it could not be run if not; leaves a record like SmokeTest; with the semaphore free and no restore failed the cluster has its initial template |
| Service.Service.Serve | cmd/gubald/svc/smoketest/smoketest.go:58-234 | any number of requests of either kind leave records that follow one another, each found by its sweep in a namespace no older than the last one left |
| Service.Service.ExecuteSweep | cmd/gubald/svc/smoketest/smoketest.go:76-105 | runs the real sweep on the real cluster; the template it leaves is what the server machine's steps say, lost exactly when a restore was owed and failed; success leaves a record: the requested matrix reported in order, every result accounted for, every verdict attributed to its own call's Job and its own policy |
| History.NewerThanItsRequest | chromesweep/sweep.go:222-225 | the Job behind a verdict did not exist at any moment up to the start of its request's sweep |
| History.NeverAnEarlierRequest | cmd/gubald/svc/smoketest/smoketest.go:58-105 | the Job behind a verdict did not exist at any moment of any earlier request's sweep |
| History.OneJobOneResult | cmd/gubald/svc/smoketest/smoketest.go:58-105 | over any number of requests no Job decides two results, although Job names repeat under every policy and in every request |
| Requests.BrowsersFor | cmd/gubald/svc/smoketest/smoketest.go:236-263 | an error exactly on a repeated version or no version at all; otherwise the presets with one tag per version |
| Requests.ExecuteSweep | cmd/gubald/svc/smoketest/smoketest.go:76-105 | end to end for a validated request: run under the image it names; the requested matrix in order, accounted for by the run's transcript, every result attributed, rendered in that order, no frame overwritten and no bundle entry repeated; a repeated version is refused before anything moves |
| Requests.JobsReachTheirOwnBrowser | chromesweep/sweep.go:261-262 | no argument of a requested version's Job reaches the unversioned browser, and every localhost:9222 is kept |
| Requests.RequestedImages | chromesweep/config.go:28-58 | which image each requested version runs and what its objects are called, by literal name |
| Requests.RequestedBrowsersArePlain | chromesweep/config.go:28-58 | a validated request meets the naming assumptions of the engine |
| Requests.RequestedPoliciesArePlain | pb/techaro/lol/gubal/v1/gubal.proto:26-35 | validated policy names are distinct, non-empty and slash-free |
| Requests.ReportIsSound | cmd/gubald/svc/smoketest/smoketest.go:141-163 | a run's results are shown in the order they were produced and their files never clash |
| Truncation.CapTo | cmd/gubald/svc/smoketest/comments.go:14-27 | the backward scan computes Capped |
| Truncation.CutPoints | cmd/gubald/svc/smoketest/comments.go:23-25 | in well-formed UTF-8 (RFC 3629, section 4) a prefix is well-formed exactly when it ends before a start byte |
| Truncation.CappedIsLongest | cmd/gubald/svc/smoketest/comments.go:14-27 | well-formed input: the identity if it fits, else the longest prefix on a character boundary that leaves room for the note, then the note; at most three extra bytes are dropped |
| Truncation.CappedBound | cmd/gubald/svc/smoketest/comments.go:14-27 | within the limit if and only if the input fits or the note does |
| Truncation.TinyLimitIsExceeded | cmd/gubald/svc/smoketest/comments.go:14-27 | a failing input: two bytes capped to one |
| Truncation.BodyResultBound | cmd/gubald/svc/smoketest/comments.go:49-60 | header and link are always kept whole with the capped report between them; the whole report if all fits; the body is within 65536 bytes if and only if header, link and the whole report fit, or header, link and note do |
| Truncation.LongLinkIsTooMuch | cmd/gubald/svc/smoketest/comments.go:49-60 | a failing input: a link as long as the limit |
| Truncation.BodyResultIsText | cmd/gubald/svc/smoketest/comments.go:49-60 | a result comment made of well-formed text is well-formed text, wherever the report was cut |
| Truncation.ResultSays | cmd/gubald/svc/smoketest/comments.go:47-60 | a result comment begins with the words for passed exactly when it passed, otherwise with those for failures, and cannot be read as the other or as a run error |
| Truncation.RunErrorSays | cmd/gubald/svc/smoketest/comments.go:62-65 | an error comment begins with the words for a failed run, however much of the error is cut |
| Truncation.BodyRunErrorBound | cmd/gubald/svc/smoketest/comments.go:62-65 | an error comment is always within the limit |
| Grouping.PolicyStats | chromesweep/report.go:76-93 | the index-backed loop yields one entry per policy in first-seen order, counting that policy's group |
| Grouping.StatsMeaning | chromesweep/report.go:76-93 | the tally read off the list: one entry for each policy that occurs, in the order they first occur, with the number of places where its results and its passes stand |
| Grouping.GroupBy | chromesweep/report.go:112-119 | the map-and-order loop yields the keys in first-seen order and each key's results in order |
| Grouping.RenderBrowserGroups | chromesweep/report.go:132-164 | shows the results browser group after browser group |
| Grouping.RenderMarkdown | chromesweep/report.go:112-127 | shows the results policy section after policy section, each in browser groups |
| Grouping.AllPassed | chromesweep/report.go:50-59 | true exactly when every result passed |
| Grouping.GroupedIsStable | chromesweep/report.go:112-147 | grouping loses nothing, adds nothing, and keeps the order inside each group |
| Grouping.RowsAreAPermutation | chromesweep/report.go:98-164 | the report shows every result exactly once |
| Grouping.TallyAgreesWithGroups | chromesweep/report.go:76-164 | tally and groups have the same policies, order and sizes; totals sum to all results, passes to the passes of the browser sections |
| Grouping.AllPassedIsEveryStat | chromesweep/report.go:50-93 | everything passed exactly when every policy's own status is pass |
| Rendering.RunOutputIsRenderedInOrder | chromesweep/report.go:95-164 | for distinct policies and browsers the two-level grouping of a run's output is the identity |
| Rehost.ReplaceCounts | chromesweep/retarget.go:72-82 | replacing turns each occurrence into exactly one and neither makes nor breaks an occurrence of a pattern that cannot overlap |
| Rehost.RehostedArg | chromesweep/retarget.go:70-82 | for plain hosts and decimal tags: no base:9222 is left, each became one versioned host, localhost:9222 is kept, and doing it again changes nothing |
| Rehost.NoHostIsLeft | chromesweep/retarget.go:70-82 | for a base host of one word and every tag: no base:9222 is left in any argument if and only if tag:9222 does not hold one |
| Rehost.LocalhostSurvives | chromesweep/retarget.go:70-82 | for every tag and every base host without a colon: the rewrite passes over every localhost:9222, whatever stands before and behind it, if and only if neither the base host nor the word localhost ends in the other and the host does not begin with 2 or 9222 |
| Rehost.PresetsSpareLocalhost | chromesweep/config.go:28-58 | the presets pass over it for every tag |
| Rehost.HostLosesLocalhost | chromesweep/retarget.go:70-82 | failing inputs, for every tag: base hosts "host" and "xlocalhost" |
| Retarget.JobObject.Retarget | chromesweep/retarget.go:72-82 | the in-place loops compute the retargeted Job |
| Retarget.DeploymentObject.Retarget | chromesweep/retarget.go:23-45 | the in-place updates compute the retargeted Deployment |
| Retarget.ServiceObject.Retarget | chromesweep/retarget.go:48-58 | the in-place updates compute the retargeted Service |
| Retarget.NetworkPolicyObject.Retarget | chromesweep/retarget.go:62-68 | the in-place updates compute the retargeted NetworkPolicy |
| Retarget.VersionedJob | chromesweep/sweep.go:261-262 | retargeting works on a deep copy: the shared base Job, argument slices included, does not change |
| Retarget.VersionedDeployment | chromesweep/sweep.go:238-239 | retargeting works on a deep copy: neither the shared base Deployment nor any of its label maps or containers changes |
| Retarget.VersionedService | chromesweep/sweep.go:244-246 | the same for the Service and its label and selector maps |
| Retarget.VersionedNetworkPolicy | chromesweep/sweep.go:249-251 | the same for the NetworkPolicy and its selector map |
| Retarget.SharedMapLeaks | chromesweep/retarget.go:48-58 | what the copies are for: retargeting an object that shares the base's label map changes the base's labels |
| Retarget.SelectionSurvives | chromesweep/retarget.go:23-68 | whatever extra labels the base carries, version a's Deployment, Service and NetworkPolicy select version b's pods exactly when a and b are the same name |
| Policies.LoadPoliciesFromDir | chromesweep/policies.go:35-63 | an error exactly when the listing is rejected; otherwise its policies in strict name order |
| Policies.FoundMeaning | chromesweep/policies.go:40-56 | the policies of a listing are exactly its readable files called name.yaml with a valid name, each with its content |
| Policies.BadMeaning | chromesweep/policies.go:40-52 | a listing's file is rejected exactly when it has the suffix and is misnamed or unreadable |
| Policies.LoadPolicyDir | cmd/gubalctl/policies.go:27-51 | an error exactly when the listing is rejected; otherwise a map holding its policies |
| Policies.PoliciesFromMap | chromesweep/policies.go:80-98 | in whatever order the map yields its names: its policies in strict name order |
| Policies.BothRoutes | chromesweep/policies.go:28-98 | the two loaders agree on every listing of distinct files: both fail or both return the same list |
| Policies.SortsIsUnique | chromesweep/policies.go:61-61 | strict name order leaves no choice, so no sort can make the routes differ |
| Policies.LessMeaning | chromesweep/policies.go:61-61 | name order: the first difference decides, and a text comes before its continuations |
| Policies.ValidNameIsRegex | chromesweep/policies.go:12-18 | the character rule is the regular expression, with the length bound |
| Policies.NamesFitConfigMaps | chromesweep/policies.go:12-18 | a name is within the bound exactly when its ConfigMap's name is within 63 characters |
| Naming.FramesCollide | chromesweep/sweep.go:318-326 | for any browsers and tags: two calls can overwrite each other's frames under some two valid policies if and only if browser-tag reads the same for both, or for one it reads as the end of a valid policy name, a dash and what it reads for the other; without policies if and only if it reads the same |
| Naming.DashFreeTagsCollide | chromesweep/sweep.go:318-326 | for tags without dashes that takes equal tags and a browser that ends in a dash and the other's name |
| Naming.DashedTagCollides | cmd/chrome-sweep/main.go:38-78 | a failing input of the command line: chrome with versions 120 and 1-chrome-120, policies a and a-chrome-1 |
| Naming.DashedBrowserCollides | chromesweep/sweep.go:318-326 | another, with a browser that is no preset: policy a with browser b-chrome and policy a-b with browser chrome |
| Naming.FrameNameInjective | chromesweep/sweep.go:318-326 | for dash-free browsers and tags the frame name determines policy, browser and tag, under any policies |
| Naming.WriteBundle | chromesweep/bundle.go:14-52 | fails exactly when some frame cannot be read or a write or the close fails; otherwise holds the two reports, then each result's frame and its non-empty logs, in order |
| Naming.BundleMeaning | chromesweep/bundle.go:14-88 | the bundle entry by entry: report.json and report.md first, then each result's frame as read from disk and its non-empty logs, under names spelled out; nothing else |
| Naming.Archive.AddResult | chromesweep/bundle.go:32-50 | adds a result's frame and its non-empty logs; fails only on an unreadable frame or a failed write |
| Naming.BundleNamesDiffer | chromesweep/bundle.go:67-88 | for tags of any text: no two entries of a bundle share a name if results have distinct labels, one-word browsers and containers that dashes in tags cannot blur |
| Naming.RunFilesNeverClash | chromesweep/bundle.go:14-88 | for a run's own results and tags of any text: no bundle entry repeats a name; no frame overwrites another if there are no policies or no browser-tag ends in a dash and another, as when tags have no dashes |
| Frames.FrameRoundTrip | chromesweep/sweep.go:328-337 | for any version, directory and dash- and slash-free timestamp the sweep reads back exactly the sanitized version |
| Frames.Sanitize | cmd/chrome-bully/main.go:270-282 | same length, only safe characters, safe ones unchanged |
| Parse.ParseVersions | chromesweep/parse.go:10-30 | an error exactly when nothing usable remains or a tag repeats; otherwise the trimmed, non-empty tags in order |
| Parse.TagsMeaning | chromesweep/parse.go:12-26 | each tag stands for one argument, in order, and every argument left out is blank |
| Parse.TrimMeaning | chromesweep/parse.go:16-16 | only spaces are taken away, and only at the ends |
| Parse.ParseInts | cmd/gubald/svc/smoketest/smoketest.go:265-273 | an error exactly on an empty list or a repeated number; otherwise one distinct tag per number |
| Parse.ItoaValue | cmd/gubald/svc/smoketest/smoketest.go:267-271 | a tag read as a decimal number is the number it was made from, without leading zeros |
| Parse.ItoaInjective | cmd/gubald/svc/smoketest/smoketest.go:267-271 | different numbers give different tags |
| LogLines.CapturedFramePath | chromesweep/parse.go:46-71 | returns the first decision of the scanned lines |
| LogLines.FirstDecisionMeaning | chromesweep/parse.go:46-71 | the answer is that of the one line that settles it, and there is none exactly when no line does |
| LogLines.AnswerMeaning | chromesweep/parse.go:46-71 | spelled out: the answer is a captured path (or a fatal error) exactly when some line within the scanner's limit says so and every line before it is within the limit and says neither |
| LogLines.RawLinesMeaning | chromesweep/parse.go:54-56 | the lines, each with a newline behind it, are the text with its last line ended |
| LogLines.NoiseChangesNothing | chromesweep/parse.go:46-71 | inserting any non-decisive lines within the scanner's limit, anywhere, never changes the answer |
| LogLines.LastLinesMeaning | chromesweep/report.go:184-193 | the excerpt is the end of the trimmed text: all of it, or exactly its last n lines |
| LogLines.ExcerptKeepsItsPromise | chromesweep/report.go:184-193 | the excerpt is what its comment says exactly on texts that do not end in two newlines |
| LogLines.TwoNewlinesDiffer | chromesweep/report.go:184-193 | a failing input: one line and two newlines |

## Left out

- Durations: a wait is a budget of polls that may also be cut short; the intervals and timeouts themselves are not modelled.
- The four create-or-replace methods (`chromesweep/cluster.go:102-191`) are one generic method and one generic step over the resource kind; they differ only in the API they call.
- Per-call state shared by concurrent calls: `VersionWorker` runs one call with the cluster moving in between; other calls are covered by `Fleet.WorkerIsAlone`, not by a second object on the same heap.
- Goroutines and channels are steps of a machine in `Pool` and `Server`, not Dafny threads; `Sweep.RunPool` runs the pool machine under an arbitrary scheduler.
- Manifests hold the fields that retargeting and readiness look at; the rest of a Kubernetes object, YAML decoding and the strategic-merge patch engine are not part of this model. The patch is modelled for the one field it sets.
- Service.Service.ExecuteSweep: the code form takes the run in one go, with other requests before and after it; that their moves during it make no difference is `Server.SweepIsOneStep`, and that they touch nothing the run reads is `Service.Service.Others`.
- Error texts and the `Detail`, `ReportedUA` and `BrowserVersion` fields of a result; `reportedUA` keeps the last matching line.
- Fetching logs, `kubectl cp`, the upload, GitHub, HTTP and Twirp: their outcomes are arbitrary values or booleans.
- The JSON decoder of a log line is a parameter; the policy-name pattern is a predicate on characters; lengths count model characters, which for valid names and raw log bytes are bytes.
- The allowlist and protovalidate appear as booleans in `Server` and as `Validated` in `Requests`.
- `filepath.Join` is modelled for directories that are already clean.
- The exact Markdown, JSON and zip encodings.
- `cmd/chrome-bully` beyond the frame name and `sanitize`, the command-line front ends, the S3 signer, generated code and deployment files.
