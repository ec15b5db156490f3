/**
 * The smoke-test server: SmokeTest and SubmitSmokeTest share a one-slot semaphore that is only ever
 * tried, never waited for; an accepted submit sweeps in the background and comments on its pull request.
 * Every interleaving of any number of requests is a run of this machine.
 */
module Server {
  import opened Manifests
  import opened Anubis

  datatype Request = Smoke(valid: bool) | Submit(valid: bool, allowed: bool)

  datatype Reply = Invalid | Denied | Exhausted(holder: nat, turn: nat) | Completed(ok: bool)

  datatype Phase =
    | Arrived
    | Turned(holder: nat, turn: nat)   // busy; the note is still to be posted
    | Admitted                   // holds the token; the ack is still to be posted
    | Preparing                  // in executeSweep, before Run
    | Sweeping(before: Template) // in Run
    | Swept(ok: bool)            // the closing comment is still to be posted
    | Leaving(ok: bool)          // the deferred release is still to run
    | Over(reply: Reply)

  datatype Kind = BusyNote | Ack | ResultBody | RunErrorBody

  datatype Comment = Comment(id: nat, kind: Kind)

  /** `used`: occupancy of the semaphore channel. `holder`, `lost`, `grants` and `releases` are history. */
  datatype Server = Server(reqs: seq<Request>, phases: seq<Phase>, used: nat, holder: Option<nat>, template: Template,
                           lost: bool, log: seq<Comment>, grants: seq<nat>, releases: seq<nat>)

  function Idle(template: Template): Server {
    Server([], [], 0, None, template, false, [], [], [])
  }

  datatype Act =
    | Arrive(r: Request)
    | Enter(i: nat)
    | PostBusy(i: nat)
    | PostAck(i: nat)
    | Begin(i: nat, ok: bool)
    | Write(i: nat, t: Template)
    | Finish(i: nat, taken: bool, reverted: bool, ok: bool)
    | PostClosing(i: nat)
    | Release(i: nat)

  function Goto(s: Server, i: nat, p: Phase): Server
    requires i < |s.phases|
  {
    s.(phases := s.phases[i := p])
  }

  function Post(s: Server, i: nat, k: Kind): Server {
    s.(log := s.log + [Comment(i, k)])
  }

  /** Validation, the allowlist, then one attempt at the semaphore. */
  function Entered(s: Server, i: nat): Server
    requires i < |s.phases| == |s.reqs| && (s.used >= 1 ==> s.holder.Some?)
  {
    var r := s.reqs[i];
    if !r.valid then Goto(s, i, Over(Invalid))
    else if r.Submit? && !r.allowed then Goto(s, i, Over(Denied))
    else if s.used < 1 then
      Goto(s, i, if r.Submit? then Admitted else Preparing)
        .(used := s.used + 1, holder := Some(i), grants := s.grants + [i])
    else Goto(s, i, if r.Submit? then Turned(s.holder.value, |s.releases|) else Over(Exhausted(s.holder.value, |s.releases|)))
  }

  function Closing(ok: bool): Kind {
    if ok then ResultBody else RunErrorBody
  }

  predicate Enabled(s: Server, a: Act) {
    && |s.phases| == |s.reqs| && (s.used >= 1 ==> s.holder.Some?)
    && (a.Arrive? ||
        (a.i < |s.phases| &&
         match a
         case Enter(i) => s.phases[i] == Arrived
         case PostBusy(i) => s.phases[i].Turned?
         case PostAck(i) => s.phases[i] == Admitted
         case Begin(i, _) => s.phases[i] == Preparing
         case Write(i, _) => s.phases[i].Sweeping?
         case Finish(i, taken, reverted, ok) =>
           s.phases[i].Sweeping? && (!taken || reverted ==> s.template == s.phases[i].before) && (ok ==> taken)
         case PostClosing(i) => s.phases[i].Swept?
         case Release(i) => s.phases[i].Leaving? && s.used >= 1))
  }

  /** After executeSweep: a submit has its closing comment to post, a synchronous call just returns. */
  function AfterSweep(r: Request, ok: bool): Phase {
    if r.Submit? then Swept(ok) else Leaving(ok)
  }

  function Apply(s: Server, a: Act): Server
    requires Enabled(s, a)
  {
    match a
    case Arrive(r) => s.(reqs := s.reqs + [r], phases := s.phases + [Arrived])
    case Enter(i) => Entered(s, i)
    case PostBusy(i) => Post(Goto(s, i, Over(Exhausted(s.phases[i].holder, s.phases[i].turn))), i, BusyNote)
    case PostAck(i) => Post(Goto(s, i, Preparing), i, Ack)
    case Begin(i, ok) => Goto(s, i, if ok then Sweeping(s.template) else AfterSweep(s.reqs[i], false))
    case Write(i, t) => s.(template := t)
    case Finish(i, taken, reverted, ok) =>
      Goto(s, i, AfterSweep(s.reqs[i], ok)).(lost := s.lost || (taken && !reverted))
    case PostClosing(i) => Post(Goto(s, i, Leaving(s.phases[i].ok)), i, Closing(s.phases[i].ok))
    case Release(i) => Goto(s, i, Over(Completed(s.phases[i].ok))).(used := s.used - 1, holder := None, releases := s.releases + [i])
  }

  function Next(s: Server, a: Act): Server {
    if Enabled(s, a) then Apply(s, a) else s
  }

  function Run(s: Server, acts: seq<Act>): Server {
    if acts == [] then s else Next(Run(s, acts[..|acts| - 1]), acts[|acts| - 1])
  }

  // ---- One sweep at a time ----

  predicate Holding(p: Phase) {
    p.Admitted? || p.Preparing? || p.Sweeping? || p.Swept? || p.Leaving?
  }

  predicate TokenInv(s: Server) {
    && |s.phases| == |s.reqs| && s.used <= 1
    && (s.used == 1 <==> s.holder.Some?)
    && (forall i :: 0 <= i < |s.phases| ==> (Holding(s.phases[i]) <==> s.holder == Some(i)))
    && (s.holder.Some? ==> s.holder.value < |s.phases|)
  }

  /** Holds the token, or held it and is done. */
  predicate WasGranted(p: Phase) {
    Holding(p) || (p.Over? && p.reply.Completed?)
  }

  /** Grants and releases alternate: each token is given back exactly once, before the next is given out. */
  predicate LedgerInv(s: Server) {
    && s.grants == s.releases + (if s.holder.Some? then [s.holder.value] else [])
    && (forall j, k :: 0 <= j < k < |s.grants| ==> s.grants[j] != s.grants[k])
    && (forall g :: g in s.grants ==> 0 <= g < |s.phases| && WasGranted(s.phases[g]))
    && (forall i :: 0 <= i < |s.phases| && WasGranted(s.phases[i]) ==> i in s.grants)
  }

  /** A busy answer names the sweep that held the token when it was given, and that was another request. */
  predicate BusyInv(s: Server) {
    forall i :: 0 <= i < |s.phases| ==> BusyAt(s.phases[i], i, s.grants)
  }

  /** The request that held the token when this one was turned away, and which grant it held it by. */
  function Refused(p: Phase): Option<(nat, nat)> {
    match p
    case Turned(h, turn) => Some((h, turn))
    case Over(Exhausted(h, turn)) => Some((h, turn))
    case _ => None
  }

  predicate BusyAt(p: Phase, i: nat, grants: seq<nat>) {
    Refused(p).Some? ==>
      var (h, turn) := Refused(p).value;
      h != i && turn < |grants| && grants[turn] == h
  }

  predicate TemplateInv(s: Server, initial: Template) {
    !s.lost ==>
      && ((forall i :: 0 <= i < |s.phases| ==> !s.phases[i].Sweeping?) ==> s.template == initial)
      && (forall i :: 0 <= i < |s.phases| && s.phases[i].Sweeping? ==> s.phases[i].before == initial)
  }

  lemma TokenStep(s: Server, a: Act)
    requires TokenInv(s) && Enabled(s, a)
    ensures TokenInv(Apply(s, a))
  {
  }

  lemma LedgerGrant(s: Server, t: Server, i: nat)
    requires LedgerInv(s) && s.holder.None? && i < |s.phases| && !WasGranted(s.phases[i])
    requires t.grants == s.grants + [i] && t.releases == s.releases && t.holder == Some(i)
    requires |t.phases| == |s.phases| && WasGranted(t.phases[i])
    requires forall k :: 0 <= k < |s.phases| && k != i ==> t.phases[k] == s.phases[k]
    ensures LedgerInv(t)
  {
    assert i !in s.grants;
    assert t.grants[|s.grants|] == i;
    forall k | 0 <= k < |t.phases| && WasGranted(t.phases[k]) ensures k in t.grants {
      assert k != i ==> k in s.grants;
    }
  }

  lemma LedgerKeep(s: Server, t: Server)
    requires LedgerInv(s) && t.grants == s.grants && |s.phases| <= |t.phases|
    requires t.grants == t.releases + (if t.holder.Some? then [t.holder.value] else [])
    requires forall k :: 0 <= k < |s.phases| ==> (WasGranted(t.phases[k]) <==> WasGranted(s.phases[k]))
    requires forall k :: |s.phases| <= k < |t.phases| ==> !WasGranted(t.phases[k])
    ensures LedgerInv(t)
  {
  }

  lemma LedgerEnter(s: Server, i: nat)
    requires TokenInv(s) && LedgerInv(s) && Enabled(s, Enter(i))
    ensures LedgerInv(Entered(s, i))
  {
    var t := Entered(s, i);
    if t.grants != s.grants {
      LedgerGrant(s, t, i);
    } else {
      LedgerKeep(s, t);
    }
  }

  lemma LedgerStep(s: Server, a: Act)
    requires TokenInv(s) && LedgerInv(s) && Enabled(s, a)
    ensures LedgerInv(Apply(s, a))
  {
    if a.Enter? {
      LedgerEnter(s, a.i);
    } else {
      LedgerKeep(s, Apply(s, a));
    }
  }

  lemma HolderIsGranted(s: Server, a: Act)
    requires TokenInv(s) && LedgerInv(s) && Enabled(s, a)
    ensures s.holder.Some? ==> |s.releases| < |s.grants| && s.grants[|s.releases|] == s.holder.value
    ensures s.holder.Some? && a.Enter? ==> s.holder.value != a.i
  {
    if s.holder.Some? { assert Holding(s.phases[s.holder.value]); }
  }

  lemma BusyOne(s: Server, a: Act, i: nat)
    requires Enabled(s, a) && i < |Apply(s, a).phases|
    requires s.holder.Some? ==> |s.releases| < |s.grants| && s.grants[|s.releases|] == s.holder.value
    requires s.holder.Some? && a.Enter? ==> s.holder.value != a.i
    requires i < |s.phases| ==> BusyAt(s.phases[i], i, s.grants)
    ensures BusyAt(Apply(s, a).phases[i], i, Apply(s, a).grants)
  {
  }

  lemma BusyStep(s: Server, a: Act)
    requires TokenInv(s) && LedgerInv(s) && BusyInv(s) && Enabled(s, a)
    ensures BusyInv(Apply(s, a))
  {
    var t := Apply(s, a);
    HolderIsGranted(s, a);
    forall i | 0 <= i < |t.phases| ensures BusyAt(t.phases[i], i, t.grants) {
      BusyOne(s, a, i);
    }
  }

  lemma TemplateStep(s: Server, initial: Template, a: Act)
    requires TokenInv(s) && TemplateInv(s, initial) && Enabled(s, a)
    ensures TokenInv(Apply(s, a)) && TemplateInv(Apply(s, a), initial)
  {
    TokenStep(s, a);
  }

  // ---- Comments ----

  function LogOf(log: seq<Comment>, i: nat): seq<Kind> {
    if log == [] then []
    else LogOf(log[..|log| - 1], i) + if log[|log| - 1].id == i then [log[|log| - 1].kind] else []
  }

  /** What a request has put on its pull request by the time it reaches a phase. */
  function Expected(r: Request, p: Phase): seq<Kind> {
    if r.Smoke? then []
    else
      match p
      case Preparing => [Ack]
      case Sweeping(_) => [Ack]
      case Swept(_) => [Ack]
      case Leaving(ok) => [Ack, Closing(ok)]
      case Over(Completed(ok)) => [Ack, Closing(ok)]
      case Over(Exhausted(_, _)) => [BusyNote]
      case _ => []
  }

  /** Requests that fail validation or the allowlist never get further; only submits acknowledge and close. */
  predicate Lawful(r: Request, p: Phase) {
    && (!r.valid ==> p == Arrived || p == Over(Invalid))
    && (r.valid && r.Submit? && !r.allowed ==> p == Arrived || p == Over(Denied))
    && (r.Smoke? ==> !p.Turned? && !p.Admitted? && !p.Swept?)
  }

  predicate CommentInv(s: Server) {
    && |s.phases| == |s.reqs|
    && (forall i :: 0 <= i < |s.log| ==> s.log[i].id < |s.phases|)
    && (forall i :: 0 <= i < |s.phases| ==>
          Lawful(s.reqs[i], s.phases[i]) && LogOf(s.log, i) == Expected(s.reqs[i], s.phases[i]))
  }

  lemma LogSnoc(log: seq<Comment>, c: Comment, i: nat)
    ensures LogOf(log + [c], i) == LogOf(log, i) + if c.id == i then [c.kind] else []
  {
    assert (log + [c])[..|log|] == log;
  }

  lemma {:induction false} LogEmpty(log: seq<Comment>, n: nat)
    requires forall i :: 0 <= i < |log| ==> log[i].id < n
    ensures LogOf(log, n) == []
  {
    if log != [] { LogEmpty(log[..|log| - 1], n); }
  }

  /** The comment a move posts, if any. */
  function Posted(s: Server, a: Act): Option<Comment>
    requires Enabled(s, a)
  {
    match a
    case PostBusy(i) => Some(Comment(i, BusyNote))
    case PostAck(i) => Some(Comment(i, Ack))
    case PostClosing(i) => Some(Comment(i, Closing(s.phases[i].ok)))
    case _ => None
  }

  lemma LogStep(s: Server, a: Act)
    requires Enabled(s, a)
    ensures Apply(s, a).log == s.log + (if Posted(s, a).Some? then [Posted(s, a).value] else [])
  {
  }

  /** How a move changes what a request is expected to have posted. */
  predicate Advances(r: Request, p: Phase, c: Option<Comment>, i: nat, q: Phase) {
    Lawful(r, q) && Expected(r, q) == Expected(r, p) + if c.Some? && c.value.id == i then [c.value.kind] else []
  }

  lemma OwnPhase(s: Server, a: Act)
    requires Enabled(s, a) && !a.Arrive? && Lawful(s.reqs[a.i], s.phases[a.i])
    ensures Advances(s.reqs[a.i], s.phases[a.i], Posted(s, a), a.i, Apply(s, a).phases[a.i])
  {
  }

  lemma OtherPhase(s: Server, a: Act, i: nat)
    requires Enabled(s, a) && i < |s.phases| && (a.Arrive? || a.i != i)
    ensures Apply(s, a).phases[i] == s.phases[i] && !(Posted(s, a).Some? && Posted(s, a).value.id == i)
  {
  }

  lemma PhaseStep(s: Server, a: Act, i: nat)
    requires Enabled(s, a) && i < |s.phases| && Lawful(s.reqs[i], s.phases[i])
    ensures Apply(s, a).reqs[i] == s.reqs[i]
    ensures Advances(s.reqs[i], s.phases[i], Posted(s, a), i, Apply(s, a).phases[i])
  {
    if a.Arrive? || a.i != i { OtherPhase(s, a, i); } else { OwnPhase(s, a); }
  }

  lemma CommentOne(s: Server, a: Act, i: nat)
    requires CommentInv(s) && Enabled(s, a) && i < |s.phases|
    ensures LogOf(Apply(s, a).log, i) == Expected(Apply(s, a).reqs[i], Apply(s, a).phases[i])
    ensures Lawful(Apply(s, a).reqs[i], Apply(s, a).phases[i])
  {
    LogStep(s, a);
    PhaseStep(s, a, i);
    if Posted(s, a).Some? { LogSnoc(s.log, Posted(s, a).value, i); }
  }

  lemma CommentArrive(s: Server, r: Request)
    requires CommentInv(s)
    ensures CommentInv(s.(reqs := s.reqs + [r], phases := s.phases + [Arrived]))
  {
    LogEmpty(s.log, |s.phases|);
  }

  lemma StepShape(s: Server, a: Act)
    requires Enabled(s, a) && !a.Arrive?
    ensures Apply(s, a).reqs == s.reqs && |Apply(s, a).phases| == |s.phases|
    ensures Posted(s, a).Some? ==> Posted(s, a).value.id < |s.phases|
  {
  }

  lemma CommentAssembled(s: Server, t: Server, c: Option<Comment>)
    requires CommentInv(s) && |t.phases| == |t.reqs| == |s.phases|
    requires t.log == s.log + (if c.Some? then [c.value] else []) && (c.Some? ==> c.value.id < |s.phases|)
    requires forall i :: 0 <= i < |t.phases| ==>
      Lawful(t.reqs[i], t.phases[i]) && LogOf(t.log, i) == Expected(t.reqs[i], t.phases[i])
    ensures CommentInv(t)
  {
  }

  lemma CommentStep(s: Server, a: Act)
    requires CommentInv(s) && Enabled(s, a)
    ensures CommentInv(Apply(s, a))
  {
    if a.Arrive? {
      CommentArrive(s, a.r);
    } else {
      var t := Apply(s, a);
      StepShape(s, a);
      LogStep(s, a);
      forall i | 0 <= i < |t.phases|
        ensures Lawful(t.reqs[i], t.phases[i]) && LogOf(t.log, i) == Expected(t.reqs[i], t.phases[i])
      {
        CommentOne(s, a, i);
      }
      CommentAssembled(s, t, Posted(s, a));
    }
  }

  /** The log without busy notes. */
  function Sessions(log: seq<Comment>): seq<Comment> {
    if log == [] then []
    else Sessions(log[..|log| - 1]) + if log[|log| - 1].kind != BusyNote then [log[|log| - 1]] else []
  }

  /** Blocks of an ack and the closing comment of the same request, the last one possibly still open. */
  predicate Paired(cs: seq<Comment>) {
    forall k :: 0 <= k < |cs| ==> PairAt(cs, k)
  }

  predicate PairAt(cs: seq<Comment>, k: nat)
    requires k < |cs|
  {
    if k % 2 == 0 then cs[k].kind == Ack
    else (cs[k].kind == ResultBody || cs[k].kind == RunErrorBody) && cs[k].id == cs[k - 1].id
  }

  /** The submit whose ack is posted and whose closing comment is not. */
  function Open(s: Server): Option<nat> {
    if s.holder.Some? && s.holder.value < |s.phases| && s.holder.value < |s.reqs| && s.reqs[s.holder.value].Submit?
       && (s.phases[s.holder.value].Preparing? || s.phases[s.holder.value].Sweeping? || s.phases[s.holder.value].Swept?)
    then s.holder else None
  }

  predicate SessionInv(s: Server) {
    var cs := Sessions(s.log);
    && Paired(cs)
    && (Open(s).Some? <==> |cs| % 2 == 1)
    && (Open(s).Some? ==> cs[|cs| - 1].id == Open(s).value)
  }

  lemma SessionsSnoc(log: seq<Comment>, c: Comment)
    ensures Sessions(log + [c]) == if c.kind != BusyNote then Sessions(log) + [c] else Sessions(log)
  {
    assert (log + [c])[..|log|] == log;
    assert Sessions(log) + [] == Sessions(log);
  }

  /** A comment opens a block, closes the open one, or is a busy note and does neither. */
  predicate Turns(before: Option<nat>, c: Option<Comment>, after: Option<nat>) {
    if c.None? || c.value.kind == BusyNote then after == before
    else if c.value.kind == Ack then before.None? && after == Some(c.value.id)
    else before == Some(c.value.id) && after.None?
  }

  lemma OpenStep(s: Server, a: Act)
    requires TokenInv(s) && CommentInv(s) && Enabled(s, a)
    ensures Turns(Open(s), Posted(s, a), Open(Apply(s, a)))
  {
    if !a.Arrive? { assert Lawful(s.reqs[a.i], s.phases[a.i]); }
  }

  lemma PairedSnoc(cs: seq<Comment>, c: Comment)
    requires Paired(cs) && c.kind != BusyNote
    requires if c.kind == Ack then |cs| % 2 == 0 else |cs| % 2 == 1 && c.id == cs[|cs| - 1].id
    ensures Paired(cs + [c])
  {
    forall k | 0 <= k < |cs + [c]|
      ensures PairAt(cs + [c], k)
    {
      assert k < |cs| ==> PairAt(cs, k);
    }
  }

  lemma SessionAssembled(s: Server, t: Server, c: Option<Comment>)
    requires SessionInv(s) && Turns(Open(s), c, Open(t)) && t.log == s.log + (if c.Some? then [c.value] else [])
    ensures SessionInv(t)
  {
    if c.Some? {
      SessionsSnoc(s.log, c.value);
      if c.value.kind != BusyNote { PairedSnoc(Sessions(s.log), c.value); }
    } else {
      assert t.log == s.log;
    }
  }

  lemma SessionStep(s: Server, a: Act)
    requires TokenInv(s) && CommentInv(s) && SessionInv(s) && Enabled(s, a)
    ensures SessionInv(Apply(s, a))
  {
    OpenStep(s, a);
    LogStep(s, a);
    SessionAssembled(s, Apply(s, a), Posted(s, a));
  }

  // ---- Every run ----

  predicate ServerInv(s: Server, initial: Template) {
    TokenInv(s) && LedgerInv(s) && BusyInv(s) && TemplateInv(s, initial) && CommentInv(s) && SessionInv(s)
  }

  lemma {:induction false} RunInv(initial: Template, acts: seq<Act>)
    ensures ServerInv(Run(Idle(initial), acts), initial)
  {
    if acts != [] {
      var s, a := Run(Idle(initial), acts[..|acts| - 1]), acts[|acts| - 1];
      RunInv(initial, acts[..|acts| - 1]);
      if Enabled(s, a) {
        LedgerStep(s, a);
        BusyStep(s, a);
        TemplateStep(s, initial, a);
        CommentStep(s, a);
        SessionStep(s, a);
      }
    }
  }

  /**
   * In every interleaving at most one sweep is active; and unless a restore failed, whenever the
   * semaphore is free Anubis has the template it started with.
   */
  lemma OneSweepAtATime(initial: Template, acts: seq<Act>)
    ensures var s := Run(Idle(initial), acts);
      && (forall i, j :: 0 <= i < |s.phases| && 0 <= j < |s.phases| && s.phases[i].Sweeping? && s.phases[j].Sweeping? ==> i == j)
      && (s.used == 0 && !s.lost ==> s.template == initial)
      && s.used <= 1
  {
    RunInv(initial, acts);
    var s := Run(Idle(initial), acts);
    assert forall i :: 0 <= i < |s.phases| && s.phases[i].Sweeping? ==> Holding(s.phases[i]);
  }

  /** Step n turns request i away, and at that step h, another request, holds the token by grant number `turn`. */
  ghost predicate TurnedAwayAt(initial: Template, acts: seq<Act>, n: int, i: nat, h: nat, turn: nat) {
    0 <= n < |acts| && acts[n] == Enter(i) &&
    var s := Run(Idle(initial), acts[..n]);
    && Enabled(s, acts[n]) && s.holder == Some(h) && h != i && h < |s.phases| && Holding(s.phases[h])
    && |s.releases| == turn && s.grants == s.releases + [h]
  }

  lemma TurnedAwayNow(initial: Template, acts: seq<Act>, s: Server, i: nat)
    requires acts != [] && s == Run(Idle(initial), acts[..|acts| - 1]) && acts[|acts| - 1] == Enter(i)
    requires TokenInv(s) && LedgerInv(s) && Enabled(s, Enter(i)) && Refused(Apply(s, Enter(i)).phases[i]).Some?
    ensures var (h, turn) := Refused(Apply(s, Enter(i)).phases[i]).value; TurnedAwayAt(initial, acts, |acts| - 1, i, h, turn)
  {
    assert Holding(s.phases[s.holder.value]);
  }

  /** A busy answer only ever stands where an Enter found the token held by another request. */
  lemma RefusedStep(s: Server, a: Act, i: nat)
    requires Enabled(s, a) && i < |Apply(s, a).phases| && Refused(Apply(s, a).phases[i]).Some? && a != Enter(i)
    ensures i < |s.phases| && Refused(s.phases[i]) == Refused(Apply(s, a).phases[i])
  {
  }

  /** A busy answer was true when it was given: the step that gave it found that very grant not yet released. */
  lemma {:induction false} BusyWasTrue(initial: Template, acts: seq<Act>, i: nat) returns (n: nat)
    requires var s := Run(Idle(initial), acts); i < |s.phases| && Refused(s.phases[i]).Some?
    ensures var (h, turn) := Refused(Run(Idle(initial), acts).phases[i]).value; TurnedAwayAt(initial, acts, n, i, h, turn)
    decreases |acts|
  {
    var m := |acts| - 1;
    var s, a := Run(Idle(initial), acts[..m]), acts[m];
    RunInv(initial, acts[..m]);
    if Enabled(s, a) && a == Enter(i) {
      n := m;
      TurnedAwayNow(initial, acts, s, i);
    } else {
      if Enabled(s, a) { RefusedStep(s, a, i); }
      n := BusyWasTrue(initial, acts[..m], i);
      assert acts[..m][..n] == acts[..n];
    }
  }

  /** A closing comment: a result body of a sweep that went well, a run-error body of one that did not. */
  predicate ClosesRightly(s: Server, c: Comment) {
    && (c.kind == ResultBody ==> c.id < |s.phases| && s.phases[c.id] in {Leaving(true), Over(Completed(true))})
    && (c.kind == RunErrorBody ==> c.id < |s.phases| && s.phases[c.id] in {Leaving(false), Over(Completed(false))})
  }

  lemma {:induction false} CommentIsLogged(log: seq<Comment>, k: nat)
    requires k < |log|
    ensures log[k].kind in LogOf(log, log[k].id)
  {
    var n := |log| - 1;
    if k < n { CommentIsLogged(log[..n], k); }
  }

  lemma ClosingsAreRight(s: Server, k: nat)
    requires CommentInv(s) && k < |s.log|
    ensures ClosesRightly(s, s.log[k])
  {
    var c := s.log[k];
    CommentIsLogged(s.log, k);
    assert Lawful(s.reqs[c.id], s.phases[c.id]) && LogOf(s.log, c.id) == Expected(s.reqs[c.id], s.phases[c.id]);
  }

  /** What a finished request has been granted and has posted. */
  predicate Settled(s: Server, i: nat)
    requires i < |s.phases| && i < |s.reqs| && s.phases[i].Over?
  {
    match s.phases[i].reply
    case Completed(ok) =>
      i in s.grants && i in s.releases
      && LogOf(s.log, i) == if s.reqs[i].Submit? then [Ack, if ok then ResultBody else RunErrorBody] else []
    case Exhausted(h, turn) =>
      h != i && turn < |s.grants| && s.grants[turn] == h && i !in s.grants
      && LogOf(s.log, i) == if s.reqs[i].Submit? then [BusyNote] else []
    case _ => i !in s.grants && LogOf(s.log, i) == []
  }

  lemma OverIsSettled(s: Server, i: nat)
    requires TokenInv(s) && LedgerInv(s) && BusyInv(s) && CommentInv(s) && i < |s.phases| && s.phases[i].Over?
    ensures Settled(s, i)
  {
    assert Lawful(s.reqs[i], s.phases[i]) && BusyAt(s.phases[i], i, s.grants);
    assert !Holding(s.phases[i]);
    assert WasGranted(s.phases[i]) <==> i in s.grants;
  }

  /**
   * The comment protocol over every run: a finished submit that was accepted posted its ack and then
   * exactly one closing comment, of the kind that fits how its sweep went, a busy one exactly one note, any other
   * nothing; blocks of accepted
   * submits never interleave; no token is given out twice or released twice.
   */
  lemma CommentProtocol(initial: Template, acts: seq<Act>)
    ensures var s := Run(Idle(initial), acts);
      && |s.reqs| == |s.phases|
      && Paired(Sessions(s.log)) && (forall k :: 0 <= k < |s.log| ==> ClosesRightly(s, s.log[k]))
      && (forall j, k :: 0 <= j < k < |s.grants| ==> s.grants[j] != s.grants[k])
      && s.releases <= s.grants && |s.grants| == |s.releases| + s.used
      && (forall i :: 0 <= i < |s.phases| && s.phases[i].Over? ==> Settled(s, i))
      && (forall i :: 0 <= i < |s.phases| && Refused(s.phases[i]).Some? ==>
            exists n :: TurnedAwayAt(initial, acts, n, i, Refused(s.phases[i]).value.0, Refused(s.phases[i]).value.1))
  {
    RunInv(initial, acts);
    var s := Run(Idle(initial), acts);
    forall k | 0 <= k < |s.log| ensures ClosesRightly(s, s.log[k]) {
      ClosingsAreRight(s, k);
    }
    forall i | 0 <= i < |s.phases| && s.phases[i].Over? ensures Settled(s, i) {
      OverIsSettled(s, i);
    }
    forall i | 0 <= i < |s.phases| && Refused(s.phases[i]).Some?
      ensures exists n :: TurnedAwayAt(initial, acts, n, i, Refused(s.phases[i]).value.0, Refused(s.phases[i]).value.1)
    {
      var n := BusyWasTrue(initial, acts, i);
    }
  }

  function Rank(p: Phase): nat {
    match p
    case Arrived => 7
    case Turned(_, _) => 1
    case Admitted => 6
    case Preparing => 5
    case Sweeping(_) => 4
    case Swept(_) => 3
    case Leaving(_) => 2
    case Over(_) => 0
  }

  /**
   * No request is ever stuck behind another: each one that is not over can take a step of its own, and
   * each such step brings it closer to its end. For a request in its sweep the step is a run that failed
   * to snapshot or one whose restore did not succeed, which Run's contract always leaves open.
   */
  lemma NothingWaits(s: Server, i: nat) returns (a: Act)
    requires TokenInv(s) && i < |s.phases| && !s.phases[i].Over?
    ensures Enabled(s, a) && i < |Apply(s, a).phases| && Rank(Apply(s, a).phases[i]) < Rank(s.phases[i])
  {
    match s.phases[i]
    case Arrived => a := Enter(i);
    case Turned(_, _) => a := PostBusy(i);
    case Admitted => a := PostAck(i);
    case Preparing => a := Begin(i, true);
    case Sweeping(_) => a := Finish(i, true, false, true);
    case Swept(_) => a := PostClosing(i);
    case Leaving(_) => a := Release(i);
  }

  // ---- A sweep counts as one step ----

  /** A move of another request, or a write of the sweeping one. */
  predicate WhileSweeping(a: Act, i: nat) {
    a.Arrive? || a.i != i || a.Write?
  }

  predicate OwnWrite(a: Act, i: nat) {
    a.Write? && a.i == i
  }

  /** The other requests' moves. */
  function Rest(acts: seq<Act>, i: nat): seq<Act> {
    if acts == [] then []
    else Rest(acts[..|acts| - 1], i) + if OwnWrite(acts[|acts| - 1], i) then [] else [acts[|acts| - 1]]
  }

  /** The template after the sweeping request's writes. */
  function LastWritten(t: Template, acts: seq<Act>, i: nat): Template {
    if acts == [] then t
    else if OwnWrite(acts[|acts| - 1], i) then acts[|acts| - 1].t else LastWritten(t, acts[..|acts| - 1], i)
  }

  lemma RunSnoc(s: Server, acts: seq<Act>, a: Act)
    ensures Run(s, acts + [a]) == Next(Run(s, acts), a)
  {
    assert (acts + [a])[..|acts|] == acts;
  }

  predicate Sweeps(s: Server, i: nat) {
    TokenInv(s) && i < |s.phases| && s.phases[i].Sweeping?
  }

  lemma SweepGoesOn(s: Server, a: Act, i: nat)
    requires Sweeps(s, i) && WhileSweeping(a, i)
    ensures Sweeps(Next(s, a), i)
  {
    if Enabled(s, a) { TokenStep(s, a); }
  }

  /** While one request sweeps, no other's move reads or writes the template. */
  lemma OthersIgnoreTemplate(s: Server, a: Act, i: nat, t: Template)
    requires Sweeps(s, i) && WhileSweeping(a, i) && !OwnWrite(a, i)
    ensures Next(s.(template := t), a) == Next(s, a).(template := t)
  {
    assert forall k :: 0 <= k < |s.phases| && Holding(s.phases[k]) ==> k == i;
  }

  /**
   * However other requests move while one sweeps: the server ends as if they had all moved first and the sweep had
   * then written its last template in one step.
   */
  lemma {:induction false} SweepIsOneStep(s: Server, acts: seq<Act>, i: nat)
    requires Sweeps(s, i) && forall k :: 0 <= k < |acts| ==> WhileSweeping(acts[k], i)
    ensures Sweeps(Run(s, Rest(acts, i)), i)
    ensures Run(s, acts) == Run(s, Rest(acts, i)).(template := LastWritten(s.template, acts, i))
    ensures Run(s, acts) == Run(s, Rest(acts, i) + [Write(i, LastWritten(s.template, acts, i))])
  {
    if acts != [] {
      var init, a := acts[..|acts| - 1], acts[|acts| - 1];
      SweepIsOneStep(s, init, i);
      var x := Run(s, Rest(init, i));
      if OwnWrite(a, i) {
        assert Rest(acts, i) == Rest(init, i);
      } else {
        OthersIgnoreTemplate(x, a, i, LastWritten(s.template, init, i));
        RunSnoc(s, Rest(init, i), a);
        SweepGoesOn(x, a, i);
      }
    }
    RunSnoc(s, Rest(acts, i), Write(i, LastWritten(s.template, acts, i)));
  }
}
