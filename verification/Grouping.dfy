/** The report's tallies and its two levels of first-seen grouping. */
module Grouping {
  import opened Report

  datatype Level = ByPolicy | ByBrowser

  function KeyAt(f: Level, r: Result): string {
    if f == ByPolicy then r.policy else r.browser
  }

  /** The keys in the order they first occur. */
  function FirstSeen(rs: seq<Result>, f: Level): seq<string> {
    if rs == [] then []
    else
      var rest := FirstSeen(rs[..|rs| - 1], f);
      if KeyAt(f, rs[|rs| - 1]) in rest then rest else rest + [KeyAt(f, rs[|rs| - 1])]
  }

  /** The results of one key, in order. */
  function Select(rs: seq<Result>, f: Level, k: string): seq<Result> {
    if rs == [] then []
    else Select(rs[..|rs| - 1], f, k) + if KeyAt(f, rs[|rs| - 1]) == k then [rs[|rs| - 1]] else []
  }

  predicate Distinct(keys: seq<string>) {
    forall i, j :: 0 <= i < j < |keys| ==> keys[i] != keys[j]
  }

  function Passed(rs: seq<Result>): nat {
    if rs == [] then 0 else Passed(rs[..|rs| - 1]) + if rs[|rs| - 1].status == Pass then 1 else 0
  }

  datatype PolicyStat = PolicyStat(name: string, passed: nat, total: nat) {
    function Verdict(): Status {
      if total > 0 && passed == total then Pass else Fail
    }
  }

  function StatOf(rs: seq<Result>, k: string): PolicyStat {
    PolicyStat(k, Passed(Select(rs, ByPolicy, k)), |Select(rs, ByPolicy, k)|)
  }

  /** One entry per policy, first seen first, each counting that policy's group. */
  function Stats(rs: seq<Result>): seq<PolicyStat> {
    var keys := FirstSeen(rs, ByPolicy);
    seq(|keys|, i requires 0 <= i < |keys| => StatOf(rs, keys[i]))
  }

  /** The places of a list where such results stand. */
  function Where(rs: seq<Result>, which: Result -> bool): set<nat> {
    set i: nat | i < |rs| && which(rs[i])
  }

  function Places(rs: seq<Result>, policy: string): set<nat> {
    Where(rs, (r: Result) => r.policy == policy)
  }

  function PassPlaces(rs: seq<Result>, policy: string): set<nat> {
    Where(rs, (r: Result) => r.policy == policy && r.status == Pass)
  }

  lemma WhereSnoc(rs: seq<Result>, r: Result, which: Result -> bool)
    ensures |Where(rs + [r], which)| == |Where(rs, which)| + if which(r) then 1 else 0
  {
    var n: nat := |rs|;
    assert forall i: nat :: i < n ==> (rs + [r])[i] == rs[i];
    if which(r) {
      assert Where(rs + [r], which) == Where(rs, which) + {n};
    } else {
      assert Where(rs + [r], which) == Where(rs, which);
    }
  }

  lemma {:induction false} StatCounts(rs: seq<Result>, policy: string)
    ensures StatOf(rs, policy).total == |Places(rs, policy)| && StatOf(rs, policy).passed == |PassPlaces(rs, policy)|
  {
    if rs != [] {
      var n := |rs| - 1;
      StatCounts(rs[..n], policy);
      WhereSnoc(rs[..n], rs[n], (r: Result) => r.policy == policy);
      WhereSnoc(rs[..n], rs[n], (r: Result) => r.policy == policy && r.status == Pass);
      StatSnoc(rs[..n], rs[n], policy);
      assert rs[..n] + [rs[n]] == rs;
    }
  }

  /** Key a is seen before key b. */
  predicate SeenBefore(rs: seq<Result>, f: Level, a: string, b: string) {
    exists i :: 0 <= i < |rs| && KeyAt(f, rs[i]) == a && forall m :: 0 <= m <= i ==> KeyAt(f, rs[m]) != b
  }

  lemma {:induction false} KeyHasResult(rs: seq<Result>, f: Level, k: string)
    requires k in FirstSeen(rs, f)
    ensures exists i :: 0 <= i < |rs| && KeyAt(f, rs[i]) == k
  {
    var n := |rs| - 1;
    if k in FirstSeen(rs[..n], f) {
      KeyHasResult(rs[..n], f, k);
      var i :| 0 <= i < n && KeyAt(f, rs[..n][i]) == k;
      assert KeyAt(f, rs[i]) == k;
    }
  }

  lemma SeenBeforeMore(rs: seq<Result>, f: Level, a: string, b: string, n: nat)
    requires n <= |rs| && SeenBefore(rs[..n], f, a, b)
    ensures SeenBefore(rs, f, a, b)
  {
    var i :| 0 <= i < n && KeyAt(f, rs[..n][i]) == a && forall m :: 0 <= m <= i ==> KeyAt(f, rs[..n][m]) != b;
    assert forall m :: 0 <= m <= i ==> rs[m] == rs[..n][m];
    assert KeyAt(f, rs[i]) == a;
  }

  lemma SeenBeforeNew(rs: seq<Result>, f: Level, a: string, b: string, n: nat)
    requires n <= |rs| && a in FirstSeen(rs[..n], f) && b !in FirstSeen(rs[..n], f)
    ensures SeenBefore(rs, f, a, b)
  {
    KeyHasResult(rs[..n], f, a);
    var i :| 0 <= i < n && KeyAt(f, rs[..n][i]) == a;
    forall m | 0 <= m <= i ensures KeyAt(f, rs[m]) != b {
      assert rs[m] == rs[..n][m];
      KeyIsSeen(rs[..n], f, m);
    }
    assert KeyAt(f, rs[i]) == a;
  }

  /** The keys stand in the order in which they first occur. */
  lemma {:induction false} FirstSeenInOrder(rs: seq<Result>, f: Level, j: nat, l: nat)
    requires j < l < |FirstSeen(rs, f)|
    ensures SeenBefore(rs, f, FirstSeen(rs, f)[j], FirstSeen(rs, f)[l])
  {
    var n := |rs| - 1;
    var keys := FirstSeen(rs[..n], f);
    if l < |keys| {
      FirstSeenInOrder(rs[..n], f, j, l);
      SeenBeforeMore(rs, f, keys[j], keys[l], n);
    } else {
      SeenBeforeNew(rs, f, keys[j], KeyAt(f, rs[n]), n);
    }
  }

  /** An entry counts the places of its policy's results and passes, and its policy does occur. */
  predicate Counts(stat: PolicyStat, rs: seq<Result>) {
    && stat.total == |Places(rs, stat.name)| && stat.passed == |PassPlaces(rs, stat.name)|
    && exists i :: 0 <= i < |rs| && KeyAt(ByPolicy, rs[i]) == stat.name
  }

  predicate Tallied(stats: seq<PolicyStat>, r: Result) {
    exists j :: 0 <= j < |stats| && stats[j].name == r.policy
  }

  /**
   * The tally, read off the list itself: one entry for each policy that occurs, in the order they first occur, with the
   * number of its results and of its passes.
   */
  lemma StatsMeaning(rs: seq<Result>)
    ensures forall j :: 0 <= j < |Stats(rs)| ==> Counts(Stats(rs)[j], rs)
    ensures forall i :: 0 <= i < |rs| ==> Tallied(Stats(rs), rs[i])
    ensures forall j, l :: 0 <= j < l < |Stats(rs)| ==> SeenBefore(rs, ByPolicy, Stats(rs)[j].name, Stats(rs)[l].name)
  {
    var stats, keys := Stats(rs), FirstSeen(rs, ByPolicy);
    forall j | 0 <= j < |stats| ensures Counts(stats[j], rs) {
      StatCounts(rs, keys[j]);
      KeyHasResult(rs, ByPolicy, keys[j]);
    }
    forall i | 0 <= i < |rs| ensures Tallied(stats, rs[i]) {
      KeyIsSeen(rs, ByPolicy, i);
      var j :| 0 <= j < |keys| && keys[j] == KeyAt(ByPolicy, rs[i]);
      assert stats[j].name == rs[i].policy;
    }
    forall j, l | 0 <= j < l < |stats| ensures SeenBefore(rs, ByPolicy, stats[j].name, stats[l].name) {
      FirstSeenInOrder(rs, ByPolicy, j, l);
    }
  }

  lemma SelectSnoc(rs: seq<Result>, f: Level, r: Result, k: string)
    ensures Select(rs + [r], f, k) == if KeyAt(f, r) == k then Select(rs, f, k) + [r] else Select(rs, f, k)
    ensures Passed(rs + [r]) == Passed(rs) + if r.status == Pass then 1 else 0
    ensures FirstSeen(rs + [r], f) == if KeyAt(f, r) in FirstSeen(rs, f) then FirstSeen(rs, f) else FirstSeen(rs, f) + [KeyAt(f, r)]
  {
    assert (rs + [r])[..|rs|] == rs;
  }

  lemma DistinctSnoc(keys: seq<string>, k: string)
    requires Distinct(keys) && k !in keys
    ensures Distinct(keys + [k])
  {
  }

  lemma {:induction false} FirstSeenDistinct(rs: seq<Result>, f: Level)
    ensures Distinct(FirstSeen(rs, f))
  {
    if rs != [] {
      var n := |rs| - 1;
      FirstSeenDistinct(rs[..n], f);
      if KeyAt(f, rs[n]) !in FirstSeen(rs[..n], f) { DistinctSnoc(FirstSeen(rs[..n], f), KeyAt(f, rs[n])); }
    }
  }

  /** A key has been seen exactly when it has a group. */
  lemma {:induction false} SeenHasGroup(rs: seq<Result>, f: Level, k: string)
    ensures k in FirstSeen(rs, f) <==> Select(rs, f, k) != []
  {
    if rs != [] {
      var n := |rs| - 1;
      SeenHasGroup(rs[..n], f, k);
      assert k in FirstSeen(rs[..n], f) + [KeyAt(f, rs[n])] <==> k in FirstSeen(rs[..n], f) || k == KeyAt(f, rs[n]);
    }
  }

  lemma {:induction false} KeyIsSeen(rs: seq<Result>, f: Level, i: nat)
    requires i < |rs|
    ensures KeyAt(f, rs[i]) in FirstSeen(rs, f)
  {
    var n := |rs| - 1;
    if i < n { KeyIsSeen(rs[..n], f, i); }
  }

  lemma FirstSeenKeys(rs: seq<Result>, f: Level)
    ensures Distinct(FirstSeen(rs, f))
    ensures forall k :: k in FirstSeen(rs, f) <==> Select(rs, f, k) != []
    ensures forall r :: r in rs ==> KeyAt(f, r) in FirstSeen(rs, f)
  {
    FirstSeenDistinct(rs, f);
    forall k: string ensures k in FirstSeen(rs, f) <==> Select(rs, f, k) != [] { SeenHasGroup(rs, f, k); }
    forall r | r in rs ensures KeyAt(f, r) in FirstSeen(rs, f) {
      var i :| 0 <= i < |rs| && rs[i] == r;
      KeyIsSeen(rs, f, i);
    }
  }

  function One(r: Result): nat {
    if r.status == Pass then 1 else 0
  }

  lemma StatSnoc(rs: seq<Result>, r: Result, k: string)
    ensures StatOf(rs + [r], k) ==
      if k == r.policy then PolicyStat(k, StatOf(rs, k).passed + One(r), StatOf(rs, k).total + 1) else StatOf(rs, k)
  {
    SelectSnoc(rs, ByPolicy, r, k);
    SelectSnoc(Select(rs, ByPolicy, k), ByPolicy, r, k);
  }

  /** The entries count the groups of the given keys. */
  predicate Matches(stats: seq<PolicyStat>, rs: seq<Result>, keys: seq<string>) {
    |stats| == |keys| && forall i :: 0 <= i < |keys| ==> stats[i] == StatOf(rs, keys[i])
  }

  lemma MatchesIsStats(stats: seq<PolicyStat>, rs: seq<Result>)
    requires Matches(stats, rs, FirstSeen(rs, ByPolicy))
    ensures stats == Stats(rs)
  {
  }

  /** A policy not seen yet gets an empty entry. */
  lemma EntryOpened(stats: seq<PolicyStat>, rs: seq<Result>, keys: seq<string>, policy: string)
    requires Matches(stats, rs, keys) && Select(rs, ByPolicy, policy) == []
    ensures Matches(stats + [PolicyStat(policy, 0, 0)], rs, keys + [policy])
  {
  }

  /** A result counts in its own policy's entry and nowhere else. */
  lemma ResultCounted(stats: seq<PolicyStat>, rs: seq<Result>, keys: seq<string>, r: Result, j: nat)
    requires Matches(stats, rs, keys) && Distinct(keys) && j < |keys| && keys[j] == r.policy
    ensures Matches(stats[j := Bumped(stats[j], r)], rs + [r], keys)
  {
    forall i | 0 <= i < |keys|
      ensures StatOf(rs + [r], keys[i]) ==
        if i == j then Bumped(stats[j], r) else stats[i]
    {
      StatSnoc(rs, r, keys[i]);
    }
  }

  /** The index knows every policy seen so far, by its place. */
  predicate Indexed(keys: seq<string>, idx: map<string, nat>) {
    && (forall k :: k in idx ==> idx[k] < |keys| && keys[idx[k]] == k)
    && (forall k :: k in keys ==> k in idx)
  }

  lemma SeenNext(rs: seq<Result>, r: Result, f: Level)
    ensures FirstSeen(rs + [r], f) == if KeyAt(f, r) in FirstSeen(rs, f) then FirstSeen(rs, f) else FirstSeen(rs, f) + [KeyAt(f, r)]
    ensures Distinct(FirstSeen(rs + [r], f))
    ensures KeyAt(f, r) !in FirstSeen(rs, f) ==> Select(rs, f, KeyAt(f, r)) == []
  {
    SelectSnoc(rs, f, r, KeyAt(f, r));
    FirstSeenKeys(rs + [r], f);
    FirstSeenKeys(rs, f);
  }

  function KeysWith(keys: seq<string>, idx: map<string, nat>, policy: string): seq<string> {
    if policy in idx then keys else keys + [policy]
  }

  function IndexWith(keys: seq<string>, idx: map<string, nat>, policy: string): map<string, nat> {
    if policy in idx then idx else idx[policy := |keys|]
  }

  lemma IndexStep(rs: seq<Result>, r: Result, keys: seq<string>, idx: map<string, nat>)
    requires keys == FirstSeen(rs, ByPolicy) && Indexed(keys, idx)
    ensures KeysWith(keys, idx, r.policy) == FirstSeen(rs + [r], ByPolicy)
    ensures Indexed(KeysWith(keys, idx, r.policy), IndexWith(keys, idx, r.policy))
    ensures Distinct(KeysWith(keys, idx, r.policy))
    ensures r.policy !in idx ==> Select(rs, ByPolicy, r.policy) == []
  {
    SeenNext(rs, r, ByPolicy);
    assert r.policy in idx <==> r.policy in keys;
  }

  /** The tally with an empty entry at the end for a policy not in the index. */
  function StatsWith(stats: seq<PolicyStat>, idx: map<string, nat>, policy: string): seq<PolicyStat> {
    if policy in idx then stats else stats + [PolicyStat(policy, 0, 0)]
  }

  function Bumped(stat: PolicyStat, r: Result): PolicyStat {
    PolicyStat(stat.name, stat.passed + One(r), stat.total + 1)
  }

  function Counted(stats: seq<PolicyStat>, i: nat, r: Result): seq<PolicyStat>
    requires i < |stats|
  {
    stats[i := Bumped(stats[i], r)]
  }

  /** What the loop keeps: the index points into the tally, and the tally counts the results so far. */
  predicate Tallying(rs: seq<Result>, keys: seq<string>, idx: map<string, nat>, stats: seq<PolicyStat>) {
    keys == FirstSeen(rs, ByPolicy) && Indexed(keys, idx) && Matches(stats, rs, keys)
  }

  /** One turn of the tally. */
  lemma TallyStep(rs: seq<Result>, r: Result, keys: seq<string>, idx: map<string, nat>, stats: seq<PolicyStat>)
    requires Tallying(rs, keys, idx, stats)
    ensures |stats| == |keys|
    ensures var idx', stats' := IndexWith(keys, idx, r.policy), StatsWith(stats, idx, r.policy);
      idx'[r.policy] < |stats'| && Tallying(rs + [r], KeysWith(keys, idx, r.policy), idx', Counted(stats', idx'[r.policy], r))
  {
    IndexStep(rs, r, keys, idx);
    if r.policy !in idx { EntryOpened(stats, rs, keys, r.policy); }
    var keys', idx', stats' := KeysWith(keys, idx, r.policy), IndexWith(keys, idx, r.policy), StatsWith(stats, idx, r.policy);
    ResultCounted(stats', rs, keys', r, idx'[r.policy]);
  }

  /** The increments in place. */
  method Bump(r: Result, i: nat, stats: seq<PolicyStat>) returns (stats': seq<PolicyStat>)
    requires i < |stats|
    ensures stats' == Counted(stats, i, r)
  {
    stats' := stats[i := stats[i].(total := stats[i].total + 1)];
    if r.status == Pass {
      stats' := stats'[i := stats'[i].(passed := stats'[i].passed + 1)];
    }
  }

  /** The body of the loop: a policy not seen yet gets an index and an empty entry, then its entry counts the result. */
  method CountResult(r: Result, idx: map<string, nat>, stats: seq<PolicyStat>, ghost rs: seq<Result>, ghost keys: seq<string>)
    returns (idx': map<string, nat>, stats': seq<PolicyStat>)
    requires Tallying(rs, keys, idx, stats)
    ensures Tallying(rs + [r], KeysWith(keys, idx, r.policy), idx', stats')
  {
    TallyStep(rs, r, keys, idx, stats);
    idx', stats' := idx, stats;
    if r.policy !in idx {
      idx' := idx[r.policy := |stats|];
      stats' := stats + [PolicyStat(r.policy, 0, 0)];
    }
    stats' := Bump(r, idx'[r.policy], stats');
  }

  method PolicyStats(results: seq<Result>) returns (stats: seq<PolicyStat>)
    ensures stats == Stats(results)
  {
    var idx: map<string, nat> := map[];
    ghost var keys: seq<string> := [];
    stats := [];
    for n := 0 to |results|
      invariant Tallying(results[..n], keys, idx, stats)
    {
      assert results[..n + 1] == results[..n] + [results[n]];
      ghost var next := KeysWith(keys, idx, results[n].policy);
      idx, stats := CountResult(results[n], idx, stats, results[..n], keys);
      keys := next;
    }
    assert results[..|results|] == results;
    MatchesIsStats(stats, results);
  }

  /** The groups collected so far. */
  ghost predicate Collected(rs: seq<Result>, f: Level, order: seq<string>, groups: map<string, seq<Result>>) {
    && order == FirstSeen(rs, f)
    && (forall k :: k in groups <==> k in order)
    && (forall k :: k in order ==> groups[k] == Select(rs, f, k))
  }

  function WithResult(groups: map<string, seq<Result>>, k: string, r: Result): map<string, seq<Result>> {
    groups[k := (if k in groups then groups[k] else []) + [r]]
  }

  lemma CollectOne(rs: seq<Result>, f: Level, r: Result, order: seq<string>, groups: map<string, seq<Result>>, k: string)
    requires Collected(rs, f, order, groups) && (k in order || k == KeyAt(f, r))
    ensures WithResult(groups, KeyAt(f, r), r)[k] == Select(rs + [r], f, k)
  {
    SeenNext(rs, r, f);
    SelectSnoc(rs, f, r, k);
  }

  lemma CollectStep(rs: seq<Result>, f: Level, r: Result, order: seq<string>, groups: map<string, seq<Result>>)
    requires Collected(rs, f, order, groups)
    ensures Collected(rs + [r], f, if KeyAt(f, r) in groups then order else order + [KeyAt(f, r)],
                      WithResult(groups, KeyAt(f, r), r))
  {
    var x := KeyAt(f, r);
    var order' := if x in groups then order else order + [x];
    assert order' == FirstSeen(rs + [r], f) by { SeenNext(rs, r, f); }
    assert forall k :: k in order' <==> k in order || k == x;
    forall k | k in order' ensures WithResult(groups, x, r)[k] == Select(rs + [r], f, k) {
      CollectOne(rs, f, r, order, groups, k);
    }
  }

  /** The grouping loop of RenderMarkdown and of renderBrowserGroups. */
  method GroupBy(results: seq<Result>, f: Level) returns (order: seq<string>, groups: map<string, seq<Result>>)
    ensures Collected(results, f, order, groups)
  {
    order, groups := [], map[];
    for n := 0 to |results|
      invariant Collected(results[..n], f, order, groups)
    {
      var r := results[n];
      assert results[..n + 1] == results[..n] + [r];
      CollectStep(results[..n], f, r, order, groups);
      if KeyAt(f, r) !in groups {
        order := order + [KeyAt(f, r)];
      }
      groups := groups[KeyAt(f, r) := (if KeyAt(f, r) in groups then groups[KeyAt(f, r)] else []) + [r]];
    }
    assert results[..|results|] == results;
  }

  method AllPassed(results: seq<Result>) returns (ok: bool)
    ensures ok <==> Passing(results)
  {
    for n := 0 to |results|
      invariant forall r :: r in results[..n] ==> r.status == Pass
    {
      if results[n].status != Pass { return false; }
    }
    return true;
  }

  // ---- Grouping loses nothing ----

  /** The groups of the given keys, one after another. */
  function GroupsOf(rs: seq<Result>, f: Level, keys: seq<string>): seq<Result> {
    if keys == [] then [] else GroupsOf(rs, f, keys[..|keys| - 1]) + Select(rs, f, keys[|keys| - 1])
  }

  function Grouped(rs: seq<Result>, f: Level): seq<Result> {
    GroupsOf(rs, f, FirstSeen(rs, f))
  }

  /** The results of a set of keys, in order. */
  function Restrict(rs: seq<Result>, f: Level, keys: seq<string>): seq<Result> {
    if rs == [] then []
    else Restrict(rs[..|rs| - 1], f, keys) + if KeyAt(f, rs[|rs| - 1]) in keys then [rs[|rs| - 1]] else []
  }

  lemma {:induction false} RestrictOne(rs: seq<Result>, f: Level, keys: seq<string>, k: string)
    requires k !in keys
    ensures multiset(Restrict(rs, f, keys + [k])) == multiset(Restrict(rs, f, keys)) + multiset(Select(rs, f, k))
  {
    if rs != [] {
      var n := |rs| - 1;
      RestrictOne(rs[..n], f, keys, k);
      assert KeyAt(f, rs[n]) in keys + [k] <==> KeyAt(f, rs[n]) in keys || KeyAt(f, rs[n]) == k;
      var a, b, c := Restrict(rs[..n], f, keys + [k]), Restrict(rs[..n], f, keys), Select(rs[..n], f, k);
      assert multiset(a + [rs[n]]) == multiset(a) + multiset{rs[n]};
      assert multiset(b + [rs[n]]) == multiset(b) + multiset{rs[n]};
      assert multiset(c + [rs[n]]) == multiset(c) + multiset{rs[n]};
    }
  }

  lemma {:induction false} RestrictAll(rs: seq<Result>, f: Level, keys: seq<string>)
    requires forall i :: 0 <= i < |rs| ==> KeyAt(f, rs[i]) in keys
    ensures Restrict(rs, f, keys) == rs
  {
    if rs != [] {
      var n := |rs| - 1;
      RestrictAll(rs[..n], f, keys);
      assert rs == rs[..n] + [rs[n]];
    }
  }

  lemma {:induction false} RestrictNone(rs: seq<Result>, f: Level)
    ensures Restrict(rs, f, []) == []
  {
    if rs != [] { RestrictNone(rs[..|rs| - 1], f); }
  }

  lemma {:induction false} GroupsAreRestriction(rs: seq<Result>, f: Level, keys: seq<string>)
    requires Distinct(keys)
    ensures multiset(GroupsOf(rs, f, keys)) == multiset(Restrict(rs, f, keys))
  {
    if keys == [] {
      RestrictNone(rs, f);
    } else {
      var n := |keys| - 1;
      GroupsAreRestriction(rs, f, keys[..n]);
      RestrictOne(rs, f, keys[..n], keys[n]);
      assert keys == keys[..n] + [keys[n]];
    }
  }

  lemma {:induction false} SelectConcat(a: seq<Result>, b: seq<Result>, f: Level, k: string)
    ensures Select(a + b, f, k) == Select(a, f, k) + Select(b, f, k)
  {
    if b == [] {
      assert a + b == a;
    } else {
      assert (a + b)[..|a + b| - 1] == a + b[..|b| - 1];
      SelectConcat(a, b[..|b| - 1], f, k);
    }
  }

  lemma {:induction false} SelectSelect(rs: seq<Result>, f: Level, k: string, j: string)
    ensures Select(Select(rs, f, k), f, j) == if j == k then Select(rs, f, k) else []
    ensures forall r :: r in Select(rs, f, k) ==> KeyAt(f, r) == k && r in rs
  {
    if rs != [] {
      var n := |rs| - 1;
      SelectSelect(rs[..n], f, k, j);
      assert KeyAt(f, rs[n]) != k ==> Select(rs, f, k) == Select(rs[..n], f, k);
      if KeyAt(f, rs[n]) == k { SelectSnoc(Select(rs[..n], f, k), f, rs[n], j); }
    }
  }

  lemma LastKey(keys: seq<string>, k: string)
    requires keys != [] && Distinct(keys)
    ensures var n := |keys| - 1; Distinct(keys[..n]) && (k in keys <==> k in keys[..n] || k == keys[n]) && keys[n] !in keys[..n]
  {
    assert keys == keys[..|keys| - 1] + [keys[|keys| - 1]];
  }

  lemma SelectGroup(rs: seq<Result>, f: Level, front: seq<Result>, k: string, j: string)
    ensures Select(front + Select(rs, f, k), f, j) == Select(front, f, j) + if j == k then Select(rs, f, k) else []
  {
    SelectConcat(front, Select(rs, f, k), f, j);
    SelectSelect(rs, f, k, j);
  }

  lemma {:induction false} SelectGroups(rs: seq<Result>, f: Level, keys: seq<string>, k: string)
    requires Distinct(keys)
    ensures Select(GroupsOf(rs, f, keys), f, k) == if k in keys then Select(rs, f, k) else []
  {
    if keys != [] {
      var n := |keys| - 1;
      SelectGroups(rs, f, keys[..n], k);
      LastKey(keys, k);
      SelectGroup(rs, f, GroupsOf(rs, f, keys[..n]), keys[n], k);
    }
  }

  /** Grouping is a stable permutation: the same results, and inside each key the same order. */
  lemma GroupedIsStable(rs: seq<Result>, f: Level)
    ensures multiset(Grouped(rs, f)) == multiset(rs) && |Grouped(rs, f)| == |rs|
    ensures forall k :: Select(Grouped(rs, f), f, k) == Select(rs, f, k)
  {
    var keys := FirstSeen(rs, f);
    FirstSeenKeys(rs, f);
    GroupsAreRestriction(rs, f, keys);
    RestrictAll(rs, f, keys);
    assert |multiset(Grouped(rs, f))| == |multiset(rs)|;
    forall k: string ensures Select(Grouped(rs, f), f, k) == Select(rs, f, k) {
      SelectGroups(rs, f, keys, k);
    }
  }

  /** The rows of the rendered report: policy groups, each split into browser groups. */
  function RowsOf(rs: seq<Result>, policies: seq<string>): seq<Result> {
    if policies == [] then []
    else RowsOf(rs, policies[..|policies| - 1]) + Grouped(Select(rs, ByPolicy, policies[|policies| - 1]), ByBrowser)
  }

  function Rows(rs: seq<Result>): seq<Result> {
    RowsOf(rs, FirstSeen(rs, ByPolicy))
  }

  lemma {:induction false} RowsArePolicyGroups(rs: seq<Result>, policies: seq<string>)
    ensures multiset(RowsOf(rs, policies)) == multiset(GroupsOf(rs, ByPolicy, policies))
  {
    if policies != [] {
      var n := |policies| - 1;
      RowsArePolicyGroups(rs, policies[..n]);
      GroupedIsStable(Select(rs, ByPolicy, policies[n]), ByBrowser);
    }
  }

  lemma HeldGroup(rs: seq<Result>, f: Level, order: seq<string>, groups: map<string, seq<Result>>, i: nat)
    requires Collected(rs, f, order, groups) && i < |order|
    ensures order[i] in groups && groups[order[i]] == Select(rs, f, order[i])
    ensures GroupsOf(rs, f, order[..i + 1]) == GroupsOf(rs, f, order[..i]) + Select(rs, f, order[i])
    ensures RowsOf(rs, order[..i + 1]) == RowsOf(rs, order[..i]) + Grouped(Select(rs, ByPolicy, order[i]), ByBrowser)
  {
    assert order[i] in order;
    assert order[..i + 1][..i] == order[..i];
  }

  /** One browser section after another. */
  method RenderBrowserGroups(results: seq<Result>) returns (rows: seq<Result>)
    ensures rows == Grouped(results, ByBrowser)
  {
    var order, groups := GroupBy(results, ByBrowser);
    rows := [];
    for i := 0 to |order|
      invariant rows == GroupsOf(results, ByBrowser, order[..i])
    {
      HeldGroup(results, ByBrowser, order, groups, i);
      rows := rows + groups[order[i]];
    }
    assert order[..|order|] == order;
  }

  /** RenderMarkdown, as far as it decides which result is shown where. */
  method RenderMarkdown(results: seq<Result>) returns (rows: seq<Result>)
    ensures rows == Rows(results)
  {
    var order, groups := GroupBy(results, ByPolicy);
    rows := [];
    for i := 0 to |order|
      invariant rows == RowsOf(results, order[..i])
    {
      HeldGroup(results, ByPolicy, order, groups, i);
      var section := RenderBrowserGroups(groups[order[i]]);
      rows := rows + section;
    }
    assert order[..|order|] == order;
  }

  /** The report shows every result exactly once. */
  lemma RowsAreAPermutation(rs: seq<Result>)
    ensures multiset(Rows(rs)) == multiset(rs)
  {
    RowsArePolicyGroups(rs, FirstSeen(rs, ByPolicy));
    GroupedIsStable(rs, ByPolicy);
  }

  function Total(stats: seq<PolicyStat>): nat {
    if stats == [] then 0 else Total(stats[..|stats| - 1]) + stats[|stats| - 1].total
  }

  function TotalPassed(stats: seq<PolicyStat>): nat {
    if stats == [] then 0 else TotalPassed(stats[..|stats| - 1]) + stats[|stats| - 1].passed
  }

  lemma {:induction false} PassedConcat(a: seq<Result>, b: seq<Result>)
    ensures Passed(a + b) == Passed(a) + Passed(b)
  {
    if b == [] {
      assert a + b == a;
    } else {
      assert (a + b)[..|a + b| - 1] == a + b[..|b| - 1];
      PassedConcat(a, b[..|b| - 1]);
    }
  }

  lemma {:induction false} PassedAll(rs: seq<Result>)
    ensures Passed(rs) <= |rs|
    ensures Passed(rs) == |rs| <==> forall r :: r in rs ==> r.status == Pass
  {
    if rs != [] {
      var n := |rs| - 1;
      PassedAll(rs[..n]);
      assert rs == rs[..n] + [rs[n]];
    }
  }

  /** The first n entries of the tally against the first n policy groups. */
  lemma {:induction false} TalliesCount(rs: seq<Result>, n: nat)
    requires n <= |FirstSeen(rs, ByPolicy)|
    ensures |Stats(rs)| == |FirstSeen(rs, ByPolicy)|
    ensures Total(Stats(rs)[..n]) == |RowsOf(rs, FirstSeen(rs, ByPolicy)[..n])|
    ensures TotalPassed(Stats(rs)[..n]) == Passed(RowsOf(rs, FirstSeen(rs, ByPolicy)[..n]))
  {
    var keys, stats := FirstSeen(rs, ByPolicy), Stats(rs);
    if n > 0 {
      TalliesCount(rs, n - 1);
      assert keys[..n][..n - 1] == keys[..n - 1] && stats[..n][..n - 1] == stats[..n - 1];
      var g := Select(rs, ByPolicy, keys[n - 1]);
      GroupedIsStable(g, ByBrowser);
      PassedPermutation(g, Grouped(g, ByBrowser));
      PassedConcat(RowsOf(rs, keys[..n - 1]), Grouped(g, ByBrowser));
    }
  }

  lemma PassedOne(r: Result)
    ensures Passed([r]) == One(r)
  {
    assert [r][..0] == [];
  }

  lemma RemovedPassed(x: seq<Result>, r: Result, y: seq<Result>)
    ensures Passed(x + [r] + y) == Passed(x + y) + One(r)
  {
    PassedConcat(x + [r], y);
    PassedConcat(x, [r]);
    PassedOne(r);
    PassedConcat(x, y);
  }

  lemma RemovedMultiset(x: seq<Result>, r: Result, y: seq<Result>)
    ensures multiset(x + [r] + y) == multiset(x + y) + multiset{r}
  {
  }

  lemma SplitAt(b: seq<Result>, r: Result) returns (x: seq<Result>, y: seq<Result>)
    requires r in b
    ensures b == x + [r] + y
  {
    var j :| 0 <= j < |b| && b[j] == r;
    x, y := b[..j], b[j + 1..];
  }

  lemma CancelLast(a: seq<Result>, r: Result, b: seq<Result>, c: seq<Result>)
    requires multiset(a + [r]) == multiset(b) == multiset(c) + multiset{r}
    ensures multiset(a) == multiset(c)
  {
    assert multiset(a + [r]) == multiset(a) + multiset{r};
    assert (multiset(a) + multiset{r}) - multiset{r} == multiset(a);
    assert (multiset(c) + multiset{r}) - multiset{r} == multiset(c);
  }

  /** The number of passes is a matter of the multiset. */
  lemma {:induction false} PassedPermutation(a: seq<Result>, b: seq<Result>)
    requires multiset(a) == multiset(b)
    ensures Passed(a) == Passed(b)
  {
    if a == [] {
      assert |multiset(b)| == 0;
    } else {
      var front, r := a[..|a| - 1], a[|a| - 1];
      assert a == front + [r];
      assert r in multiset(a);
      var x, y := SplitAt(b, r);
      RemovedMultiset(x, r, y);
      CancelLast(front, r, b, x + y);
      PassedPermutation(front, x + y);
      RemovedPassed(x, r, y);
    }
  }

  /**
   * The index-backed tally and the rendered groups agree: the same policies in the same order, with the
   * same group sizes; totals add up to all results and passes to the passes of the browser sections.
   */
  lemma TallyAgreesWithGroups(rs: seq<Result>)
    ensures |Stats(rs)| == |FirstSeen(rs, ByPolicy)|
    ensures forall i :: 0 <= i < |Stats(rs)| ==>
      Stats(rs)[i].name == FirstSeen(rs, ByPolicy)[i] && Stats(rs)[i].total == |Select(rs, ByPolicy, FirstSeen(rs, ByPolicy)[i])|
    ensures Total(Stats(rs)) == |rs| && TotalPassed(Stats(rs)) == Passed(Rows(rs)) == Passed(rs)
  {
    var keys, stats := FirstSeen(rs, ByPolicy), Stats(rs);
    TalliesCount(rs, |keys|);
    assert keys[..|keys|] == keys && stats[..|stats|] == stats;
    RowsAreAPermutation(rs);
    assert |Rows(rs)| == |multiset(Rows(rs))| == |multiset(rs)| == |rs|;
    PassedPermutation(Rows(rs), rs);
  }

  predicate Passing(rs: seq<Result>) {
    forall r :: r in rs ==> r.status == Pass
  }

  lemma StatPasses(rs: seq<Result>, k: string)
    requires Select(rs, ByPolicy, k) != []
    ensures StatOf(rs, k).Verdict() == Pass <==> Passing(Select(rs, ByPolicy, k))
  {
    PassedAll(Select(rs, ByPolicy, k));
  }

  /** Everything passed exactly when every policy's own status is pass. */
  lemma AllPassedIsEveryStat(rs: seq<Result>)
    ensures Passing(rs) <==> forall i :: 0 <= i < |Stats(rs)| ==> Stats(rs)[i].Verdict() == Pass
  {
    var keys, stats := FirstSeen(rs, ByPolicy), Stats(rs);
    forall i | 0 <= i < |keys|
      ensures stats[i].Verdict() == Pass <==> Passing(Select(rs, ByPolicy, keys[i]))
      ensures Passing(rs) ==> Passing(Select(rs, ByPolicy, keys[i]))
    {
      assert Select(rs, ByPolicy, keys[i]) != [] by { FirstSeenKeys(rs, ByPolicy); assert keys[i] in keys; }
      StatPasses(rs, keys[i]);
      SelectSelect(rs, ByPolicy, keys[i], keys[i]);
    }
    forall r | r in rs && forall i :: 0 <= i < |keys| ==> Passing(Select(rs, ByPolicy, keys[i]))
      ensures r.status == Pass
    {
      SelectHas(rs, ByPolicy, r);
      assert r.policy in keys by { FirstSeenKeys(rs, ByPolicy); }
    }
  }

  lemma {:induction false} SelectHas(rs: seq<Result>, f: Level, r: Result)
    requires r in rs
    ensures r in Select(rs, f, KeyAt(f, r))
  {
    var n := |rs| - 1;
    if r != rs[n] { SelectHas(rs[..n], f, r); }
  }

  // ---- Run's own output is already grouped ----

  predicate Apart(a: seq<Result>, b: seq<Result>, f: Level) {
    forall i, j :: 0 <= i < |a| && 0 <= j < |b| ==> KeyAt(f, a[i]) != KeyAt(f, b[j])
  }

  lemma {:induction false} SelectForeign(rs: seq<Result>, f: Level, k: string)
    requires forall i :: 0 <= i < |rs| ==> KeyAt(f, rs[i]) != k
    ensures Select(rs, f, k) == []
  {
    if rs != [] { SelectForeign(rs[..|rs| - 1], f, k); }
  }

  lemma {:induction false} FirstSeenConcat(a: seq<Result>, b: seq<Result>, f: Level)
    requires Apart(a, b, f)
    ensures FirstSeen(a + b, f) == FirstSeen(a, f) + FirstSeen(b, f)
  {
    if b == [] {
      assert a + b == a;
    } else {
      var n := |b| - 1;
      FirstSeenConcat(a, b[..n], f);
      assert (a + b)[..|a + b| - 1] == a + b[..n];
      var k, s, t := KeyAt(f, b[n]), FirstSeen(a, f), FirstSeen(b[..n], f);
      assert k !in s by {
        SelectForeign(a, f, k);
        FirstSeenKeys(a, f);
      }
      assert k in s + t <==> k in t;
      assert (s + t) + [k] == s + (t + [k]);
    }
  }

  lemma {:induction false} GroupsLeft(a: seq<Result>, b: seq<Result>, f: Level, keys: seq<string>)
    requires forall i :: 0 <= i < |keys| ==> Select(b, f, keys[i]) == []
    ensures GroupsOf(a + b, f, keys) == GroupsOf(a, f, keys)
  {
    if keys != [] {
      var k := keys[|keys| - 1];
      GroupsLeft(a, b, f, keys[..|keys| - 1]);
      SelectConcat(a, b, f, k);
      assert Select(a + b, f, k) == Select(a, f, k);
    }
  }

  lemma {:induction false} GroupsRight(a: seq<Result>, b: seq<Result>, f: Level, keys: seq<string>)
    requires forall i :: 0 <= i < |keys| ==> Select(a, f, keys[i]) == []
    ensures GroupsOf(a + b, f, keys) == GroupsOf(b, f, keys)
  {
    if keys != [] {
      var k := keys[|keys| - 1];
      GroupsRight(a, b, f, keys[..|keys| - 1]);
      SelectConcat(a, b, f, k);
      assert Select(a + b, f, k) == Select(b, f, k);
    }
  }

  lemma {:induction false} GroupsOfKeys(rs: seq<Result>, f: Level, xs: seq<string>, ys: seq<string>)
    ensures GroupsOf(rs, f, xs + ys) == GroupsOf(rs, f, xs) + GroupsOf(rs, f, ys)
  {
    if ys == [] {
      assert xs + ys == xs;
    } else {
      var n := |ys| - 1;
      GroupsOfKeys(rs, f, xs, ys[..n]);
      assert (xs + ys)[..|xs + ys| - 1] == xs + ys[..n];
      var a, b, c := GroupsOf(rs, f, xs), GroupsOf(rs, f, ys[..n]), Select(rs, f, ys[n]);
      assert (a + b) + c == a + (b + c);
    }
  }

  lemma GroupsSnoc(rs: seq<Result>, f: Level, keys: seq<string>, k: string)
    ensures GroupsOf(rs, f, keys + [k]) == GroupsOf(rs, f, keys) + Select(rs, f, k)
  {
    assert (keys + [k])[..|keys|] == keys;
  }

  lemma ApartKeys(a: seq<Result>, b: seq<Result>, f: Level)
    requires Apart(a, b, f)
    ensures forall k :: k in FirstSeen(a, f) ==> Select(b, f, k) == []
    ensures forall k :: k in FirstSeen(b, f) ==> Select(a, f, k) == []
  {
    forall k | k in FirstSeen(a, f) ensures Select(b, f, k) == [] {
      FirstSeenKeys(a, f);
      SelectSelect(a, f, k, k);
      assert Select(a, f, k)[0] in a;
      SelectForeign(b, f, k);
    }
    forall k | k in FirstSeen(b, f) ensures Select(a, f, k) == [] {
      FirstSeenKeys(b, f);
      SelectSelect(b, f, k, k);
      assert Select(b, f, k)[0] in b;
      SelectForeign(a, f, k);
    }
  }

  lemma GroupedConcat(a: seq<Result>, b: seq<Result>, f: Level)
    requires Apart(a, b, f)
    ensures Grouped(a + b, f) == Grouped(a, f) + Grouped(b, f)
  {
    FirstSeenConcat(a, b, f);
    ApartKeys(a, b, f);
    GroupsOfKeys(a + b, f, FirstSeen(a, f), FirstSeen(b, f));
    GroupsLeft(a, b, f, FirstSeen(a, f));
    GroupsRight(a, b, f, FirstSeen(b, f));
  }

  lemma {:induction false} OneKey(rs: seq<Result>, f: Level, k: string)
    requires forall i :: 0 <= i < |rs| ==> KeyAt(f, rs[i]) == k
    ensures Select(rs, f, k) == rs
    ensures FirstSeen(rs, f) == if rs == [] then [] else [k]
  {
    if rs != [] {
      OneKey(rs[..|rs| - 1], f, k);
      assert rs == rs[..|rs| - 1] + [rs[|rs| - 1]];
    }
  }

  lemma OneKeyIsGrouped(rs: seq<Result>, f: Level, k: string)
    requires forall i :: 0 <= i < |rs| ==> KeyAt(f, rs[i]) == k
    ensures Grouped(rs, f) == rs
  {
    OneKey(rs, f, k);
    GroupsSnoc(rs, f, [], k);
    assert [] + [k] == [k] && [] + Select(rs, f, k) == Select(rs, f, k);
  }
}
