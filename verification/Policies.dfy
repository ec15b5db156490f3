/** The two policy loaders: the command line's own, and the client's map that the server turns back into a list. */
module Policies {
  import opened Manifests
  import opened Matrix

  /** A directory entry; `content` is missing when the file cannot be read. */
  datatype Entry = Entry(name: string, isDir: bool, content: Option<string>)

  const SUFFIX := ".yaml"
  const MAX_NAME := 49

  function TrimSuffix(s: string, suffix: string): string {
    if HasSuffix(s, suffix) then s[..|s| - |suffix|] else s
  }

  predicate LowerAlnum(c: char) {
    'a' <= c <= 'z' || '0' <= c <= '9'
  }

  /** ^[a-z0-9]([a-z0-9-]*[a-z0-9])?$ and at most 49 characters. */
  predicate ValidPolicyName(name: string) {
    && 0 < |name| <= MAX_NAME && LowerAlnum(name[0]) && LowerAlnum(name[|name| - 1])
    && forall i :: 0 <= i < |name| ==> LowerAlnum(name[i]) || name[i] == '-'
  }

  /** Go's byte-wise string order. */
  predicate Less(a: string, b: string) {
    if b == "" then false
    else if a == "" then true
    else a[0] < b[0] || (a[0] == b[0] && Less(a[1..], b[1..]))
  }

  predicate LessAt(a: string, b: string, k: int) {
    && 0 <= k <= |a| && k < |b| && a[..k] == b[..k]
    && (k == |a| || a[k] < b[k])
  }

  lemma SameHead(a: string, b: string, k: int)
    requires LessAt(a, b, k) && k > 0
    ensures a[0] == b[0]
  {
    assert a[..k][0] == a[0] && b[..k][0] == b[0];
  }

  /** The first difference decides, and a text comes before its continuations. */
  lemma {:induction false} LessMeaning(a: string, b: string)
    ensures Less(a, b) <==> exists k :: LessAt(a, b, k)
  {
    if a != "" && b != "" && a[0] == b[0] {
      LessMeaning(a[1..], b[1..]);
      if k :| LessAt(a[1..], b[1..], k) {
        assert a[..k + 1] == [a[0]] + a[1..][..k] && b[..k + 1] == [b[0]] + b[1..][..k];
        assert LessAt(a, b, k + 1);
      }
      if k :| LessAt(a, b, k) {
        assert a[1..][..k - 1] == a[..k][1..] && b[1..][..k - 1] == b[..k][1..];
        assert LessAt(a[1..], b[1..], k - 1);
      }
    } else {
      assert b != "" ==> LessAt(a, b, 0) || Less(b, a);
      if k :| LessAt(a, b, k) {
        if k > 0 { SameHead(a, b, k); }
      }
    }
  }

  lemma AlnumSpelled(c: char)
    ensures LowerAlnum(c) <==> c in "abcdefghijklmnopqrstuvwxyz0123456789"
  {
  }

  /** [a-z0-9] */
  predicate OneOf(name: string) {
    |name| == 1 && LowerAlnum(name[0])
  }

  /** [a-z0-9][a-z0-9-]*[a-z0-9], with `mid` for the middle part. */
  predicate Between(name: string, mid: string) {
    && |name| >= 2 && name == [name[0]] + mid + [name[|name| - 1]]
    && LowerAlnum(name[0]) && LowerAlnum(name[|name| - 1]) && forall c :: c in mid ==> LowerAlnum(c) || c == '-'
  }

  lemma BetweenIsValid(name: string, mid: string)
    requires Between(name, mid)
    ensures |name| <= 49 ==> ValidPolicyName(name)
  {
    assert forall i :: 0 < i < |name| - 1 ==> name[i] == mid[i - 1] && mid[i - 1] in mid;
  }

  /** ^[a-z0-9]([a-z0-9-]*[a-z0-9])?$, read as a regular expression, and at most 49 characters. */
  lemma ValidNameIsRegex(name: string)
    ensures ValidPolicyName(name) <==> |name| <= 49 && (OneOf(name) || exists mid: string :: Between(name, mid))
  {
    if ValidPolicyName(name) && |name| >= 2 {
      var mid := name[1..|name| - 1];
      assert name == [name[0]] + mid + [name[|name| - 1]];
      assert forall i :: 0 <= i < |mid| ==> mid[i] == name[i + 1];
      assert Between(name, mid);
    }
    forall mid: string | Between(name, mid) ensures |name| <= 49 ==> ValidPolicyName(name) {
      BetweenIsValid(name, mid);
    }
  }

  /** The bound on names is the one that keeps a policy's ConfigMap within Kubernetes' 63 characters. */
  lemma NamesFitConfigMaps(name: string)
    ensures ConfigMapName(name) == "anubis-policy-" + name && (|ConfigMapName(name)| <= 63 <==> |name| <= 49)
  {
  }

  lemma {:induction false} LessIrreflexive(a: string)
    ensures !Less(a, a)
  {
    if a != "" { LessIrreflexive(a[1..]); }
  }

  lemma {:induction false} LessTotal(a: string, b: string)
    ensures Less(a, b) || Less(b, a) || a == b
    ensures !(Less(a, b) && Less(b, a)) && !Less(a, a)
  {
    LessIrreflexive(a);
    if a != "" && b != "" {
      LessTotal(a[1..], b[1..]);
      assert a == [a[0]] + a[1..] && b == [b[0]] + b[1..];
    }
  }

  lemma {:induction false} LessTransitive(a: string, b: string, c: string)
    requires Less(a, b) && Less(b, c)
    ensures Less(a, c)
  {
    if a != "" && a[0] == b[0] == c[0] { LessTransitive(a[1..], b[1..], c[1..]); }
  }

  predicate StrictlySorted(names: seq<string>) {
    forall i, j :: 0 <= i < j < |names| ==> Less(names[i], names[j])
  }

  /** The place of `name` in a sorted list. */
  function Insert(names: seq<string>, name: string): seq<string> {
    if names == [] then [name]
    else if Less(name, names[0]) then [name] + names
    else [names[0]] + Insert(names[1..], name)
  }

  /** Any sort; on distinct names there is only one result (SortedIsUnique). */
  function Sort(names: seq<string>): seq<string> {
    if names == [] then [] else Insert(Sort(names[..|names| - 1]), names[|names| - 1])
  }

  function Elements(names: seq<string>): set<string> {
    set i | 0 <= i < |names| :: names[i]
  }

  lemma {:induction false} InsertSorted(names: seq<string>, name: string)
    requires StrictlySorted(names) && name !in names
    ensures StrictlySorted(Insert(names, name)) && Elements(Insert(names, name)) == Elements(names) + {name}
  {
    if names == [] {
      ElementsCons(name, []);
      NoElements([]);
      assert [name] + [] == [name];
    } else if Less(name, names[0]) {
      var r := [name] + names;
      forall i, j | 0 <= i < j < |r| ensures Less(r[i], r[j]) {
        if i == 0 && j > 1 { LessTransitive(name, names[0], names[j - 1]); }
      }
      ElementsCons(name, names);
    } else {
      LessTotal(name, names[0]);
      var rest := names[1..];
      InsertSorted(rest, name);
      var t := Insert(rest, name);
      var r := [names[0]] + t;
      forall i, j | 0 <= i < j < |r| ensures Less(r[i], r[j]) {
        if i == 0 { assert r[j] == t[j - 1] && t[j - 1] in Elements(t); }
      }
      ElementsCons(names[0], t);
      ElementsCons(names[0], rest);
      assert names == [names[0]] + rest;
    }
  }

  lemma ElementsCons(x: string, t: seq<string>)
    ensures Elements([x] + t) == {x} + Elements(t)
  {
    var r := [x] + t;
    assert r[0] == x && forall i :: 0 <= i < |t| ==> r[i + 1] == t[i];
  }

  lemma ElementsSnoc(t: seq<string>, x: string)
    ensures Elements(t + [x]) == Elements(t) + {x}
  {
    var r := t + [x];
    assert r[|t|] == x && forall i :: 0 <= i < |t| ==> r[i] == t[i];
  }

  lemma {:induction false} SortSorts(names: seq<string>)
    requires NoDup(names)
    ensures StrictlySorted(Sort(names)) && Elements(Sort(names)) == Elements(names)
  {
    if names != [] {
      var n := |names| - 1;
      SortSorts(names[..n]);
      assert names[n] !in Sort(names[..n]) by {
        assert names[n] !in Elements(names[..n]);
        assert forall x :: x in Sort(names[..n]) ==> x in Elements(Sort(names[..n]));
      }
      InsertSorted(Sort(names[..n]), names[n]);
      ElementsSnoc(names[..n], names[n]);
      assert names == names[..n] + [names[n]];
    }
  }

  lemma NoElements(a: seq<string>)
    ensures Elements(a) == {} <==> a == []
  {
    if a != [] { assert a[0] in Elements(a); }
  }

  /** Only one strictly sorted list has given elements, whatever order they came in. */
  lemma {:induction false} SortedIsUnique(a: seq<string>, b: seq<string>)
    requires StrictlySorted(a) && StrictlySorted(b) && Elements(a) == Elements(b)
    ensures a == b
  {
    NoElements(a);
    NoElements(b);
    if a != [] {
      assert a[0] in Elements(b);
      assert b[0] in Elements(a);
      var i :| 0 <= i < |a| && a[i] == b[0];
      var j :| 0 <= j < |b| && b[j] == a[0];
      LessTotal(a[0], b[0]);
      assert a[0] == b[0];
      TailElements(a);
      TailElements(b);
      SortedIsUnique(a[1..], b[1..]);
      assert a == [a[0]] + a[1..] && b == [b[0]] + b[1..];
    }
  }

  lemma TailElements(a: seq<string>)
    requires a != [] && StrictlySorted(a)
    ensures Elements(a[1..]) == Elements(a) - {a[0]} && StrictlySorted(a[1..])
  {
    ElementsCons(a[0], a[1..]);
    assert a == [a[0]] + a[1..];
    forall x | x in Elements(a[1..]) ensures x != a[0] {
      var i :| 0 <= i < |a| - 1 && a[1..][i] == x;
      LessTotal(a[0], x);
    }
  }

  // ---- Reading a directory ----

  predicate Skipped(e: Entry) {
    e.isDir || !HasSuffix(e.name, SUFFIX)
  }

  predicate Bad(e: Entry) {
    !Skipped(e) && (!ValidPolicyName(TrimSuffix(e.name, SUFFIX)) || e.content.None?)
  }

  predicate Good(e: Entry) {
    !Skipped(e) && !Bad(e)
  }

  /** The policies of the entries, in directory order. */
  function Found(entries: seq<Entry>): seq<Policy> {
    if entries == [] then []
    else
      var e := entries[|entries| - 1];
      Found(entries[..|entries| - 1]) + if Good(e) then [Policy(TrimSuffix(e.name, SUFFIX), e.content.value)] else []
  }

  /** A policy of the listing: a readable file of its name with the suffix, and a valid name. */
  predicate IsFile(e: Entry, p: Policy) {
    !e.isDir && e.name == p.name + ".yaml" && e.content == Some(p.content) && ValidPolicyName(p.name)
  }

  lemma GoodIsFile(e: Entry, p: Policy)
    ensures Good(e) && p == Policy(TrimSuffix(e.name, SUFFIX), if e.content.Some? then e.content.value else "") <==> IsFile(e, p)
  {
    if HasSuffix(e.name, SUFFIX) { assert e.name == TrimSuffix(e.name, SUFFIX) + ".yaml"; }
    if e.name == p.name + ".yaml" { assert e.name[|e.name| - 5..] == SUFFIX && e.name[..|e.name| - 5] == p.name; }
  }

  /** What is found in a listing: exactly the policies of its files. */
  lemma {:induction false} FoundMeaning(entries: seq<Entry>, p: Policy)
    ensures p in Found(entries) <==> exists i :: 0 <= i < |entries| && IsFile(entries[i], p)
  {
    if entries != [] {
      var n := |entries| - 1;
      FoundMeaning(entries[..n], p);
      GoodIsFile(entries[n], p);
      if i :| 0 <= i < |entries[..n]| && IsFile(entries[..n][i], p) { assert IsFile(entries[i], p); }
      if i :| 0 <= i < |entries| && IsFile(entries[i], p) && i != n { assert IsFile(entries[..n][i], p); }
    }
  }

  /** What makes a loader fail on a listing: a file with the suffix that is misnamed or unreadable. */
  lemma BadMeaning(e: Entry)
    ensures Bad(e) <==> !e.isDir && (exists name :: e.name == name + ".yaml") && !exists p :: IsFile(e, p)
  {
    if HasSuffix(e.name, SUFFIX) {
      var name := TrimSuffix(e.name, SUFFIX);
      assert e.name == name + ".yaml";
      var p := Policy(name, if e.content.Some? then e.content.value else "");
      GoodIsFile(e, p);
      forall q: Policy | IsFile(e, q) ensures q == p { GoodIsFile(e, q); }
    }
    if name :| e.name == name + ".yaml" { assert e.name[|e.name| - 5..] == SUFFIX; }
  }

  function NamesOf(ps: seq<Policy>): seq<string> {
    seq(|ps|, i requires 0 <= i < |ps| => ps[i].name)
  }

  predicate DistinctFiles(entries: seq<Entry>) {
    forall i, j :: 0 <= i < j < |entries| ==> entries[i].name != entries[j].name
  }

  lemma TrimInjective(a: string, b: string)
    requires HasSuffix(a, SUFFIX) && HasSuffix(b, SUFFIX)
    ensures TrimSuffix(a, SUFFIX) == TrimSuffix(b, SUFFIX) <==> a == b
  {
    assert a == TrimSuffix(a, SUFFIX) + SUFFIX && b == TrimSuffix(b, SUFFIX) + SUFFIX;
  }

  lemma {:induction false} FoundOrigin(entries: seq<Entry>, k: nat) returns (i: nat)
    requires k < |Found(entries)|
    ensures i < |entries| && Good(entries[i]) && Found(entries)[k].name == TrimSuffix(entries[i].name, SUFFIX)
  {
    var n := |entries| - 1;
    if k < |Found(entries[..n])| { i := FoundOrigin(entries[..n], k); } else { i := n; }
  }

  lemma NoDupSnoc(names: seq<string>, name: string)
    requires NoDup(names) && name !in names
    ensures NoDup(names + [name])
  {
  }

  lemma {:induction false} FoundDistinct(entries: seq<Entry>)
    requires DistinctFiles(entries)
    ensures NoDup(NamesOf(Found(entries)))
  {
    if entries != [] {
      var n := |entries| - 1;
      var rest := Found(entries[..n]);
      FoundDistinct(entries[..n]);
      if Good(entries[n]) {
        var name := TrimSuffix(entries[n].name, SUFFIX);
        forall k | 0 <= k < |rest| ensures NamesOf(rest)[k] != name {
          var i := FoundOrigin(entries[..n], k);
          TrimInjective(entries[i].name, entries[n].name);
        }
        NoDupSnoc(NamesOf(rest), name);
        assert NamesOf(Found(entries)) == NamesOf(rest) + [name];
      } else {
        assert Found(entries) == rest;
      }
    }
  }

  /** The ruleset filed last under a name; "" for a name that is not there. */
  function ContentOf(ps: seq<Policy>, name: string): string {
    if ps == [] then ""
    else if ps[|ps| - 1].name == name then ps[|ps| - 1].content
    else ContentOf(ps[..|ps| - 1], name)
  }

  /** On distinct names each policy is found under its own. */
  lemma {:induction false} ContentAt(ps: seq<Policy>, k: nat)
    requires NoDup(NamesOf(ps)) && k < |ps|
    ensures ContentOf(ps, ps[k].name) == ps[k].content
  {
    var n := |ps| - 1;
    if k < n {
      assert NamesOf(ps)[k] != NamesOf(ps)[n];
      assert NamesOf(ps[..n]) == NamesOf(ps)[..n];
      ContentAt(ps[..n], k);
    }
  }

  // ---- What both routes must return ----

  predicate SortedByName(ps: seq<Policy>) {
    StrictlySorted(NamesOf(ps))
  }

  /** The listing's policies, each once, in strict name order. */
  ghost predicate Sorts(out: seq<Policy>, found: seq<Policy>) {
    SortedByName(out) && forall p :: p in out <==> p in found
  }

  lemma NamesOfElements(ps: seq<Policy>, x: string)
    ensures x in Elements(NamesOf(ps)) <==> exists i :: 0 <= i < |ps| && ps[i].name == x
  {
    if i :| 0 <= i < |ps| && ps[i].name == x { assert NamesOf(ps)[i] == x; }
    if x in Elements(NamesOf(ps)) {
      var i :| 0 <= i < |NamesOf(ps)| && NamesOf(ps)[i] == x;
      assert ps[i].name == x;
    }
  }

  lemma SameNames(a: seq<Policy>, b: seq<Policy>)
    requires forall p :: p in a <==> p in b
    ensures Elements(NamesOf(a)) == Elements(NamesOf(b))
  {
    forall x: string ensures x in Elements(NamesOf(a)) <==> x in Elements(NamesOf(b)) {
      NamesOfElements(a, x);
      NamesOfElements(b, x);
      if i :| 0 <= i < |a| && a[i].name == x { assert a[i] in b; }
      if i :| 0 <= i < |b| && b[i].name == x { assert b[i] in a; }
    }
  }

  /** Strictly sorted by name and holding the same policies leaves no choice at all. */
  lemma SortsIsUnique(a: seq<Policy>, b: seq<Policy>, found: seq<Policy>)
    requires Sorts(a, found) && Sorts(b, found)
    ensures a == b
  {
    SameNames(a, b);
    SortedIsUnique(NamesOf(a), NamesOf(b));
    assert |a| == |NamesOf(a)| == |NamesOf(b)| == |b|;
    forall i | 0 <= i < |a| ensures a[i] == b[i] {
      assert a[i] in b;
      var j :| 0 <= j < |b| && b[j] == a[i];
      assert NamesOf(b)[j] == NamesOf(a)[i] == NamesOf(b)[i];
      LessIrreflexive(NamesOf(b)[i]);
      assert i == j;
    }
  }

  /** sort.Slice by name: some strictly ordered arrangement of the same policies. */
  method SortByName(ps: seq<Policy>) returns (out: seq<Policy>)
    requires NoDup(NamesOf(ps))
    ensures Sorts(out, ps)
  {
    var names := Sort(NamesOf(ps));
    SortSorts(NamesOf(ps));
    out := seq(|names|, i requires 0 <= i < |names| => Policy(names[i], ContentOf(ps, names[i])));
    assert NamesOf(out) == names;
    forall p: Policy ensures p in out <==> p in ps {
      NamesOfElements(ps, p.name);
      if p in ps {
        var k :| 0 <= k < |ps| && ps[k] == p;
        ContentAt(ps, k);
        assert p.name in Elements(names);
        var i :| 0 <= i < |names| && names[i] == p.name;
        assert out[i] == p;
      }
      if p in out {
        var i :| 0 <= i < |out| && out[i] == p;
        assert names[i] in Elements(names);
        var k :| 0 <= k < |ps| && ps[k].name == p.name;
        ContentAt(ps, k);
      }
    }
  }

  // ---- The command line's route ----

  predicate NoneBad(entries: seq<Entry>) {
    forall i :: 0 <= i < |entries| ==> !Bad(entries[i])
  }

  /** Both routes fail exactly here: no listing, a bad file, or no policy at all. */
  predicate Rejected(listing: Option<seq<Entry>>) {
    listing.None? || !NoneBad(listing.value) || Found(listing.value) == []
  }

  predicate DistinctListing(listing: Option<seq<Entry>>) {
    listing.Some? ==> DistinctFiles(listing.value)
  }

  /** What a loader owes: an error when the listing is rejected, otherwise its policies in strict name order. */
  ghost predicate Owed(r: Option<seq<Policy>>, listing: Option<seq<Entry>>) {
    && (r.None? <==> Rejected(listing))
    && (r.Some? ==> Sorts(r.value, Found(listing.value)))
  }

  lemma FoundSnoc(entries: seq<Entry>, n: nat)
    requires n < |entries|
    ensures Found(entries[..n + 1]) == Found(entries[..n])
      + if Good(entries[n]) then [Policy(TrimSuffix(entries[n].name, SUFFIX), entries[n].content.value)] else []
    ensures NoneBad(entries[..n + 1]) <==> NoneBad(entries[..n]) && !Bad(entries[n])
  {
    assert entries[..n + 1][..n] == entries[..n] && entries[..n + 1] == entries[..n] + [entries[n]];
  }

  method LoadPoliciesFromDir(listing: Option<seq<Entry>>) returns (r: Option<seq<Policy>>)
    requires DistinctListing(listing)
    ensures Owed(r, listing)
  {
    if listing.None? { return None; }
    var entries := listing.value;
    var policies: seq<Policy> := [];
    for n := 0 to |entries|
      invariant policies == Found(entries[..n]) && NoneBad(entries[..n])
    {
      var e := entries[n];
      FoundSnoc(entries, n);
      if e.isDir || !HasSuffix(e.name, SUFFIX) { continue; }
      var name := TrimSuffix(e.name, SUFFIX);
      if !ValidPolicyName(name) { return None; }
      if e.content.None? { return None; }
      policies := policies + [Policy(name, e.content.value)];
    }
    assert entries[..|entries|] == entries;
    if policies == [] { return None; }
    FoundDistinct(entries);
    var out := SortByName(policies);
    r := Some(out);
  }

  // ---- The client's route ----

  ghost predicate Carries(m: map<string, string>, ps: seq<Policy>) {
    forall p: Policy :: p in ps <==> p.name in m && m[p.name] == p.content
  }

  lemma CarriesSnoc(m: map<string, string>, ps: seq<Policy>, p: Policy)
    requires Carries(m, ps) && p.name !in m
    ensures Carries(m[p.name := p.content], ps + [p])
  {
  }

  lemma NewName(entries: seq<Entry>, n: nat, m: map<string, string>)
    requires DistinctFiles(entries) && n < |entries| && Good(entries[n]) && Carries(m, Found(entries[..n]))
    ensures TrimSuffix(entries[n].name, SUFFIX) !in m
  {
    var name := TrimSuffix(entries[n].name, SUFFIX);
    if name in m {
      assert Policy(name, m[name]) in Found(entries[..n]);
      var k :| 0 <= k < |Found(entries[..n])| && Found(entries[..n])[k] == Policy(name, m[name]);
      var i := FoundOrigin(entries[..n], k);
      TrimInjective(entries[i].name, entries[n].name);
    }
  }

  method LoadPolicyDir(listing: Option<seq<Entry>>) returns (r: Option<map<string, string>>)
    requires DistinctListing(listing)
    ensures r.None? <==> Rejected(listing)
    ensures r.Some? ==> Carries(r.value, Found(listing.value))
  {
    if listing.None? { return None; }
    var entries := listing.value;
    var policies: map<string, string> := map[];
    for n := 0 to |entries|
      invariant Carries(policies, Found(entries[..n])) && NoneBad(entries[..n])
    {
      var e := entries[n];
      FoundSnoc(entries, n);
      if e.isDir || !HasSuffix(e.name, SUFFIX) { continue; }
      var name := TrimSuffix(e.name, SUFFIX);
      if !ValidPolicyName(name) { return None; }
      if e.content.None? { return None; }
      NewName(entries, n, policies);
      CarriesSnoc(policies, Found(entries[..n]), Policy(name, e.content.value));
      policies := policies[name := e.content.value];
    }
    assert entries[..|entries|] == entries;
    CarriesNothing(policies, Found(entries));
    if |policies| == 0 { return None; }
    r := Some(policies);
  }

  lemma CarriesNothing(m: map<string, string>, ps: seq<Policy>)
    requires Carries(m, ps)
    ensures |m| == 0 <==> ps == []
  {
    if ps != [] { assert ps[0].name in m; }
    if |m| != 0 {
      var name :| name in m;
      assert Policy(name, m[name]) in ps;
    }
  }

  /** The names of the map, in whatever order it yields them. */
  method AnyOrder(m: map<string, string>) returns (names: seq<string>)
    ensures NoDup(names) && Elements(names) == m.Keys
  {
    names := [];
    var rest := m.Keys;
    while rest != {}
      invariant NoDup(names) && rest <= m.Keys && Elements(names) == m.Keys - rest
      decreases |rest|
    {
      var name :| name in rest;
      assert forall i :: 0 <= i < |names| ==> names[i] in Elements(names);
      ElementsSnoc(names, name);
      names, rest := names + [name], rest - {name};
    }
  }

  method PoliciesFromMap(m: map<string, string>) returns (out: seq<Policy>)
    ensures SortedByName(out) && Carries(m, out)
  {
    if |m| == 0 { return []; }
    var names := AnyOrder(m);
    SortSorts(names);
    names := Sort(names);
    assert forall i :: 0 <= i < |names| ==> names[i] in Elements(names);
    out := [];
    for n := 0 to |names|
      invariant |out| == n && forall i :: 0 <= i < n ==> out[i] == Policy(names[i], m[names[i]])
    {
      out := out + [Policy(names[n], m[names[n]])];
    }
    assert NamesOf(out) == names;
    forall p: Policy ensures p in out <==> p.name in m && m[p.name] == p.content {
      if p.name in m && m[p.name] == p.content {
        assert p.name in Elements(names);
        var i :| 0 <= i < |names| && names[i] == p.name;
        assert out[i] == p;
      }
    }
  }

  /**
   * The two loaders agree: for every listing of distinct files, and in whatever order the map yields its
   * names, both routes fail or both give the same list, the listing's policies in strict name order.
   */
  method BothRoutes(listing: Option<seq<Entry>>) returns (cli: Option<seq<Policy>>, client: Option<seq<Policy>>)
    requires DistinctListing(listing)
    ensures cli == client && Owed(cli, listing)
  {
    cli := LoadPoliciesFromDir(listing);
    var m := LoadPolicyDir(listing);
    if m.None? { return cli, None; }
    var out := PoliciesFromMap(m.value);
    client := Some(out);
    SortsIsUnique(cli.value, out, Found(listing.value));
  }
}
