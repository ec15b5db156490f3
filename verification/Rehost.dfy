/** Rewriting the CDP host in a Job's arguments: what strings.ReplaceAll does to `base:9222` and its neighbours. */
module Rehost {
  import opened Manifests

  predicate Digit(c: char) {
    '0' <= c <= '9'
  }

  predicate Decimal(s: string) {
    s != "" && forall c :: c in s ==> Digit(c)
  }

  /** Counted from the end, the host and the word localhost differ in some character: neither ends in the other. */
  predicate UnlikeLocalhost(base: string) {
    exists k :: 0 < k <= 9 && DiffersAt(base, k)
  }

  predicate DiffersAt(base: string, k: int) {
    0 < k <= 9 && k <= |base| && base[|base| - k] != "localhost"[9 - k]
  }

  /** One word, not starting with a digit. */
  predicate OneWord(base: string) {
    base != "" && (forall c :: c in base ==> c != ':' && c != '-') && !Digit(base[0])
  }

  /** A host name like the presets' "chrome" and "firefox". */
  predicate PlainHost(base: string) {
    OneWord(base) && UnlikeLocalhost(base)
  }

  lemma PresetsArePlain()
    ensures PlainHost("chrome") && PlainHost("firefox")
  {
    assert DiffersAt("chrome", 1) && DiffersAt("firefox", 1);
  }

  const LOCALHOST := "localhost:9222"

  /** Occurrences of p in s, at any position. */
  function Count(s: string, p: string): nat {
    if s == "" then 0 else (if p <= s then 1 else 0) + Count(s[1..], p)
  }

  /** The two texts differ at some common position, so neither can begin where the other begins. */
  predicate Clash(a: string, b: string) {
    exists k :: 0 <= k < |a| && k < |b| && a[k] != b[k]
  }

  /** No occurrence of p can begin before an occurrence of a and reach into it. */
  predicate TailsClash(p: string, a: string) {
    forall i :: 0 < i < |p| ==> Clash(p[i..], a)
  }

  /** No occurrence of p can overlap an occurrence of `old_` or `new_`, except by coinciding with it. */
  predicate Apart(p: string, old_: string, new_: string) {
    && p != ""
    && (p == old_ || Clash(p, old_)) && (p == new_ || Clash(p, new_))
    && TailsClash(p, old_) && TailsClash(p, new_)
    && (forall j :: 0 < j < |old_| ==> Clash(old_[j..], p))
    && (forall j :: 0 < j < |new_| ==> Clash(new_[j..], p))
  }

  lemma ClashNoPrefix(v: string, a: string, t: string)
    requires Clash(v, a) && a <= t
    ensures !(v <= t)
  {
    var k :| 0 <= k < |v| && k < |a| && v[k] != a[k];
    assert a[k] == t[k];
  }

  lemma PrefixCons(c: char, v: string, t: string)
    requires t != ""
    ensures [c] + v <= t <==> c == t[0] && v <= t[1..]
  {
    assert t == [t[0]] + t[1..];
  }

  lemma FrontKept(s: string, p: string, tail: string)
    requires s != "" && p != "" && (p[1..] <= tail <==> p[1..] <= s[1..])
    ensures p <= [s[0]] + tail <==> p <= s
  {
    var out := [s[0]] + tail;
    assert out[1..] == tail && p == [p[0]] + p[1..];
    PrefixCons(p[0], p[1..], s);
    PrefixCons(p[0], p[1..], out);
  }

  /** Whether a proper suffix of p comes next is not changed by the replacement. */
  lemma {:induction false} SuffixKept(t: string, p: string, i: nat, old_: string, new_: string)
    requires TailsClash(p, old_) && TailsClash(p, new_) && old_ != "" && 0 < i <= |p|
    ensures p[i..] <= ReplaceAll(t, old_, new_) <==> p[i..] <= t
    decreases |p| - i
  {
    if i < |p| && t != "" {
      var out := ReplaceAll(t, old_, new_);
      if old_ <= t {
        assert Clash(p[i..], old_) && Clash(p[i..], new_) && new_ <= out;
        ClashNoPrefix(p[i..], old_, t);
        ClashNoPrefix(p[i..], new_, out);
      } else {
        SuffixKept(t[1..], p, i + 1, old_, new_);
        assert p[i..][1..] == p[i + 1..];
        FrontKept(t, p[i..], ReplaceAll(t[1..], old_, new_));
      }
    }
  }

  /** Counting past a piece no occurrence can begin inside of. */
  lemma {:induction false} CountSkip(a: string, x: string, p: string, j: nat)
    requires j <= |a| && forall k :: j <= k < |a| ==> Clash(a[k..], p)
    ensures Count(a[j..] + x, p) == Count(x, p)
    decreases |a| - j
  {
    if j < |a| {
      CountSkip(a, x, p, j + 1);
      assert (a[j..] + x)[1..] == a[j + 1..] + x;
      var k :| 0 <= k < |a[j..]| && k < |p| && a[j..][k] != p[k];
      assert (a[j..] + x)[k] != p[k];
    } else {
      assert a[j..] + x == x;
    }
  }

  lemma CountFirst(a: string, x: string, p: string)
    requires a != "" && forall k :: 0 < k < |a| ==> Clash(a[k..], p)
    ensures Count(a + x, p) == (if p <= a + x then 1 else 0) + Count(x, p)
  {
    assert (a + x)[1..] == a[1..] + x;
    CountSkip(a, x, p, 1);
  }

  lemma ReplaceFront(s: string, p: string, old_: string, new_: string)
    requires old_ != "" && new_ != "" && Apart(p, old_, new_) && Apart(old_, old_, new_) && old_ <= s
    ensures var rest := s[|old_|..];
      && Count(s, p) == (if p == old_ then 1 else 0) + Count(rest, p)
      && Count(s, old_) == 1 + Count(rest, old_)
      && Count(ReplaceAll(s, old_, new_), p) == (if p == new_ then 1 else 0) + Count(ReplaceAll(rest, old_, new_), p)
  {
    var rest := s[|old_|..];
    var out := ReplaceAll(rest, old_, new_);
    assert s == old_ + rest && ReplaceAll(s, old_, new_) == new_ + out;
    CountFirst(old_, rest, p);
    CountFirst(old_, rest, old_);
    CountFirst(new_, out, p);
    if p != old_ { ClashNoPrefix(p, old_, s); }
    if p != new_ { ClashNoPrefix(p, new_, new_ + out); }
  }

  lemma ReplaceBack(s: string, p: string, old_: string, new_: string)
    requires old_ != "" && Apart(p, old_, new_) && s != "" && !(old_ <= s)
    ensures ReplaceAll(s, old_, new_) == [s[0]] + ReplaceAll(s[1..], old_, new_)
    ensures p <= ReplaceAll(s, old_, new_) <==> p <= s
  {
    SuffixKept(s[1..], p, 1, old_, new_);
    FrontKept(s, p, ReplaceAll(s[1..], old_, new_));
  }

  /** Every occurrence of `old_` becomes one of `new_`; an apart pattern is otherwise neither made nor broken. */
  lemma {:induction false} ReplaceCounts(s: string, p: string, old_: string, new_: string)
    requires old_ != "" && new_ != "" && Apart(p, old_, new_) && Apart(old_, old_, new_)
    ensures Count(ReplaceAll(s, old_, new_), p) + (if p == old_ then Count(s, old_) else 0)
         == Count(s, p) + (if p == new_ then Count(s, old_) else 0)
    decreases |s|
  {
    if s == "" {
    } else if old_ <= s {
      ReplaceFront(s, p, old_, new_);
      ReplaceCounts(s[|old_|..], p, old_, new_);
    } else {
      ReplaceBack(s, p, old_, new_);
      ReplaceCounts(s[1..], p, old_, new_);
    }
  }

  lemma {:induction false} NothingToReplace(s: string, old_: string, new_: string)
    requires old_ != "" && Count(s, old_) == 0
    ensures ReplaceAll(s, old_, new_) == s
    decreases |s|
  {
    if s != "" { NothingToReplace(s[1..], old_, new_); }
  }

  // ---- The hosts in question ----

  lemma OldShape(base: string)
    requires PlainHost(base)
    ensures var o := CdpHost(base);
      |o| == |base| + 5 && o[|base|] == ':'
      && (forall k :: 0 <= k < |base| ==> o[k] == base[k] && o[k] != ':' && o[k] != '-')
      && (forall k :: |base| < k < |o| ==> Digit(o[k]))
  {
    var o, port := CdpHost(base), ":9222";
    forall k | 0 <= k < |base| ensures o[k] == base[k] && o[k] != ':' && o[k] != '-' {
      assert base[k] in base;
    }
    forall k | |base| < k < |o| ensures Digit(o[k]) {
      assert o[k] == port[k - |base|];
    }
  }

  lemma NewShape(base: string, tag: string)
    requires PlainHost(base) && Decimal(tag)
    ensures var n := CdpHost(VersionedName(base, tag));
      |n| == |base| + |tag| + 6 && n[|base|] == '-'
      && (forall k :: 0 <= k < |base| ==> n[k] == base[k] && n[k] != ':' && n[k] != '-')
      && (forall k :: |base| < k < |n| ==> Digit(n[k]) || n[k] == ':')
  {
    var n, port, m := CdpHost(VersionedName(base, tag)), ":9222", |base| + 1 + |tag|;
    forall k | 0 <= k < |base| ensures n[k] == base[k] && n[k] != ':' && n[k] != '-' {
      assert base[k] in base;
    }
    forall k | |base| < k < |n| ensures Digit(n[k]) || n[k] == ':' {
      if k < m { assert n[k] == tag[k - |base| - 1] && n[k] in tag; } else { assert n[k] == port[k - m]; }
    }
  }

  lemma LocalShape()
    ensures |LOCALHOST| == 14 && LOCALHOST[8] == 't' && LOCALHOST[9] == ':'
    ensures forall k :: 0 <= k < 9 ==> LOCALHOST[k] != ':' && LOCALHOST[k] != '-' && !Digit(LOCALHOST[k])
    ensures forall k :: 9 < k < 14 ==> Digit(LOCALHOST[k])
    ensures forall k :: 0 <= k < 9 ==> LOCALHOST[k] == "localhost"[k]
  {
    var h, port := "localhost", ":9222";
    assert LOCALHOST == h + port;
  }

  lemma OldInside(base: string, tag: string, j: nat)
    requires PlainHost(base) && Decimal(tag) && 0 < j < |CdpHost(base)|
    ensures Clash(CdpHost(base)[j..], CdpHost(base))
    ensures Clash(CdpHost(base)[j..], CdpHost(VersionedName(base, tag)))
  {
    var o, n := CdpHost(base), CdpHost(VersionedName(base, tag));
    OldShape(base);
    NewShape(base, tag);
    var k := if j < |base| then |base| - j else 0;
    assert o[j..][k] != o[k] && o[j..][k] != n[k];
  }

  lemma NewInside(base: string, tag: string, j: nat)
    requires PlainHost(base) && Decimal(tag) && 0 < j < |CdpHost(VersionedName(base, tag))|
    ensures Clash(CdpHost(VersionedName(base, tag))[j..], CdpHost(base))
    ensures Clash(CdpHost(VersionedName(base, tag))[j..], CdpHost(VersionedName(base, tag)))
  {
    var o, n := CdpHost(base), CdpHost(VersionedName(base, tag));
    OldShape(base);
    NewShape(base, tag);
    var k := if j < |base| then |base| - j else 0;
    assert n[j..][k] != o[k] && n[j..][k] != n[k];
  }

  lemma OldAgainstLocal(base: string, j: nat)
    requires PlainHost(base) && j < |CdpHost(base)|
    ensures Clash(CdpHost(base)[j..], LOCALHOST)
  {
    var o := CdpHost(base);
    OldShape(base);
    LocalShape();
    var d :| 0 < d <= 9 && DiffersAt(base, d);
    var k := if j >= |base| then 0 else if |base| - j == 9 then 9 - d else if |base| - j < 9 then |base| - j else 9;
    assert o[j..][k] != LOCALHOST[k];
  }

  lemma NewAgainstLocal(base: string, tag: string, j: nat)
    requires PlainHost(base) && Decimal(tag) && j < |CdpHost(VersionedName(base, tag))|
    ensures Clash(CdpHost(VersionedName(base, tag))[j..], LOCALHOST)
  {
    var n := CdpHost(VersionedName(base, tag));
    NewShape(base, tag);
    LocalShape();
    var k := if j >= |base| then 0 else if |base| - j <= 9 then |base| - j else 9;
    assert n[j..][k] != LOCALHOST[k];
  }

  lemma LocalInside(base: string, tag: string, i: nat)
    requires PlainHost(base) && Decimal(tag) && i < |LOCALHOST|
    ensures Clash(LOCALHOST[i..], CdpHost(base)) && Clash(LOCALHOST[i..], CdpHost(VersionedName(base, tag)))
  {
    var o, n, l := CdpHost(base), CdpHost(VersionedName(base, tag)), LOCALHOST[i..];
    OldShape(base);
    NewShape(base, tag);
    LocalShape();
    var d :| 0 < d <= 9 && DiffersAt(base, d);
    var k := if i > 9 then 0 else if 9 - i == |base| then |base| - d else if 9 - i < |base| then 9 - i else |base|;
    assert l[k] != o[k];
    var m := if i > 9 then 0 else if 9 - i < |base| then 9 - i else |base|;
    assert l[m] != n[m];
  }

  lemma HostsAreApart(base: string, tag: string)
    requires PlainHost(base) && Decimal(tag)
    ensures var o, n := CdpHost(base), CdpHost(VersionedName(base, tag));
      Apart(o, o, n) && Apart(n, o, n) && Apart(LOCALHOST, o, n)
  {
    var o, n := CdpHost(base), CdpHost(VersionedName(base, tag));
    OldShape(base);
    NewShape(base, tag);
    assert o[|base|] != n[|base|];
    forall j | 0 < j < |o| ensures Clash(o[j..], o) && Clash(o[j..], n) && Clash(o[j..], LOCALHOST) {
      OldInside(base, tag, j);
      OldAgainstLocal(base, j);
    }
    forall j | 0 < j < |n| ensures Clash(n[j..], o) && Clash(n[j..], n) && Clash(n[j..], LOCALHOST) {
      NewInside(base, tag, j);
      NewAgainstLocal(base, tag, j);
    }
    forall i | 0 <= i < |LOCALHOST| ensures Clash(LOCALHOST[i..], o) && Clash(LOCALHOST[i..], n) {
      LocalInside(base, tag, i);
    }
    assert LOCALHOST[0..] == LOCALHOST;
  }

  lemma ReplaceMeaning(s: string, old_: string, new_: string, other: string)
    requires old_ != "" && new_ != "" && old_ != new_ && other != old_ && other != new_
    requires Apart(old_, old_, new_) && Apart(new_, old_, new_) && Apart(other, old_, new_)
    ensures var r := ReplaceAll(s, old_, new_);
      && Count(r, old_) == 0 && Count(r, new_) == Count(s, new_) + Count(s, old_)
      && Count(r, other) == Count(s, other) && ReplaceAll(r, old_, new_) == r
  {
    ReplaceCounts(s, old_, old_, new_);
    ReplaceCounts(s, new_, old_, new_);
    ReplaceCounts(s, other, old_, new_);
    NothingToReplace(ReplaceAll(s, old_, new_), old_, new_);
  }

  /**
   * Retargeting an argument: no occurrence of the base host is left, each one became a versioned host,
   * every `localhost:9222` is still there, and doing it again changes nothing.
   */
  lemma RehostedArg(s: string, base: string, tag: string)
    requires PlainHost(base) && Decimal(tag)
    ensures var o, n := CdpHost(base), CdpHost(VersionedName(base, tag)); var r := ReplaceAll(s, o, n);
      && Count(r, o) == 0
      && Count(r, n) == Count(s, n) + Count(s, o)
      && Count(r, LOCALHOST) == Count(s, LOCALHOST)
      && ReplaceAll(r, o, n) == r
  {
    HostsAreApart(base, tag);
    HostsDiffer(base, tag);
    ReplaceMeaning(s, CdpHost(base), CdpHost(VersionedName(base, tag)), LOCALHOST);
  }

  lemma HostsDiffer(base: string, tag: string)
    requires PlainHost(base) && Decimal(tag)
    ensures var o, n := CdpHost(base), CdpHost(VersionedName(base, tag)); o != n && LOCALHOST != o && LOCALHOST != n
  {
    OldShape(base);
    NewShape(base, tag);
    LocalShape();
    LocalInside(base, tag, 0);
    assert LOCALHOST[0..] == LOCALHOST;
  }

  // ---- Tags of any kind ----

  /** An occurrence of p that begins in a also ends in a. */
  predicate Closed(a: string, p: string) {
    forall j :: 0 <= j < |a| ==> p <= a[j..] || Clash(a[j..], p)
  }

  lemma {:induction false} CountJoin(a: string, x: string, p: string)
    requires Closed(a, p)
    ensures Count(a + x, p) == Count(a, p) + Count(x, p)
  {
    if a == "" {
      assert a + x == x;
    } else {
      assert a[0..] == a && (a + x)[1..] == a[1..] + x;
      assert forall j :: 0 <= j < |a[1..]| ==> a[1..][j..] == a[j + 1..];
      CountJoin(a[1..], x, p);
      if Clash(a, p) {
        ClashSwaps(a, p);
        ClashNoPrefix(p, a, a);
        ClashNoPrefix(p, a, a + x);
      }
    }
  }

  lemma ClashSwaps(a: string, b: string)
    requires Clash(a, b)
    ensures Clash(b, a)
  {
  }

  /** Every occurrence of `old_` turns into as many as `new_` holds. */
  lemma {:induction false} ReplaceTimes(s: string, old_: string, new_: string)
    requires old_ != "" && Closed(old_, old_) && Closed(new_, old_) && Count(old_, old_) == 1
    requires TailsClash(old_, old_) && TailsClash(old_, new_)
    ensures Count(ReplaceAll(s, old_, new_), old_) == Count(s, old_) * Count(new_, old_)
    decreases |s|
  {
    if s == "" {
    } else if old_ <= s {
      var rest := s[|old_|..];
      assert s == old_ + rest;
      CountJoin(old_, rest, old_);
      CountJoin(new_, ReplaceAll(rest, old_, new_), old_);
      ReplaceTimes(rest, old_, new_);
    } else {
      SuffixKept(s[1..], old_, 1, old_, new_);
      FrontKept(s, old_, ReplaceAll(s[1..], old_, new_));
      ReplaceTimes(s[1..], old_, new_);
    }
  }

  /** What ends in the port holds a host either whole or not at all. */
  lemma PortCloses(base: string, a: string)
    requires OneWord(base)
    ensures Closed(a + ":9222", CdpHost(base))
  {
    var n, o, port := a + ":9222", CdpHost(base), ":9222";
    WordShape(base);
    forall j | 0 <= j < |n| ensures o <= n[j..] || Clash(n[j..], o) {
      var v := n[j..];
      if |v| < |o| {
        var k := if |v| < 5 then 0 else |v| - 5;
        assert v[k] == port[5 - (|v| - k)];
        assert v[k] != o[k];
      } else if !(o <= v) {
        assert o != v[..|o|];
        var k :| 0 <= k < |o| && o[k] != v[..|o|][k];
        assert v[k] != o[k];
      }
    }
  }

  lemma WordShape(base: string)
    requires OneWord(base)
    ensures var o := CdpHost(base);
      |o| == |base| + 5 && o[|base|] == ':' && !Digit(o[0])
      && (forall k :: 0 <= k < |base| ==> o[k] == base[k] && o[k] != ':' && o[k] != '-')
      && (forall k :: |base| < k < |o| ==> Digit(o[k]))
  {
    var o, port := CdpHost(base), ":9222";
    assert forall k :: 0 <= k < |base| ==> o[k] == base[k] && base[k] in base;
    assert forall k :: |base| <= k < |o| ==> o[k] == port[k - |base|];
  }

  /** Nothing that reaches into a versioned host's name, or into the host itself, is the host. */
  lemma HostTailsClash(base: string, tag: string)
    requires OneWord(base)
    ensures TailsClash(CdpHost(base), CdpHost(base)) && TailsClash(CdpHost(base), CdpHost(VersionedName(base, tag)))
  {
    var o, n := CdpHost(base), CdpHost(VersionedName(base, tag));
    WordShape(base);
    assert n == base + ("-" + tag + ":9222");
    forall i | 0 < i < |o| ensures Clash(o[i..], o) && Clash(o[i..], n) {
      var k := if i < |base| then |base| - i else 0;
      assert o[i..][k] != o[k] && o[i..][k] != n[k];
    }
  }

  lemma HostHoldsItself(base: string)
    requires OneWord(base)
    ensures Count(CdpHost(base), CdpHost(base)) == 1
  {
    var o := CdpHost(base);
    ShortHoldsNothing(o[1..], o);
  }

  lemma {:induction false} ShortHoldsNothing(s: string, p: string)
    requires |s| < |p|
    ensures Count(s, p) == 0
  {
    if s != "" { ShortHoldsNothing(s[1..], p); }
  }

  /** For any tag: each base host turns into as many as the versioned host holds. */
  lemma HostsLeft(s: string, base: string, tag: string)
    requires OneWord(base)
    ensures var o, n := CdpHost(base), CdpHost(VersionedName(base, tag));
      Count(ReplaceAll(s, o, n), o) == Count(s, o) * Count(n, o)
  {
    PortCloses(base, base);
    PortCloses(base, VersionedName(base, tag));
    HostTailsClash(base, tag);
    HostHoldsItself(base);
    ReplaceTimes(s, CdpHost(base), CdpHost(VersionedName(base, tag)));
  }

  /** No argument reaches the unversioned host any more. */
  ghost predicate LeavesNoHost(base: string, tag: string) {
    forall s: string :: Count(ReplaceAll(s, CdpHost(base), CdpHost(VersionedName(base, tag))), CdpHost(base)) == 0
  }

  lemma {:induction false} TailCount(x: string, s: string, p: string)
    requires forall i :: 0 <= i < |x| ==> Clash(x[i..], p)
    ensures Count(x + s, p) == Count(s, p)
  {
    assert x[0..] == x;
    CountSkip(x, s, p, 0);
  }

  /** Only the tag can bring the host back into the versioned host. */
  lemma HostsInVersioned(base: string, tag: string)
    requires OneWord(base)
    ensures Count(CdpHost(VersionedName(base, tag)), CdpHost(base)) == Count(CdpHost(tag), CdpHost(base))
  {
    var o, x := CdpHost(base), base + "-";
    WordShape(base);
    forall i | 0 <= i < |x| ensures Clash(x[i..], o) {
      assert x[i..][|base| - i] == '-' != o[|base| - i];
    }
    TailCount(x, CdpHost(tag), o);
    assert CdpHost(VersionedName(base, tag)) == x + CdpHost(tag);
  }

  /** For any tag: no base host is left, in any argument, exactly when the tag does not itself end in or name that host. */
  lemma NoHostIsLeft(base: string, tag: string)
    requires OneWord(base)
    ensures LeavesNoHost(base, tag) <==> Count(CdpHost(tag), CdpHost(base)) == 0
  {
    var o, n := CdpHost(base), CdpHost(VersionedName(base, tag));
    HostsInVersioned(base, tag);
    forall s: string ensures Count(ReplaceAll(s, o, n), o) == Count(s, o) * Count(CdpHost(tag), o) {
      HostsLeft(s, base, tag);
    }
    HostHoldsItself(base);
    assert LeavesNoHost(base, tag) ==> Count(ReplaceAll(o, o, n), o) == 0;
  }

  // ---- Which base hosts leave localhost alone ----

  predicate NoColon(s: string) {
    ':' !in s
  }

  /** Wherever a localhost:9222 stands, the rewrite passes over it as if it were not there. */
  ghost predicate SparesLocalhost(base: string, tag: string) {
    forall x: string, y: string :: Spared(x, y, CdpHost(base), CdpHost(VersionedName(base, tag)))
  }

  predicate Spared(x: string, y: string, old_: string, new_: string)
    requires old_ != ""
  {
    ReplaceAll(x + LOCALHOST + y, old_, new_) == ReplaceAll(x, old_, new_) + LOCALHOST + ReplaceAll(y, old_, new_)
  }

  /** Neither the host nor the word localhost ends in the other, and the host cannot begin inside the port. */
  predicate ClearOfLocalhost(base: string) {
    !HasSuffix(base, "localhost") && !HasSuffix("localhost", base) && !("2" <= base) && !("9222" <= base)
  }

  /** Not being unlike localhost is ending in it, or being its end. */
  lemma LikeLocalhost(base: string)
    requires !UnlikeLocalhost(base)
    ensures HasSuffix(base, "localhost") || HasSuffix("localhost", base)
  {
    var n := if |base| < 9 then |base| else 9;
    var a, b := base[|base| - n..], "localhost"[9 - n..];
    forall i | 0 <= i < n ensures a[i] == b[i] {
      assert !DiffersAt(base, n - i);
    }
    assert a == b;
    assert "localhost"[0..] == "localhost" && base[0..] == base;
  }

  lemma ClearDiffers(base: string)
    requires ClearOfLocalhost(base)
    ensures exists d :: DiffersAt(base, d)
  {
    if !UnlikeLocalhost(base) { LikeLocalhost(base); }
  }

  lemma HostShape(base: string)
    requires NoColon(base)
    ensures var o := CdpHost(base);
      |o| == |base| + 5 && o[..|base|] == base && o[|base|] == ':' && o[|base| + 1..] == "9222"
      && (forall k :: 0 <= k < |base| ==> o[k] == base[k] && o[k] != ':')
  {
    var o := CdpHost(base);
    assert o[|base|..] == ":9222";
    forall k | 0 <= k < |base| ensures o[k] == base[k] && o[k] != ':' {
      assert base[k] in base;
    }
  }

  /** No host begins before a localhost:9222 and reaches into it. */
  lemma HostAgainstLocal(base: string, j: nat)
    requires NoColon(base) && ClearOfLocalhost(base) && j < |CdpHost(base)|
    ensures Clash(CdpHost(base)[j..], LOCALHOST)
  {
    var o := CdpHost(base);
    HostShape(base);
    LocalShape();
    ClearDiffers(base);
    var d :| DiffersAt(base, d);
    var k := if j >= |base| then 0 else if |base| - j == 9 then 9 - d else if |base| - j < 9 then |base| - j else 9;
    assert o[j..][k] != LOCALHOST[k];
  }

  /** Nor does one begin inside of it. */
  lemma LocalAgainstHost(base: string, i: nat)
    requires NoColon(base) && ClearOfLocalhost(base) && i < 14
    ensures Clash(LOCALHOST[i..], CdpHost(base))
  {
    HostShape(base);
    LocalShape();
    if i <= 9 {
      var o := CdpHost(base);
      ClearDiffers(base);
      var d :| DiffersAt(base, d);
      var k := if 9 - i == |base| then |base| - d else if 9 - i < |base| then 9 - i else |base|;
      assert LOCALHOST[i..][k] != o[k];
    } else {
      PortAgainstHost(base, i);
    }
  }

  lemma PortAgainstHost(base: string, i: nat)
    requires NoColon(base) && base != "" && !("2" <= base) && !("9222" <= base) && 10 <= i < 14
    ensures Clash(LOCALHOST[i..], CdpHost(base))
  {
    var o, l, port := CdpHost(base), LOCALHOST[i..], "9222";
    HostShape(base);
    assert forall k :: 0 <= k < |l| ==> l[k] == port[i - 10 + k];
    if i > 10 {
      assert l[0] == '2' && o[0] == base[0];
      assert base == [base[0]] + base[1..];
      assert "2" == ['2'];
    } else {
      var k := DiffersEarly(port, base);
      assert l[k] != o[k];
    }
  }

  /** Four characters that do not begin a host differ from it, or from the colon behind it. */
  lemma DiffersEarly(port: string, base: string) returns (k: nat)
    requires |port| == 4 && NoColon(port) && NoColon(base) && !(port <= base)
    ensures k < 4 && k < |CdpHost(base)| && port[k] != CdpHost(base)[k]
  {
    HostShape(base);
    if |base| >= 4 {
      k :| 0 <= k < 4 && port[k] != base[..4][k];
    } else if i :| 0 <= i < |base| && port[i] != base[i] {
      k := i;
    } else {
      k := |base|;
      assert port[k] in port;
    }
  }

  lemma ClashBothWays(v: string, a: string, y: string)
    requires Clash(v, a)
    ensures !(a <= v + y)
  {
    var k :| 0 <= k < |v| && k < |a| && v[k] != a[k];
    assert (v + y)[k] == v[k];
  }

  /** Nothing is replaced inside a word in which no match begins. */
  lemma {:induction false} WordPasses(word: string, y: string, old_: string, new_: string)
    requires old_ != "" && forall i :: 0 <= i < |word| ==> Clash(word[i..], old_)
    ensures ReplaceAll(word + y, old_, new_) == word + ReplaceAll(y, old_, new_)
  {
    if word == "" {
      assert word + y == y;
    } else {
      var s := word + y;
      assert word[0..] == word;
      ClashBothWays(word, old_, y);
      assert forall i :: 0 <= i < |word[1..]| ==> word[1..][i..] == word[i + 1..];
      WordPasses(word[1..], y, old_, new_);
      assert s[1..] == word[1..] + y && s[0] == word[0];
      assert word == [word[0]] + word[1..];
    }
  }

  lemma LocalPasses(base: string, new_: string, y: string)
    requires NoColon(base) && ClearOfLocalhost(base)
    ensures ReplaceAll(LOCALHOST + y, CdpHost(base), new_) == LOCALHOST + ReplaceAll(y, CdpHost(base), new_)
  {
    LocalShape();
    forall i | 0 <= i < |LOCALHOST| ensures Clash(LOCALHOST[i..], CdpHost(base)) {
      LocalAgainstHost(base, i);
    }
    WordPasses(LOCALHOST, y, CdpHost(base), new_);
  }

  /** No host begins in the text before localhost:9222 and ends behind it. */
  lemma NoStraddle(base: string, x: string, y: string)
    requires NoColon(base) && ClearOfLocalhost(base) && |x| < |CdpHost(base)|
    ensures !(CdpHost(base) <= x + LOCALHOST + y)
  {
    var o, s := CdpHost(base), x + LOCALHOST + y;
    HostAgainstLocal(base, |x|);
    ClashSwaps(o[|x|..], LOCALHOST);
    ClashBothWays(LOCALHOST, o[|x|..], y);
    assert s[|x|..] == LOCALHOST + y;
    DropPrefix(o, s, |x|);
  }

  lemma DropPrefix(a: string, s: string, n: nat)
    requires n <= |a| && n <= |s|
    ensures a <= s ==> a[n..] <= s[n..]
  {
  }

  lemma MatchInFront(x: string, z: string, old_: string, new_: string)
    requires old_ != "" && old_ <= x
    ensures ReplaceAll(x + z, old_, new_) == new_ + ReplaceAll(x[|old_|..] + z, old_, new_)
  {
    assert old_ <= x + z && (x + z)[|old_|..] == x[|old_|..] + z;
  }

  lemma NoMatchInFront(x: string, z: string, old_: string, new_: string)
    requires old_ != "" && x != "" && !(old_ <= x + z)
    ensures ReplaceAll(x + z, old_, new_) == [x[0]] + ReplaceAll(x[1..] + z, old_, new_)
    ensures !(old_ <= x)
  {
    assert (x + z)[1..] == x[1..] + z;
    assert old_ <= x ==> old_ <= x + z;
  }

  lemma {:induction false} ClearSpares(base: string, new_: string, x: string, y: string)
    requires NoColon(base) && ClearOfLocalhost(base)
    ensures ReplaceAll(x + (LOCALHOST + y), CdpHost(base), new_)
         == ReplaceAll(x, CdpHost(base), new_) + (LOCALHOST + ReplaceAll(y, CdpHost(base), new_))
    decreases |x|
  {
    var o, z := CdpHost(base), LOCALHOST + y;
    if x == "" {
      LocalPasses(base, new_, y);
      assert x + z == z;
    } else if o <= x {
      MatchInFront(x, z, o, new_);
      ClearSpares(base, new_, x[|o|..], y);
    } else {
      NotInFront(base, x, y);
      NoMatchInFront(x, z, o, new_);
      ClearSpares(base, new_, x[1..], y);
    }
  }

  lemma NotInFront(base: string, x: string, y: string)
    requires NoColon(base) && ClearOfLocalhost(base) && !(CdpHost(base) <= x)
    ensures !(CdpHost(base) <= x + (LOCALHOST + y))
  {
    var o, z := CdpHost(base), LOCALHOST + y;
    assert x + LOCALHOST + y == x + z;
    if |x| < |o| { NoStraddle(base, x, y); } else { assert (x + z)[..|o|] == x[..|o|]; }
  }

  lemma {:induction false} CountPast(x: string, s: string, p: string)
    ensures Count(x + s, p) >= Count(s, p)
  {
    if x == "" {
      assert x + s == s;
    } else {
      assert (x + s)[1..] == x[1..] + s;
      CountPast(x[1..], s, p);
    }
  }

  /** A longer replacement shows. */
  lemma {:induction false} ReplaceGrows(s: string, old_: string, new_: string)
    requires old_ != "" && |new_| > |old_|
    ensures |ReplaceAll(s, old_, new_)| >= |s|
    ensures Count(s, old_) > 0 ==> |ReplaceAll(s, old_, new_)| > |s|
    decreases |s|
  {
    if s != "" { ReplaceGrows(if old_ <= s then s[|old_|..] else s[1..], old_, new_); }
  }

  /** If the base host overlaps a localhost:9222 with less than a host on either side, that one is not spared. */
  lemma OverlapIsNotSpared(base: string, tag: string, x: string, y: string, front: string, back: string)
    requires x + LOCALHOST + y == front + CdpHost(base) + back && |x| < |CdpHost(base)| && |y| < |CdpHost(base)|
    ensures !SparesLocalhost(base, tag)
  {
    var o, n, s := CdpHost(base), CdpHost(VersionedName(base, tag)), x + LOCALHOST + y;
    ShortHoldsNothing(x, o);
    ShortHoldsNothing(y, o);
    NothingToReplace(x, o, n);
    NothingToReplace(y, o, n);
    assert s == front + (o + back);
    CountPast(front, o + back, o);
    ReplaceGrows(s, o, n);
    assert !Spared(x, y, o, n);
  }

  lemma LocalIsHostAndPort()
    ensures LOCALHOST == "localhost" + ":9222" == "localhost:922" + "2" == "localhost:" + "9222"
  {
  }

  lemma HostEndsInWord(base: string, tag: string)
    requires HasSuffix(base, "localhost")
    ensures !SparesLocalhost(base, tag)
  {
    var x, l := base[..|base| - 9], "localhost";
    assert base == x + l;
    LocalIsHostAndPort();
    HostInText(x, l, base);
    OverlapIsNotSpared(base, tag, x, "", "", "");
  }

  lemma WordEndsInHost(base: string, tag: string)
    requires HasSuffix("localhost", base)
    ensures !SparesLocalhost(base, tag)
  {
    var l := "localhost";
    var front := l[..9 - |base|];
    assert l == front + base;
    LocalIsHostAndPort();
    HostInText(front, base, l);
    OverlapIsNotSpared(base, tag, "", "", front, "");
  }

  lemma HostInText(x: string, a: string, b: string)
    requires b == x + a
    ensures x + (a + ":9222") + "" == "" + (b + ":9222") + ""
  {
  }

  lemma PortOverlapsHost(base: string, tag: string, head: string, digits: string)
    requires digits <= base && digits != "" && LOCALHOST == head + digits
    ensures !SparesLocalhost(base, tag)
  {
    var y := base[|digits|..] + ":9222";
    assert base == digits + base[|digits|..];
    assert "" + LOCALHOST + y == head + CdpHost(base) + "";
    OverlapIsNotSpared(base, tag, "", y, head, "");
  }

  lemma NotClearIsNotSpared(base: string, tag: string)
    requires !ClearOfLocalhost(base)
    ensures !SparesLocalhost(base, tag)
  {
    LocalIsHostAndPort();
    if "2" <= base {
      PortOverlapsHost(base, tag, "localhost:922", "2");
    } else if "9222" <= base {
      PortOverlapsHost(base, tag, "localhost:", "9222");
    } else if HasSuffix(base, "localhost") {
      HostEndsInWord(base, tag);
    } else {
      WordEndsInHost(base, tag);
    }
  }

  /**
   * For every tag: the rewrite leaves every localhost:9222 alone, wherever it stands, exactly when the base host is
   * clear of it. (A host name has no colon.)
   */
  lemma LocalhostSurvives(base: string, tag: string)
    requires NoColon(base)
    ensures SparesLocalhost(base, tag) <==> ClearOfLocalhost(base)
  {
    if ClearOfLocalhost(base) {
      forall x: string, y: string ensures Spared(x, y, CdpHost(base), CdpHost(VersionedName(base, tag))) {
        ClearSpares(base, CdpHost(VersionedName(base, tag)), x, y);
        assert x + (LOCALHOST + y) == x + LOCALHOST + y;
      }
    } else {
      NotClearIsNotSpared(base, tag);
    }
  }

  lemma SuffixLast(s: string, suffix: string)
    requires HasSuffix(s, suffix) && suffix != ""
    ensures s[|s| - 1] == suffix[|suffix| - 1]
  {
    assert s[|s| - |suffix|..][|suffix| - 1] == s[|s| - 1];
  }

  /** A last letter other than localhost's is enough, for a host that begins with no digit of the port. */
  lemma LastLetterClears(base: string)
    requires base != "" && base[|base| - 1] != 't' && base[0] != '2' && base[0] != '9'
    ensures ClearOfLocalhost(base)
  {
    if HasSuffix(base, "localhost") { SuffixLast(base, "localhost"); }
    if HasSuffix("localhost", base) { SuffixLast("localhost", base); }
  }

  /** The presets do, whatever versions the command line names. */
  lemma PresetsSpareLocalhost(tag: string)
    ensures SparesLocalhost("chrome", tag) && SparesLocalhost("firefox", tag)
  {
    LastLetterClears("chrome");
    LastLetterClears("firefox");
    LocalhostSurvives("chrome", tag);
    LocalhostSurvives("firefox", tag);
  }

  /** A browser called "host" loses the header its smoke test sends, and "xlocalhost" would lose it inside its own name. */
  lemma HostLosesLocalhost(tag: string)
    ensures !SparesLocalhost("host", tag) && !SparesLocalhost("xlocalhost", tag)
  {
    var l, x := "localhost", "xlocalhost";
    assert l[9 - 4..] == "host" && x[10 - 9..] == l;
    LocalhostSurvives("host", tag);
    LocalhostSurvives("xlocalhost", tag);
  }
}
