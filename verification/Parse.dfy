/** Version lists: from the command line as strings, from a request as 32-bit numbers. */
module Parse {
  import opened Manifests
  import opened Matrix
  import opened Rehost

  /** unicode.IsSpace. */
  predicate Space(c: char) {
    var n := c as int;
    9 <= n <= 13 || n == 0x20 || n == 0x85 || n == 0xA0 || n == 0x1680 || 0x2000 <= n <= 0x200A
    || n == 0x2028 || n == 0x2029 || n == 0x202F || n == 0x205F || n == 0x3000
  }

  /** strings.TrimSpace. */
  function Trim(s: string): (t: string)
    ensures t != "" ==> !Space(t[0]) && !Space(t[|t| - 1])
  {
    if s == "" then ""
    else if Space(s[0]) then Trim(s[1..])
    else if Space(s[|s| - 1]) then Trim(s[..|s| - 1])
    else s
  }

  predicate Blank(s: string) {
    forall i :: 0 <= i < |s| ==> Space(s[i])
  }

  lemma Regroup(c: char, front: string, t: string, back: string)
    ensures [c] + (front + t + back) == ([c] + front) + t + back
    ensures (front + t + back) + [c] == front + t + (back + [c])
  {
  }

  lemma BlankMore(c: char, s: string)
    requires Space(c) && Blank(s)
    ensures Blank([c] + s) && Blank(s + [c])
  {
  }

  /** Only spaces are taken away, and only at the ends. */
  lemma {:induction false} TrimMeaning(s: string) returns (front: string, back: string)
    ensures s == front + Trim(s) + back && Blank(front) && Blank(back)
  {
    if s == "" {
      front, back := "", "";
    } else if Space(s[0]) {
      var x, y := TrimMeaning(s[1..]);
      Regroup(s[0], x, Trim(s[1..]), y);
      BlankMore(s[0], x);
      assert s == [s[0]] + s[1..];
      front, back := [s[0]] + x, y;
    } else if Space(s[|s| - 1]) {
      var x, y := TrimMeaning(s[..|s| - 1]);
      Regroup(s[|s| - 1], x, Trim(s[..|s| - 1]), y);
      BlankMore(s[|s| - 1], y);
      assert s == s[..|s| - 1] + [s[|s| - 1]];
      front, back := x, y + [s[|s| - 1]];
    } else {
      front, back := "", "";
      assert "" + s + "" == s;
    }
  }

  /** The trimmed tags that are not empty, in order. */
  function Tags(args: seq<string>): seq<string> {
    if args == [] then []
    else
      var t := Trim(args[|args| - 1]);
      Tags(args[..|args| - 1]) + if t == "" then [] else [t]
  }

  lemma TagsSnoc(args: seq<string>, n: nat)
    requires n < |args|
    ensures Tags(args[..n + 1]) == Tags(args[..n]) + if Trim(args[n]) == "" then [] else [Trim(args[n])]
  {
    assert args[..n + 1][..n] == args[..n];
  }

  lemma {:induction false} TagsPrefix(args: seq<string>, n: nat)
    requires n <= |args|
    ensures Tags(args[..n]) <= Tags(args)
    decreases |args|
  {
    var m := |args| - 1;
    if n < |args| {
      TagsPrefix(args[..m], n);
      assert args[..m][..n] == args[..n];
    } else {
      assert args[..n] == args;
    }
  }

  /** Each tag stands for one argument, in order, and the arguments left out are blank. */
  predicate StandFor(tags: seq<string>, args: seq<string>, at: seq<nat>) {
    && |at| == |tags|
    && (forall k :: 0 <= k < |at| ==> StandsAt(tags[k], args, at[k]))
    && (forall k, l :: 0 <= k < l < |at| ==> at[k] < at[l])
    && (forall i :: 0 <= i < |args| ==> i in at || Trim(args[i]) == "")
  }

  predicate StandsAt(tag: string, args: seq<string>, i: nat) {
    i < |args| && tag == Trim(args[i]) != ""
  }

  lemma StandForBlank(tags: seq<string>, args: seq<string>, at: seq<nat>, arg: string)
    requires StandFor(tags, args, at) && Trim(arg) == ""
    ensures StandFor(tags, args + [arg], at)
  {
    forall k | 0 <= k < |at| ensures StandsAt(tags[k], args + [arg], at[k]) {
      assert StandsAt(tags[k], args, at[k]);
    }
  }

  lemma StandForTag(tags: seq<string>, args: seq<string>, at: seq<nat>, arg: string)
    requires StandFor(tags, args, at) && Trim(arg) != ""
    ensures StandFor(tags + [Trim(arg)], args + [arg], at + [|args|])
  {
    var tags', args', at' := tags + [Trim(arg)], args + [arg], at + [|args|];
    forall k | 0 <= k < |at'| ensures StandsAt(tags'[k], args', at'[k]) {
      if k < |at| { assert StandsAt(tags[k], args, at[k]); }
    }
    forall k, l | 0 <= k < l < |at'| ensures at'[k] < at'[l] {
      assert StandsAt(tags[k], args, at[k]);
    }
    AllPlaced(args, at, arg);
  }

  lemma AllPlaced(args: seq<string>, at: seq<nat>, arg: string)
    requires forall i :: 0 <= i < |args| ==> i in at || Trim(args[i]) == ""
    ensures forall i :: 0 <= i < |args + [arg]| ==> i in at + [|args|] || Trim((args + [arg])[i]) == ""
  {
    forall i | 0 <= i < |args + [arg]| ensures i in at + [|args|] || Trim((args + [arg])[i]) == "" {
      assert (at + [|args|])[|at|] == |args|;
      if i < |args| { assert i in at || Trim(args[i]) == ""; }
    }
  }

  lemma {:induction false} TagsMeaning(args: seq<string>) returns (at: seq<nat>)
    ensures StandFor(Tags(args), args, at)
  {
    at := [];
    if args != [] {
      var n := |args| - 1;
      at := TagsMeaning(args[..n]);
      assert args[..n] + [args[n]] == args;
      if Trim(args[n]) == "" {
        StandForBlank(Tags(args[..n]), args[..n], at, args[n]);
      } else {
        StandForTag(Tags(args[..n]), args[..n], at, args[n]);
        at := at + [n];
      }
    }
  }

  /** An error exactly when nothing usable remains or a tag repeats; otherwise the tags as given. */
  method ParseVersions(args: seq<string>) returns (r: Option<seq<string>>)
    ensures r == if Tags(args) != [] && NoDup(Tags(args)) then Some(Tags(args)) else None
  {
    var seen: set<string> := {};
    var out: seq<string> := [];
    for n := 0 to |args|
      invariant out == Tags(args[..n]) && NoDup(out)
      invariant forall t :: t in seen <==> t in out
    {
      var t := Trim(args[n]);
      TagsSnoc(args, n);
      if t == "" { continue; }
      if t in seen {
        TagsPrefix(args, n + 1);
        Repeats(out, t, Tags(args));
        return None;
      }
      seen := seen + {t};
      out := out + [t];
    }
    assert args[..|args|] == args;
    if out == [] { return None; }
    r := Some(out);
  }

  lemma Repeats(out: seq<string>, t: string, tags: seq<string>)
    requires t in out && out + [t] <= tags
    ensures !NoDup(tags)
  {
    var i :| 0 <= i < |out| && out[i] == t;
    assert tags[i] == (out + [t])[i] && tags[|out|] == (out + [t])[|out|];
  }

  // ---- Numbers ----

  function DigitOf(d: nat): (c: char)
    requires d < 10
    ensures Digit(c)
  {
    ('0' as int + d) as char
  }

  /** strconv.Itoa. */
  function Itoa(n: int): (s: string)
    ensures s != "" && !Space(s[0]) && !Space(s[|s| - 1])
    ensures n >= 0 ==> Decimal(s)
    decreases if n < 0 then 1 - n else n
  {
    if n < 0 then "-" + Itoa(-n)
    else if n < 10 then [DigitOf(n)]
    else Itoa(n / 10) + [DigitOf(n % 10)]
  }

  /** The number a decimal text stands for. */
  function ValueOf(s: string): nat
    requires Decimal(s)
  {
    var d := s[|s| - 1];
    assert d in s;
    if |s| == 1 then d as int - '0' as int
    else
      assert forall c :: c in s[..|s| - 1] ==> c in s;
      10 * ValueOf(s[..|s| - 1]) + (d as int - '0' as int)
  }

  /** The text stands for the number, without leading zeros. */
  lemma {:induction false} ItoaValue(n: nat)
    ensures Decimal(Itoa(n)) && ValueOf(Itoa(n)) == n && (Itoa(n)[0] == '0' ==> n == 0 && |Itoa(n)| == 1)
  {
    if n >= 10 {
      ItoaValue(n / 10);
      assert Itoa(n)[..|Itoa(n)| - 1] == Itoa(n / 10);
    }
  }

  lemma ItoaNatInjective(m: nat, n: nat)
    requires Itoa(m) == Itoa(n)
    ensures m == n
  {
    ItoaValue(m);
    ItoaValue(n);
  }

  lemma ItoaNegInjective(m: int, n: int)
    requires m < 0 && n < 0 && Itoa(m) == Itoa(n)
    ensures m == n
  {
    NegativeText(m);
    NegativeText(n);
    ItoaNatInjective(-m, -n);
  }

  lemma NegativeText(n: int)
    requires n < 0
    ensures Itoa(n) != "" && Itoa(n)[1..] == Itoa(-n)
  {
  }

  lemma ItoaInjective(m: int, n: int)
    ensures Itoa(m) == Itoa(n) <==> m == n
  {
    if Itoa(m) == Itoa(n) {
      if (m < 0) != (n < 0) {
        SignsDiffer(m, n);
      } else if m < 0 {
        ItoaNegInjective(m, n);
      } else {
        ItoaNatInjective(m, n);
      }
    }
  }

  lemma SignsDiffer(m: int, n: int)
    requires (m < 0) != (n < 0)
    ensures Itoa(m) != Itoa(n)
  {
    var p, q := if m < 0 then m else n, if m < 0 then n else m;
    assert Itoa(p)[0] == '-' && Itoa(q)[0] in Itoa(q);
  }

  function Itoas(vs: seq<int>): seq<string> {
    seq(|vs|, i requires 0 <= i < |vs| => Itoa(vs[i]))
  }

  lemma TrimItoa(n: int)
    ensures Trim(Itoa(n)) == Itoa(n)
  {
  }

  lemma {:induction false} ItoasAreTags(vs: seq<int>)
    ensures Tags(Itoas(vs)) == Itoas(vs)
  {
    if vs != [] {
      var n := |vs| - 1;
      ItoasAreTags(vs[..n]);
      assert Itoas(vs)[..n] == Itoas(vs[..n]);
      TrimItoa(vs[n]);
      assert Itoas(vs) == Itoas(vs[..n]) + [Itoa(vs[n])];
    }
  }

  lemma ItoasKeepDuplicates(vs: seq<int>)
    ensures NoDup(Itoas(vs)) <==> NoDup(vs)
  {
    forall i, j | 0 <= i < j < |vs| ensures Itoas(vs)[i] == Itoas(vs)[j] <==> vs[i] == vs[j] {
      ItoaInjective(vs[i], vs[j]);
    }
    if !NoDup(vs) {
      var i, j :| 0 <= i < j < |vs| && vs[i] == vs[j];
      assert Itoas(vs)[i] == Itoas(vs)[j];
    }
  }

  /** An error exactly on an empty list or a repeated number; otherwise one distinct tag per number, in order. */
  method ParseInts(vs: seq<int>) returns (r: Option<seq<string>>)
    ensures r.Some? <==> vs != [] && NoDup(vs)
    ensures r.Some? ==> r.value == Itoas(vs) && NoDup(r.value)
  {
    var raw: seq<string> := [];
    for i := 0 to |vs|
      invariant raw == Itoas(vs[..i])
    {
      assert Itoas(vs[..i + 1]) == Itoas(vs[..i]) + [Itoa(vs[i])];
      raw := raw + [Itoa(vs[i])];
    }
    assert vs[..|vs|] == vs;
    ItoasAreTags(vs);
    ItoasKeepDuplicates(vs);
    r := ParseVersions(raw);
  }
}
