/** The report's grouping applied to what `Run` returns: it changes nothing. */
module Rendering {
  import opened Report
  import opened Matrix
  import opened Grouping

  lemma LabelsSplit(rs: seq<Result>, a: seq<Label>, b: seq<Label>)
    requires LabelsOf(rs) == a + b
    ensures |rs| == |a| + |b| && rs == rs[..|a|] + rs[|a|..]
    ensures LabelsOf(rs[..|a|]) == a && LabelsOf(rs[|a|..]) == b
  {
    assert |LabelsOf(rs)| == |rs|;
    forall i | 0 <= i < |a| ensures LabelsOf(rs[..|a|])[i] == a[i] { assert LabelsOf(rs)[i] == a[i]; }
    forall i | 0 <= i < |b| ensures LabelsOf(rs[|a|..])[i] == b[i] { assert LabelsOf(rs)[|a| + i] == b[i]; }
  }

  lemma {:induction false} BlockIsGrouped(rs: seq<Result>, policy: string, browsers: seq<Browser>)
    requires LabelsOf(rs) == Block(policy, browsers) && DistinctBrowsers(browsers)
    ensures Grouped(rs, ByBrowser) == rs
    decreases |browsers|
  {
    if browsers == [] {
      assert rs == [];
    } else {
      var n := |browsers| - 1;
      var m := |Block(policy, browsers[..n])|;
      LabelsSplit(rs, Block(policy, browsers[..n]), Row(policy, browsers[n]));
      var a, b := rs[..m], rs[m..];
      BlockIsGrouped(a, policy, browsers[..n]);
      forall i | 0 <= i < |b| ensures KeyAt(ByBrowser, b[i]) == browsers[n].name { assert LabelsOf(b)[i] == Row(policy, browsers[n])[i]; }
      OneKeyIsGrouped(b, ByBrowser, browsers[n].name);
      forall i | 0 <= i < |a| ensures KeyAt(ByBrowser, a[i]) != browsers[n].name {
        assert LabelsOf(a)[i] == LabelOf(a[i]);
        var j := BlockLabel(policy, browsers[..n], i);
      }
      GroupedConcat(a, b, ByBrowser);
    }
  }

  lemma BlockHasOnePolicy(rs: seq<Result>, policy: string, browsers: seq<Browser>)
    requires LabelsOf(rs) == Block(policy, browsers)
    ensures forall i :: 0 <= i < |rs| ==> KeyAt(ByPolicy, rs[i]) == policy
  {
    forall i | 0 <= i < |rs| ensures KeyAt(ByPolicy, rs[i]) == policy {
      assert LabelsOf(rs)[i] == LabelOf(rs[i]);
      var _ := BlockLabel(policy, browsers, i);
    }
  }

  /** Cut the last policy's block off. */
  lemma CubeSplit(rs: seq<Result>, policies: seq<Policy>, browsers: seq<Browser>) returns (a: seq<Result>, b: seq<Result>)
    requires policies != [] && LabelsOf(rs) == Cube(policies, browsers) && DistinctPolicies(policies)
    ensures var n := |policies| - 1;
      && rs == a + b && LabelsOf(a) == Cube(policies[..n], browsers) && LabelsOf(b) == Block(policies[n].name, browsers)
      && (forall i :: 0 <= i < |b| ==> KeyAt(ByPolicy, b[i]) == policies[n].name)
      && (forall i :: 0 <= i < |a| ==> KeyAt(ByPolicy, a[i]) != policies[n].name)
  {
    var n := |policies| - 1;
    var m := |Cube(policies[..n], browsers)|;
    LabelsSplit(rs, Cube(policies[..n], browsers), Block(policies[n].name, browsers));
    a, b := rs[..m], rs[m..];
    BlockHasOnePolicy(b, policies[n].name, browsers);
    forall i | 0 <= i < |a| ensures KeyAt(ByPolicy, a[i]) != policies[n].name {
      assert LabelsOf(a)[i] == LabelOf(a[i]);
      var j, _ := CubeLabel(policies[..n], browsers, i);
    }
  }

  lemma {:induction false} CubeIsGrouped(rs: seq<Result>, policies: seq<Policy>, browsers: seq<Browser>)
    requires LabelsOf(rs) == Cube(policies, browsers) && DistinctPolicies(policies)
    ensures Grouped(rs, ByPolicy) == rs
    decreases |policies|
  {
    if policies == [] {
      assert rs == [];
    } else {
      var n := |policies| - 1;
      var a, b := CubeSplit(rs, policies, browsers);
      CubeIsGrouped(a, policies[..n], browsers);
      OneKeyIsGrouped(b, ByPolicy, policies[n].name);
      GroupedConcat(a, b, ByPolicy);
    }
  }

  lemma {:induction false} PolicyGroupIsGrouped(rs: seq<Result>, policies: seq<Policy>, browsers: seq<Browser>, k: string)
    requires LabelsOf(rs) == Cube(policies, browsers) && DistinctPolicies(policies) && DistinctBrowsers(browsers)
    ensures Grouped(Select(rs, ByPolicy, k), ByBrowser) == Select(rs, ByPolicy, k)
    decreases |policies|
  {
    if policies == [] {
      assert rs == [];
    } else {
      var n := |policies| - 1;
      var a, b := CubeSplit(rs, policies, browsers);
      SelectConcat(a, b, ByPolicy, k);
      if k == policies[n].name {
        SelectForeign(a, ByPolicy, k);
        OneKey(b, ByPolicy, k);
        BlockIsGrouped(b, k, browsers);
        assert [] + b == b;
      } else {
        SelectForeign(b, ByPolicy, k);
        PolicyGroupIsGrouped(a, policies[..n], browsers, k);
        assert Select(a, ByPolicy, k) + [] == Select(a, ByPolicy, k);
      }
    }
  }

  lemma {:induction false} RowsAreGroups(rs: seq<Result>, keys: seq<string>)
    requires forall k :: Grouped(Select(rs, ByPolicy, k), ByBrowser) == Select(rs, ByPolicy, k)
    ensures RowsOf(rs, keys) == GroupsOf(rs, ByPolicy, keys)
  {
    if keys != [] { RowsAreGroups(rs, keys[..|keys| - 1]); }
  }

  /** What an error-free run returns is rendered row by row in the order it was produced. */
  lemma RunOutputIsRenderedInOrder(rs: seq<Result>, cfg: Config)
    requires LabelsOf(rs) == Cube(Passes(cfg), cfg.browsers) && DistinctPolicies(Passes(cfg)) && DistinctBrowsers(cfg.browsers)
    ensures Rows(rs) == rs
  {
    forall k: string ensures Grouped(Select(rs, ByPolicy, k), ByBrowser) == Select(rs, ByPolicy, k) {
      PolicyGroupIsGrouped(rs, Passes(cfg), cfg.browsers, k);
    }
    RowsAreGroups(rs, FirstSeen(rs, ByPolicy));
    CubeIsGrouped(rs, Passes(cfg), cfg.browsers);
  }
}
