/** File names: the frames on disk, the entries of the report bundle, and the version read back from a frame's name. */
module Naming {
  import opened Report
  import opened Matrix
  import opened Worker
  import opened Transcript
  import opened Policies

  // ---- Cutting a string at a separator ----

  lemma CutFirst(x: string, u: string, y: string, v: string, c: char)
    requires c !in x && c !in y && x + [c] + u == y + [c] + v
    ensures x == y && u == v
  {
    var s := x + [c] + u;
    assert forall i :: 0 <= i < |x| ==> s[i] == x[i] && x[i] in x;
    assert forall i :: 0 <= i < |y| ==> s[i] == y[i] && y[i] in y;
    assert s[|x|] == c && s[|y|] == c;
    assert |x| == |y|;
    assert s[..|x|] == x && s[..|y|] == y;
    assert s[|x| + 1..] == u && s[|y| + 1..] == v;
  }

  lemma CutLast(u: string, x: string, v: string, y: string, c: char)
    requires c !in x && c !in y && u + [c] + x == v + [c] + y
    ensures u == v && x == y
  {
    var s := u + [c] + x;
    assert forall k :: |u| < k < |s| ==> s[k] == x[k - |u| - 1] && s[k] in x;
    assert forall k :: |v| < k < |s| ==> s[k] == y[k - |v| - 1] && s[k] in y;
    assert s[|u|] == c && s[|v|] == c;
    SameCut(s, |u|, |v|, c);
    assert s[..|u|] == u && s[..|v|] == v;
    assert s[|u| + 1..] == x && s[|v| + 1..] == y;
  }

  /** The last `c` has only one place. */
  lemma SameCut(s: string, i: nat, j: nat, c: char)
    requires i < |s| && j < |s| && s[i] == c && s[j] == c
    requires forall k :: i < k < |s| ==> s[k] != c
    requires forall k :: j < k < |s| ==> s[k] != c
    ensures i == j
  {
  }

  lemma DropSuffix(u: string, v: string, suffix: string)
    requires u + suffix == v + suffix
    ensures u == v
  {
    assert |u + suffix| == |v + suffix|;
    assert u == (u + suffix)[..|u|] && v == (v + suffix)[..|v|];
  }

  // ---- Frames on disk ----

  predicate NoDash(s: string) {
    '-' !in s
  }

  function Prefix(policy: string): string {
    if policy == "" then "" else policy + "-"
  }

  lemma FrameNameParts(policy: string, browser: string, tag: string)
    ensures LocalFrameName(policy, browser, tag) == (Prefix(policy) + browser) + "-" + tag + ".png"
  {
    if policy == "" {
      assert "" + browser == browser;
    } else {
      assert policy + "-" + browser + "-" + tag + ".png" == (policy + "-" + browser) + "-" + tag + ".png";
    }
  }

  /** `b` is some text, a dash, and then `d`. */
  predicate EndsDashed(b: string, d: string) {
    |b| > |d| && b[|b| - |d|..] == d && b[|b| - |d| - 1] == '-'
  }

  lemma PrefixInjective(p: string, q: string)
    ensures Prefix(p) == Prefix(q) <==> p == q
  {
    if p != "" && q != "" && Prefix(p) == Prefix(q) { DropSuffix(p, q, "-"); }
  }

  lemma LongerEndsDashed(p: string, b: string, q: string, d: string)
    requires Prefix(p) + b == Prefix(q) + d && |b| > |d|
    ensures EndsDashed(b, d)
  {
    var s, n := Prefix(p) + b, |Prefix(q)|;
    assert |s| == |Prefix(p)| + |b| == n + |d|;
    assert b[|b| - |d|..] == s[|s| - |d|..] == d;
    assert b[|b| - |d| - 1] == s[n - 1] == Prefix(q)[n - 1];
  }

  lemma SamePrefixed(p: string, b: string, q: string, d: string)
    requires Prefix(p) + b == Prefix(q) + d && |b| == |d|
    ensures p == q && b == d
  {
    var s := Prefix(p) + b;
    assert b == s[|s| - |b|..] && d == s[|s| - |d|..];
    DropSuffix(Prefix(p), Prefix(q), b);
    PrefixInjective(p, q);
  }

  /** What may follow a valid policy name and a dash so that the whole is a valid policy name again. */
  predicate PolicyTail(h: string) {
    && 0 < |h| <= MAX_NAME - 2 && LowerAlnum(h[|h| - 1])
    && forall i :: 0 <= i < |h| ==> LowerAlnum(h[i]) || h[i] == '-'
  }

  /** `b` is the end of a policy name, a dash, and then `d`. */
  predicate Splits(b: string, d: string) {
    EndsDashed(b, d) && PolicyTail(b[..|b| - |d| - 1])
  }

  lemma TailOfValid(p: string, head: string)
    requires ValidPolicyName(p) && ValidPolicyName(p + "-" + head)
    ensures PolicyTail(head)
  {
    var q := p + "-" + head;
    assert !LowerAlnum('-');
    assert q[|q| - 1] == if head == "" then '-' else head[|head| - 1];
    assert forall i :: 0 <= i < |head| ==> head[i] == q[|p| + 1 + i];
  }

  lemma LongerPolicy(p: string, b: string, q: string, d: string)
    requires p != "" && q != "" && Prefix(p) + b == Prefix(q) + d && |b| > |d|
    ensures EndsDashed(b, d) && q == p + "-" + b[..|b| - |d| - 1]
  {
    LongerEndsDashed(p, b, q, d);
    var head := b[..|b| - |d| - 1];
    assert b == head + "-" + d;
    assert (p + "-" + head) + ("-" + d) == Prefix(p) + b == q + ("-" + d);
    DropSuffix(p + "-" + head, q, "-" + d);
  }

  lemma LongerSplits(p: string, b: string, q: string, d: string)
    requires ValidPolicyName(p) && ValidPolicyName(q) && Prefix(p) + b == Prefix(q) + d && |b| > |d|
    ensures Splits(b, d)
  {
    LongerPolicy(p, b, q, d);
    TailOfValid(p, b[..|b| - |d| - 1]);
  }

  /** Some two policies a run can have make frames of the two calls overwrite each other. */
  ghost predicate Collide(b: string, t: string, d: string, u: string) {
    exists p, q :: ValidPolicyName(p) && ValidPolicyName(q) && (p, b, t) != (q, d, u)
                   && LocalFrameName(p, b, t) == LocalFrameName(q, d, u)
  }

  /** A browser and a tag as a frame name shows them. */
  function Stem(browser: string, tag: string): string {
    browser + "-" + tag
  }

  /** The frame name is made of the policy's prefix and the stem, so it cannot tell stems that are equal. */
  lemma FrameNameStem(p: string, b: string, t: string, q: string, d: string, u: string)
    ensures LocalFrameName(p, b, t) == LocalFrameName(q, d, u) <==> Prefix(p) + Stem(b, t) == Prefix(q) + Stem(d, u)
  {
    StemOf(p, b, t);
    StemOf(q, d, u);
    if LocalFrameName(p, b, t) == LocalFrameName(q, d, u) {
      DropSuffix(Prefix(p) + Stem(b, t), Prefix(q) + Stem(d, u), ".png");
    }
  }

  lemma StemOf(p: string, b: string, t: string)
    ensures LocalFrameName(p, b, t) == (Prefix(p) + Stem(b, t)) + ".png"
  {
    FrameNameParts(p, b, t);
    assert Prefix(p) + b + "-" + t == Prefix(p) + (b + "-" + t);
  }

  lemma CollidingStems(p: string, b: string, t: string, q: string, d: string, u: string)
    requires ValidPolicyName(p) && ValidPolicyName(q) && (p, b, t) != (q, d, u)
    requires LocalFrameName(p, b, t) == LocalFrameName(q, d, u)
    ensures var x, y := Stem(b, t), Stem(d, u); (x == y && (b, t) != (d, u)) || Splits(x, y) || Splits(y, x)
  {
    var x, y := Stem(b, t), Stem(d, u);
    FrameNameStem(p, b, t, q, d, u);
    if |x| > |y| {
      LongerSplits(p, x, q, y);
    } else if |y| > |x| {
      LongerSplits(q, y, p, x);
    } else {
      SamePrefixed(p, x, q, y);
    }
  }

  /** Policies "a" and "a-" plus the tail do it. */
  lemma SplitsCollide(b: string, t: string, d: string, u: string)
    requires Splits(Stem(b, t), Stem(d, u))
    ensures Collide(b, t, d, u)
  {
    var x, y := Stem(b, t), Stem(d, u);
    var head := x[..|x| - |y| - 1];
    var q := "a-" + head;
    assert x == head + "-" + y;
    assert forall i :: 2 <= i < |q| ==> q[i] == head[i - 2];
    assert Prefix("a") + x == "a-" + (head + "-" + y) == Prefix(q) + y;
    FrameNameStem("a", b, t, q, d, u);
    assert ValidPolicyName("a") && ValidPolicyName(q) && "a" != q;
  }

  lemma SplitsCollideBack(b: string, t: string, d: string, u: string)
    requires Splits(Stem(d, u), Stem(b, t))
    ensures Collide(b, t, d, u)
  {
    SplitsCollide(d, u, b, t);
    var p, q :| ValidPolicyName(p) && ValidPolicyName(q) && (p, d, u) != (q, b, t)
                && LocalFrameName(p, d, u) == LocalFrameName(q, b, t);
    assert (q, b, t) != (p, d, u);
  }

  /**
   * When can two calls overwrite each other's frames? For any browsers and tags: exactly when browser-tag reads the
   * same for both, or for one reads as the end of a policy name, a dash, and what it reads for the other. A run
   * without policies has only the first trouble.
   */
  lemma FramesCollide(b: string, t: string, d: string, u: string)
    ensures var x, y := Stem(b, t), Stem(d, u);
      Collide(b, t, d, u) <==> (x == y && (b, t) != (d, u)) || Splits(x, y) || Splits(y, x)
    ensures LocalFrameName("", b, t) == LocalFrameName("", d, u) <==> Stem(b, t) == Stem(d, u)
  {
    var x, y := Stem(b, t), Stem(d, u);
    FrameNameStem("", b, t, "", d, u);
    assert "" + x == x && "" + y == y;
    if Collide(b, t, d, u) {
      var p, q :| ValidPolicyName(p) && ValidPolicyName(q) && (p, b, t) != (q, d, u)
                  && LocalFrameName(p, b, t) == LocalFrameName(q, d, u);
      CollidingStems(p, b, t, q, d, u);
    }
    if x == y && (b, t) != (d, u) {
      FrameNameStem("a", b, t, "a", d, u);
      assert ValidPolicyName("a") && ("a", b, t) != ("a", d, u);
    }
    if Splits(x, y) { SplitsCollide(b, t, d, u); }
    if Splits(y, x) { SplitsCollideBack(b, t, d, u); }
  }

  lemma StemSplits(b: string, d: string, t: string)
    ensures Splits(Stem(b, t), Stem(d, t)) <==> Splits(b, d)
  {
    var x, y := Stem(b, t), Stem(d, t);
    if |b| > |d| {
      var n := |b| - |d|;
      assert x[n..] == b[n..] + ("-" + t) && y == d + ("-" + t);
      assert x[..n - 1] == b[..n - 1] && x[n - 1] == b[n - 1];
      if x[n..] == y { DropSuffix(b[n..], d, "-" + t); }
    }
  }

  lemma StemSplitsTags(b: string, t: string, d: string, u: string)
    requires NoDash(t) && NoDash(u) && (Splits(Stem(b, t), Stem(d, u)) || Stem(b, t) == Stem(d, u))
    ensures t == u
  {
    var x, y := Stem(b, t), Stem(d, u);
    var v := x[..|x| - |y|] + d;
    assert x == v + "-" + u;
    CutLast(b, t, v, u, '-');
  }

  /** For tags without dashes, like the numbers a server request carries, it takes a browser with a dash in its name. */
  lemma DashFreeTagsCollide(b: string, t: string, d: string, u: string)
    requires NoDash(t) && NoDash(u)
    ensures Collide(b, t, d, u) <==> t == u && (Splits(b, d) || Splits(d, b))
  {
    FramesCollide(b, t, d, u);
    if Collide(b, t, d, u) {
      var x, y := Stem(b, t), Stem(d, u);
      if Splits(y, x) { StemSplitsTags(d, u, b, t); } else { StemSplitsTags(b, t, d, u); }
      if x == y {
        assert x == b + ("-" + t) && y == d + ("-" + t);
        DropSuffix(b, d, "-" + t);
      }
    }
    if t == u {
      StemSplits(b, d, t);
      StemSplits(d, b, t);
    }
  }

  /** For instance: two valid policies and a browser with a dash in its name. */
  lemma DashedBrowserCollides()
    ensures ValidPolicyName("a") && ValidPolicyName("a-b")
    ensures LocalFrameName("a", "b-chrome", "120") == LocalFrameName("a-b", "chrome", "120")
    ensures Collide("b-chrome", "120", "chrome", "120") && !Splits("-chrome", "chrome")
  {
    assert ("a", "b-chrome", "120") != ("a-b", "chrome", "120");
    assert "-chrome"[..0] == "";
  }

  lemma PresetStemsSplit()
    ensures Splits(Stem("chrome", "1-chrome-120"), Stem("chrome", "120"))
  {
    var head, y := "chrome-1", Stem("chrome", "120");
    var x := Stem("chrome", "1-chrome-120");
    assert x == head + "-" + y;
    assert x[..|x| - |y| - 1] == head && x[|x| - |y|..] == y;
  }

  /** And one the command line takes: the chrome preset with the versions "120,1-chrome-120", under two valid policies. */
  lemma DashedTagCollides()
    ensures LocalFrameName("a", "chrome", "1-chrome-120") == LocalFrameName("a-chrome-1", "chrome", "120")
    ensures Collide("chrome", "1-chrome-120", "chrome", "120") && !Splits("chrome", "chrome")
  {
    PresetStemsSplit();
    FramesCollide("chrome", "1-chrome-120", "chrome", "120");
  }

  /** With one dash in it there is none to spare. */
  lemma OneDashEach(b: string, t: string, d: string, u: string)
    requires NoDash(b) && NoDash(t)
    ensures !EndsDashed(Stem(b, t), Stem(d, u))
  {
    var x, y := Stem(b, t), Stem(d, u);
    var n := |x| - |y|;
    assert forall k :: 0 <= k < |b| ==> x[k] == b[k] && b[k] in b;
    assert forall k :: |b| < k < |x| ==> x[k] == t[k - |b| - 1] && x[k] in t;
    if n > 0 && x[n..] == y {
      assert x[n + |d|] == y[|d|] == '-';
    }
  }

  lemma ApartFramesDiffer(p: string, b: string, t: string, q: string, d: string, u: string)
    requires NoDash(b) && NoDash(d) && LocalFrameName(p, b, t) == LocalFrameName(q, d, u)
    requires (p == "" && q == "") || (!EndsDashed(Stem(b, t), Stem(d, u)) && !EndsDashed(Stem(d, u), Stem(b, t)))
    ensures p == q && b == d && t == u
  {
    var x, y := Stem(b, t), Stem(d, u);
    FrameNameStem(p, b, t, q, d, u);
    if |x| > |y| {
      LongerEndsDashed(p, x, q, y);
    } else if |y| > |x| {
      LongerEndsDashed(q, y, p, x);
    } else {
      SamePrefixed(p, x, q, y);
    }
    CutFirst(b, t, d, u, '-');
  }

  /** Without dashes in browsers and tags, as in a server's run, frames never collide, under any policies or none. */
  lemma FrameNameInjective(p: string, b: string, t: string, q: string, d: string, u: string)
    requires NoDash(b) && NoDash(d) && NoDash(t) && NoDash(u)
    ensures LocalFrameName(p, b, t) == LocalFrameName(q, d, u) <==> p == q && b == d && t == u
  {
    OneDashEach(b, t, d, u);
    OneDashEach(d, u, b, t);
    if LocalFrameName(p, b, t) == LocalFrameName(q, d, u) { ApartFramesDiffer(p, b, t, q, d, u); }
  }

  // ---- The bundle ----

  function BundlePath(kind: string, policy: string, leaf: string): string {
    if policy == "" then kind + "/" + leaf else kind + "/" + policy + "/" + leaf
  }

  function BundleFramePath(r: Result): string {
    if r.framePath == "" then "" else BundlePath("frames", r.policy, r.browser + "-" + r.tag + ".png")
  }

  function BundleLogPath(r: Result, container: string): string {
    BundlePath("logs", r.policy, r.browser + "-" + r.tag + "-" + container + ".log")
  }

  datatype ZipEntry = ZipEntry(name: string, data: string)

  function LogEntries(r: Result, logs: seq<LogCapture>): seq<ZipEntry> {
    if logs == [] then []
    else
      var lg := logs[|logs| - 1];
      LogEntries(r, logs[..|logs| - 1])
      + if lg.content == "" then [] else [ZipEntry(BundleLogPath(r, lg.container), lg.content)]
  }

  function FrameEntries(r: Result, disk: map<string, string>): seq<ZipEntry> {
    if r.framePath != "" && r.framePath in disk then [ZipEntry(BundleFramePath(r), disk[r.framePath])] else []
  }

  /** The files a result adds, given what can be read from disk. */
  function ResultFiles(r: Result, disk: map<string, string>): seq<ZipEntry> {
    FrameEntries(r, disk) + LogEntries(r, r.logs)
  }

  function ResultEntries(rs: seq<Result>, disk: map<string, string>): seq<ZipEntry> {
    if rs == [] then []
    else
      var r := rs[|rs| - 1];
      ResultEntries(rs[..|rs| - 1], disk) + ResultFiles(r, disk)
  }

  function Reports(json: string, markdown: string): seq<ZipEntry> {
    [ZipEntry("report.json", json), ZipEntry("report.md", markdown)]
  }

  /** Everything WriteBundle puts into the archive. */
  function BundleEntries(json: string, markdown: string, rs: seq<Result>, disk: map<string, string>): seq<ZipEntry> {
    Reports(json, markdown) + ResultEntries(rs, disk)
  }

  predicate Readable(r: Result, disk: map<string, string>) {
    r.framePath != "" ==> r.framePath in disk
  }

  predicate AllReadable(rs: seq<Result>, disk: map<string, string>) {
    forall i :: 0 <= i < |rs| ==> Readable(rs[i], disk)
  }

  /** What the archive holds after the first i results, on top of what it held before. */
  function After(start: seq<ZipEntry>, rs: seq<Result>, i: nat, disk: map<string, string>): seq<ZipEntry>
    requires i <= |rs|
  {
    start + ResultEntries(rs[..i], disk)
  }

  lemma AfterNext(start: seq<ZipEntry>, rs: seq<Result>, i: nat, disk: map<string, string>)
    requires i < |rs|
    ensures After(start, rs, i + 1, disk) == After(start, rs, i, disk) + ResultFiles(rs[i], disk)
  {
    assert rs[..i + 1][..i] == rs[..i];
    var a, b := ResultEntries(rs[..i], disk), ResultFiles(rs[i], disk);
    assert (start + a) + b == start + (a + b);
  }

  /** The archive being written; `broken` records that a write to it failed. */
  class Archive {
    var entries: seq<ZipEntry>
    var broken: bool

    constructor ()
      ensures entries == [] && !broken
    {
      entries, broken := [], false;
    }

    /** addZipFile; the write may fail. */
    method Add(name: string, data: string) returns (ok: bool)
      modifies this
      ensures if ok then entries == old(entries) + [ZipEntry(name, data)] && broken == old(broken) else broken
    {
      ok := *;
      if ok { entries := entries + [ZipEntry(name, data)]; } else { broken := true; }
    }

    method AddLogs(r: Result) returns (ok: bool)
      modifies this
      ensures if ok then entries == old(entries) + LogEntries(r, r.logs) && broken == old(broken) else broken
    {
      for i := 0 to |r.logs|
        invariant entries == old(entries) + LogEntries(r, r.logs[..i]) && broken == old(broken)
      {
        var lg := r.logs[i];
        assert r.logs[..i + 1][..i] == r.logs[..i];
        if lg.content == "" { continue; }
        ok := Add(BundleLogPath(r, lg.container), lg.content);
        if !ok { return; }
      }
      assert r.logs[..|r.logs|] == r.logs;
      ok := true;
    }

    method AddResult(r: Result, disk: map<string, string>) returns (ok: bool)
      modifies this
      ensures ok ==> Readable(r, disk) && entries == old(entries) + ResultFiles(r, disk) && broken == old(broken)
      ensures !ok ==> broken || !Readable(r, disk)
    {
      if r.framePath != "" {
        if r.framePath !in disk { return false; }
        ok := Add(BundleFramePath(r), disk[r.framePath]);
        if !ok { return; }
      }
      ok := AddLogs(r);
    }

    /** The loop over the results. */
    method AddResults(results: seq<Result>, disk: map<string, string>) returns (ok: bool)
      modifies this
      ensures ok ==> AllReadable(results, disk) && entries == old(entries) + ResultEntries(results, disk) && broken == old(broken)
      ensures !ok ==> broken || !AllReadable(results, disk)
    {
      ghost var start := entries;
      assert start + [] == start;
      for i := 0 to |results|
        invariant broken == old(broken) && entries == After(start, results, i, disk)
        invariant forall k :: 0 <= k < i ==> Readable(results[k], disk)
      {
        AfterNext(start, results, i, disk);
        ok := AddResult(results[i], disk);
        if !ok { return; }
      }
      assert results[..|results|] == results;
      ok := true;
    }

    /** The two reports. */
    method AddReports(json: string, markdown: string) returns (ok: bool)
      modifies this
      ensures if ok then entries == old(entries) + Reports(json, markdown) && broken == old(broken) else broken
    {
      ok := Add("report.json", json);
      if !ok { return; }
      ok := Add("report.md", markdown);
    }

    /** Closing writes the directory, and may fail too. */
    method Close() returns (ok: bool)
      modifies this`broken
      ensures if ok then broken == old(broken) else broken
    {
      ok := *;
      if !ok { broken := true; }
    }
  }

  /** Fails exactly when a frame cannot be read or a write failed; otherwise the archive holds every entry, in order. */
  method WriteBundle(json: string, markdown: string, results: seq<Result>, disk: map<string, string>)
    returns (ok: bool, zw: Archive)
    ensures fresh(zw)
    ensures ok <==> AllReadable(results, disk) && !zw.broken
    ensures ok ==> zw.entries == BundleEntries(json, markdown, results, disk)
  {
    zw := new Archive();
    ok := zw.AddReports(json, markdown);
    if !ok { return; }
    ok := zw.AddResults(results, disk);
    if !ok { return; }
    ok := zw.Close();
  }

  // ---- What the bundle holds ----

  /** Where a result's frame and logs go, under its policy if it has one. */
  function Folder(kind: string, policy: string): string {
    kind + "/" + (if policy == "" then "" else policy + "/")
  }

  predicate IsFrameOf(e: ZipEntry, r: Result, disk: map<string, string>) {
    && r.framePath != "" && r.framePath in disk && e.data == disk[r.framePath]
    && e.name == Folder("frames", r.policy) + (r.browser + "-" + r.tag + ".png")
  }

  predicate IsLogOf(e: ZipEntry, r: Result, lg: LogCapture) {
    && lg.content != "" && e.data == lg.content
    && e.name == Folder("logs", r.policy) + (r.browser + "-" + r.tag + "-" + lg.container + ".log")
  }

  predicate IsFileOf(e: ZipEntry, r: Result, disk: map<string, string>) {
    IsFrameOf(e, r, disk) || exists l :: 0 <= l < |r.logs| && IsLogOf(e, r, r.logs[l])
  }

  lemma PathInFolder(kind: string, policy: string, leaf: string)
    ensures BundlePath(kind, policy, leaf) == Folder(kind, policy) + leaf
  {
    assert kind + "/" + "" == kind + "/";
    assert kind + "/" + (policy + "/") + leaf == kind + "/" + policy + "/" + leaf;
  }

  lemma {:induction false} LogEntriesMeaning(r: Result, logs: seq<LogCapture>, e: ZipEntry)
    ensures e in LogEntries(r, logs) <==> exists l :: 0 <= l < |logs| && IsLogOf(e, r, logs[l])
  {
    if logs != [] {
      var n := |logs| - 1;
      LogEntriesMeaning(r, logs[..n], e);
      PathInFolder("logs", r.policy, r.browser + "-" + r.tag + "-" + logs[n].container + ".log");
      if l :| 0 <= l < n && IsLogOf(e, r, logs[..n][l]) { assert IsLogOf(e, r, logs[l]); }
      if l :| 0 <= l < |logs| && IsLogOf(e, r, logs[l]) && l < n { assert IsLogOf(e, r, logs[..n][l]); }
    }
  }

  lemma ResultFilesMeaning(r: Result, disk: map<string, string>, e: ZipEntry)
    ensures e in ResultFiles(r, disk) <==> IsFileOf(e, r, disk)
  {
    LogEntriesMeaning(r, r.logs, e);
    PathInFolder("frames", r.policy, r.browser + "-" + r.tag + ".png");
  }

  lemma {:induction false} ResultEntriesMeaning(rs: seq<Result>, disk: map<string, string>, e: ZipEntry)
    ensures e in ResultEntries(rs, disk) <==> exists i :: 0 <= i < |rs| && IsFileOf(e, rs[i], disk)
  {
    if rs != [] {
      var n := |rs| - 1;
      ResultEntriesMeaning(rs[..n], disk, e);
      ResultFilesMeaning(rs[n], disk, e);
      if i :| 0 <= i < n && IsFileOf(e, rs[..n][i], disk) { assert IsFileOf(e, rs[i], disk); }
      if i :| 0 <= i < |rs| && IsFileOf(e, rs[i], disk) && i < n { assert IsFileOf(e, rs[..n][i], disk); }
    }
  }

  /**
   * What the bundle holds, entry by entry: the two reports first, and then each result's frame, as it was read from
   * disk, and each of its non-empty logs, under names that say whose they are; nothing else.
   */
  lemma BundleMeaning(json: string, markdown: string, rs: seq<Result>, disk: map<string, string>, e: ZipEntry)
    ensures var es := BundleEntries(json, markdown, rs, disk);
      && |es| >= 2 && es[0] == ZipEntry("report.json", json) && es[1] == ZipEntry("report.md", markdown)
      && (e in es <==> e == es[0] || e == es[1] || exists i :: 0 <= i < |rs| && IsFileOf(e, rs[i], disk))
  {
    ResultEntriesMeaning(rs, disk, e);
  }

  // ---- Entry names do not repeat ----

  function Names(es: seq<ZipEntry>): seq<string> {
    seq(|es|, i requires 0 <= i < |es| => es[i].name)
  }

  lemma NamesConcat(a: seq<ZipEntry>, b: seq<ZipEntry>)
    ensures Names(a + b) == Names(a) + Names(b)
  {
  }

  /** A validated policy and a one-word browser, as the presets are; the tag may be any text. */
  predicate Tidy(r: Result) {
    '/' !in r.policy && NoDash(r.browser)
  }

  lemma PathParts(kind: string, p: string, x: string, q: string, y: string)
    requires '/' !in p && '/' !in q && (p == "" <==> q == "") && BundlePath(kind, p, x) == BundlePath(kind, q, y)
    ensures p == q && x == y
  {
    if p == "" {
      assert x == BundlePath(kind, p, x)[|kind| + 1..] && y == BundlePath(kind, q, y)[|kind| + 1..];
    } else {
      assert BundlePath(kind, p, x) == (kind + "/") + (p + "/" + x);
      assert BundlePath(kind, q, y) == (kind + "/") + (q + "/" + y);
      assert p + "/" + x == BundlePath(kind, p, x)[|kind| + 1..];
      assert q + "/" + y == BundlePath(kind, q, y)[|kind| + 1..];
      CutFirst(p, x, q, y, '/');
    }
  }

  /** Behind any two tags and a dash these containers can be told apart. */
  predicate Separate(x: string, y: string) {
    !EndsDashed(x, y) && !EndsDashed(y, x)
  }

  lemma TagContainerParts(t: string, x: string, u: string, y: string)
    requires Stem(t, x) == Stem(u, y) && (Separate(x, y) || (NoDash(t) && NoDash(u)))
    ensures t == u && x == y
  {
    if NoDash(t) && NoDash(u) {
      CutFirst(t, x, u, y, '-');
    } else if |x| == |y| {
      var s := Stem(t, x);
      assert x == s[|s| - |x|..] && y == s[|s| - |x|..];
      assert t == s[..|t|] && u == s[..|t|];
    } else if |x| > |y| {
      BackEndsDashed(t, x, u, y);
    } else {
      BackEndsDashed(u, y, t, x);
    }
  }

  lemma BackEndsDashed(t: string, x: string, u: string, y: string)
    requires Stem(t, x) == Stem(u, y) && |x| > |y|
    ensures EndsDashed(x, y)
  {
    var s, n := Stem(t, x), |x| - |y|;
    assert x == s[|s| - |x|..] && y == s[|s| - |y|..] && s[|u|] == '-';
    assert x[n..] == y && x[n - 1] == s[|u|];
  }

  /** A browser, a dash, a tag, a dash and a container. */
  lemma LeafParts(b: string, t: string, x: string, d: string, u: string, y: string)
    requires NoDash(b) && NoDash(d) && (b == d ==> Separate(x, y) || (NoDash(t) && NoDash(u)))
    requires b + "-" + t + "-" + x == d + "-" + u + "-" + y
    ensures b == d && t == u && x == y
  {
    assert b + "-" + t + "-" + x == b + "-" + Stem(t, x);
    assert d + "-" + u + "-" + y == d + "-" + Stem(u, y);
    CutFirst(b, Stem(t, x), d, Stem(u, y), '-');
    TagContainerParts(t, x, u, y);
  }

  lemma FramePathsDiffer(r: Result, q: Result)
    requires Tidy(r) && Tidy(q) && (r.policy == "" <==> q.policy == "") && r.framePath != "" && q.framePath != ""
    requires BundleFramePath(r) == BundleFramePath(q)
    ensures LabelOf(r) == LabelOf(q)
  {
    PathParts("frames", r.policy, r.browser + "-" + r.tag + ".png", q.policy, q.browser + "-" + q.tag + ".png");
    DropSuffix(r.browser + "-" + r.tag, q.browser + "-" + q.tag, ".png");
    CutFirst(r.browser, r.tag, q.browser, q.tag, '-');
  }

  /** If these two results are of one browser, their logs of these containers can be told apart. */
  predicate LogsApart(r: Result, x: string, q: Result, y: string) {
    r.browser == q.browser ==> Separate(x, y) || (NoDash(r.tag) && NoDash(q.tag))
  }

  lemma LogPathsDiffer(r: Result, x: string, q: Result, y: string)
    requires Tidy(r) && Tidy(q) && (r.policy == "" <==> q.policy == "") && BundleLogPath(r, x) == BundleLogPath(q, y)
    requires LogsApart(r, x, q, y)
    ensures LabelOf(r) == LabelOf(q) && x == y
  {
    var a, b := r.browser + "-" + r.tag + "-" + x, q.browser + "-" + q.tag + "-" + y;
    PathParts("logs", r.policy, a + ".log", q.policy, b + ".log");
    DropSuffix(a, b, ".log");
    LeafParts(r.browser, r.tag, x, q.browser, q.tag, y);
  }

  predicate IsFrame(name: string) {
    "frames/" <= name
  }

  predicate IsLog(name: string) {
    "logs/" <= name
  }

  lemma PathKinds(policy: string, leaf: string)
    ensures IsFrame(BundlePath("frames", policy, leaf)) && IsLog(BundlePath("logs", policy, leaf))
    ensures forall name: string :: !(IsFrame(name) && IsLog(name))
    ensures !IsFrame("report.json") && !IsLog("report.json") && !IsFrame("report.md") && !IsLog("report.md")
  {
    assert "frames" + "/" == "frames/" && "logs" + "/" == "logs/";
    assert forall name: string :: IsFrame(name) ==> name[0] == 'f';
    assert forall name: string :: IsLog(name) ==> name[0] == 'l';
  }

  /** Where the name of a log entry comes from. */
  lemma {:induction false} LogOrigin(r: Result, logs: seq<LogCapture>, k: nat) returns (i: nat)
    requires k < |LogEntries(r, logs)|
    ensures i < |logs| && LogEntries(r, logs)[k].name == BundleLogPath(r, logs[i].container)
  {
    var n := |logs| - 1;
    if k < |LogEntries(r, logs[..n])| { i := LogOrigin(r, logs[..n], k); } else { i := n; }
  }

  /** A name only this result's files can have. */
  ghost predicate OwnedBy(name: string, r: Result) {
    (r.framePath != "" && name == BundleFramePath(r))
    || exists k :: 0 <= k < |r.logs| && name == BundleLogPath(r, r.logs[k].container)
  }

  predicate AllLogsApart(r: Result, q: Result) {
    forall k, l :: 0 <= k < |r.logs| && 0 <= l < |q.logs| ==> LogsApart(r, r.logs[k].container, q, q.logs[l].container)
  }

  lemma OwnersAgree(name: string, r: Result, q: Result)
    requires Tidy(r) && Tidy(q) && (r.policy == "" <==> q.policy == "") && OwnedBy(name, r) && OwnedBy(name, q)
    requires AllLogsApart(r, q)
    ensures LabelOf(r) == LabelOf(q)
  {
    PathKinds(r.policy, r.browser + "-" + r.tag + ".png");
    PathKinds(q.policy, q.browser + "-" + q.tag + ".png");
    if k :| 0 <= k < |r.logs| && name == BundleLogPath(r, r.logs[k].container) {
      PathKinds(r.policy, r.browser + "-" + r.tag + "-" + r.logs[k].container + ".log");
      var l :| 0 <= l < |q.logs| && name == BundleLogPath(q, q.logs[l].container);
      LogPathsDiffer(r, r.logs[k].container, q, q.logs[l].container);
    } else if l :| 0 <= l < |q.logs| && name == BundleLogPath(q, q.logs[l].container) {
      PathKinds(q.policy, q.browser + "-" + q.tag + "-" + q.logs[l].container + ".log");
    } else {
      FramePathsDiffer(r, q);
    }
  }

  predicate DistinctContainers(logs: seq<LogCapture>) {
    forall i, j :: 0 <= i < j < |logs| ==> logs[i].container != logs[j].container
  }

  lemma LogNameIsNew(r: Result, n: nat)
    requires Tidy(r) && DistinctContainers(r.logs) && AllLogsApart(r, r) && n < |r.logs|
    ensures BundleLogPath(r, r.logs[n].container) !in Names(LogEntries(r, r.logs[..n]))
  {
    var rest, name := LogEntries(r, r.logs[..n]), BundleLogPath(r, r.logs[n].container);
    forall k | 0 <= k < |rest| ensures rest[k].name != name {
      var i := LogOrigin(r, r.logs[..n], k);
      if rest[k].name == name { LogPathsDiffer(r, r.logs[i].container, r, r.logs[n].container); }
    }
  }

  lemma {:induction false} LogNamesDiffer(r: Result, n: nat)
    requires Tidy(r) && DistinctContainers(r.logs) && AllLogsApart(r, r) && n <= |r.logs|
    ensures NoDup(Names(LogEntries(r, r.logs[..n])))
    ensures forall name :: name in Names(LogEntries(r, r.logs[..n])) ==> IsLog(name) && OwnedBy(name, r)
  {
    if n > 0 {
      var lg, rest := r.logs[n - 1], LogEntries(r, r.logs[..n - 1]);
      LogNamesDiffer(r, n - 1);
      LogNameIsNew(r, n - 1);
      PathKinds(r.policy, r.browser + "-" + r.tag + "-" + lg.container + ".log");
      assert r.logs[..n][..n - 1] == r.logs[..n - 1];
      if lg.content == "" {
        assert LogEntries(r, r.logs[..n]) == rest;
      } else {
        NamesConcat(rest, [ZipEntry(BundleLogPath(r, lg.container), lg.content)]);
        NoDupJoin(Names(rest), [BundleLogPath(r, lg.container)]);
      }
    }
  }

  lemma FileNamesDiffer(r: Result, disk: map<string, string>)
    requires Tidy(r) && DistinctContainers(r.logs) && AllLogsApart(r, r)
    ensures NoDup(Names(ResultFiles(r, disk)))
    ensures forall name :: name in Names(ResultFiles(r, disk)) ==> (IsFrame(name) || IsLog(name)) && OwnedBy(name, r)
  {
    var a, b := FrameEntries(r, disk), LogEntries(r, r.logs);
    LogNamesDiffer(r, |r.logs|);
    assert r.logs[..|r.logs|] == r.logs;
    PathKinds(r.policy, r.browser + "-" + r.tag + ".png");
    NamesConcat(a, b);
    assert Names(a) == [] || Names(a) == [BundleFramePath(r)];
    forall i, j | 0 <= i < |Names(a)| && 0 <= j < |Names(b)| ensures Names(a)[i] != Names(b)[j] {
      assert IsFrame(Names(a)[i]) && Names(b)[j] in Names(b);
    }
    NoDupJoin(Names(a), Names(b));
  }

  /** Results whose names cannot be confused. */
  predicate Orderly(rs: seq<Result>) {
    && NoDup(LabelsOf(rs))
    && (forall i :: 0 <= i < |rs| ==> Tidy(rs[i]) && DistinctContainers(rs[i].logs))
    && (forall i, j :: 0 <= i < |rs| && 0 <= j < |rs| ==>
          (rs[i].policy == "" <==> rs[j].policy == "") && AllLogsApart(rs[i], rs[j]))
  }

  lemma OrderlyPrefix(rs: seq<Result>, n: nat)
    requires Orderly(rs) && n <= |rs|
    ensures Orderly(rs[..n])
  {
    assert forall i :: 0 <= i < n ==> LabelsOf(rs[..n])[i] == LabelsOf(rs)[i];
  }

  lemma {:induction false} ResultNamesDiffer(rs: seq<Result>, disk: map<string, string>)
    requires Orderly(rs)
    ensures NoDup(Names(ResultEntries(rs, disk)))
    ensures forall name :: name in Names(ResultEntries(rs, disk)) ==>
      (IsFrame(name) || IsLog(name)) && exists i :: 0 <= i < |rs| && OwnedBy(name, rs[i])
  {
    if rs != [] {
      var n := |rs| - 1;
      OrderlyPrefix(rs, n);
      ResultNamesDiffer(rs[..n], disk);
      assert AllLogsApart(rs[n], rs[n]);
      FileNamesDiffer(rs[n], disk);
      var a, b := Names(ResultEntries(rs[..n], disk)), Names(ResultFiles(rs[n], disk));
      NamesConcat(ResultEntries(rs[..n], disk), ResultFiles(rs[n], disk));
      forall i, j | 0 <= i < |a| && 0 <= j < |b| ensures a[i] != b[j] {
        assert a[i] in a && b[j] in b;
        var k :| 0 <= k < n && OwnedBy(a[i], rs[..n][k]);
        assert LabelsOf(rs)[k] != LabelsOf(rs)[n];
        if a[i] == b[j] {
          assert AllLogsApart(rs[k], rs[n]);
          OwnersAgree(a[i], rs[k], rs[n]);
        }
      }
      NoDupJoin(a, b);
      forall name | name in a + b ensures (IsFrame(name) || IsLog(name)) && exists i :: 0 <= i < |rs| && OwnedBy(name, rs[i]) {
        if name in a {
          var k :| 0 <= k < n && OwnedBy(name, rs[..n][k]);
          assert OwnedBy(name, rs[k]);
        } else {
          assert OwnedBy(name, rs[n]);
        }
      }
    }
  }

  /** No two files of a bundle have the same name: the two reports, the frames, and one log per container. */
  lemma BundleNamesDiffer(json: string, markdown: string, rs: seq<Result>, disk: map<string, string>)
    requires Orderly(rs)
    ensures NoDup(Names(BundleEntries(json, markdown, rs, disk)))
  {
    var head := Reports(json, markdown);
    ResultNamesDiffer(rs, disk);
    PathKinds("", "");
    NamesConcat(head, ResultEntries(rs, disk));
    assert Names(head) == ["report.json", "report.md"] && "report.json"[7] != "report.md"[7];
    var b := Names(ResultEntries(rs, disk));
    forall i, j | 0 <= i < 2 && 0 <= j < |b| ensures Names(head)[i] != b[j] {
      assert b[j] in b;
    }
    NoDupJoin(Names(head), b);
  }

  // ---- The results of a run ----

  /** One-word browsers whose container is not one of the smoke Job's own; tags with dashes must not blur it into one. */
  predicate PlainBrowsers(browsers: seq<Browser>) {
    forall i :: 0 <= i < |browsers| ==> PlainBrowser(browsers[i])
  }

  predicate PlainBrowser(b: Browser) {
    && NoDash(b.name) && b.container != "chrome-bully" && b.container != "smoke"
    && (DashFree(b.versions) || (Separate(b.container, "chrome-bully") && Separate(b.container, "smoke")))
  }

  predicate DashFree(tags: seq<string>) {
    forall t :: t in tags ==> NoDash(t)
  }

  /** The presets are plain whatever versions they are given. */
  lemma PresetsNameWell(b: Browser)
    requires b.name in {"chrome", "firefox"} && b.container == b.name
    ensures PlainBrowser(b)
  {
    assert "chrome" != "chrome-bully" && "firefox" != "chrome-bully" && "chrome" != "smoke" && "firefox" != "smoke";
  }

  lemma LogsHaveDistinctContainers(b: Browser, c: Captured)
    requires b.container != "chrome-bully" && b.container != "smoke"
    ensures DistinctContainers(LogsOf(b, c))
    ensures forall l :: l in LogsOf(b, c) ==> l.container in {b.container, "chrome-bully", "smoke"}
  {
  }

  /** Policy names that came through validatePolicyName or the request's validation. */
  predicate PlainPolicies(policies: seq<Policy>) {
    forall i :: 0 <= i < |policies| ==> policies[i].name != "" && '/' !in policies[i].name
  }

  predicate WellNamed(cfg: Config) {
    && PlainPolicies(cfg.policies) && DistinctPolicies(cfg.policies)
    && PlainBrowsers(cfg.browsers) && DistinctBrowsers(cfg.browsers) && DistinctTags(cfg)
  }

  /** A result of the run is some browser's, for one of its tags and with its own logs. */
  predicate OfBrowser(cfg: Config, r: Result, k: nat) {
    && k < |cfg.browsers| && r.browser == cfg.browsers[k].name && r.tag in cfg.browsers[k].versions
    && DistinctContainers(r.logs)
    && forall l :: l in r.logs ==> l.container in {cfg.browsers[k].container, "chrome-bully", "smoke"}
  }

  lemma RunResultIsTidy(cfg: Config, framesDir: string, rs: seq<Result>, i: nat) returns (k: nat)
    requires WellNamed(cfg) && LabelsOf(rs) == Cube(Passes(cfg), cfg.browsers) && AllFiled(cfg, framesDir, rs) && i < |rs|
    ensures Tidy(rs[i]) && OfBrowser(cfg, rs[i], k)
    ensures rs[i].policy == "" <==> cfg.policies == []
    ensures rs[i].framePath == "" || rs[i].framePath == framesDir + "/" + LocalFrameName(rs[i].policy, rs[i].browser, rs[i].tag)
  {
    assert LabelsOf(rs)[i] == LabelOf(rs[i]);
    var j;
    j, k := CubeLabel(Passes(cfg), cfg.browsers, i);
    assert rs[i] in rs && Filed(cfg, framesDir, rs[i]);
    var b :| b in cfg.browsers && FiledUnder(b, framesDir, rs[i]);
    var c :| rs[i].logs == LogsOf(b, c);
    assert PlainBrowser(cfg.browsers[k]) && b == cfg.browsers[k];
    LogsHaveDistinctContainers(b, c);
  }

  lemma RunLogsApart(cfg: Config, r: Result, k: nat, q: Result, l: nat)
    requires PlainBrowsers(cfg.browsers) && DistinctBrowsers(cfg.browsers) && OfBrowser(cfg, r, k) && OfBrowser(cfg, q, l)
    ensures AllLogsApart(r, q)
  {
    var b := cfg.browsers[k];
    assert PlainBrowser(b);
    SmokeContainersApart();
    forall m, n | 0 <= m < |r.logs| && 0 <= n < |q.logs|
      ensures LogsApart(r, r.logs[m].container, q, q.logs[n].container)
    {
      assert r.logs[m] in r.logs && q.logs[n] in q.logs;
      assert r.browser == q.browser ==> k == l;
    }
  }

  lemma SmokeContainersApart()
    ensures Separate("chrome-bully", "smoke") && Separate("smoke", "chrome-bully")
  {
    var s := "chrome-bully";
    assert s[|s| - 5..][4] == 'y' && "smoke"[4] == 'e';
  }

  lemma RunResultsAreOrderly(cfg: Config, framesDir: string, rs: seq<Result>)
    requires WellNamed(cfg) && LabelsOf(rs) == Cube(Passes(cfg), cfg.browsers) && AllFiled(cfg, framesDir, rs)
    ensures Orderly(rs)
  {
    CubeHasNoDup(Passes(cfg), cfg.browsers);
    forall i | 0 <= i < |rs| ensures Tidy(rs[i]) && DistinctContainers(rs[i].logs) && (rs[i].policy == "" <==> cfg.policies == []) {
      var k := RunResultIsTidy(cfg, framesDir, rs, i);
    }
    forall i, j | 0 <= i < |rs| && 0 <= j < |rs| ensures AllLogsApart(rs[i], rs[j]) {
      var k := RunResultIsTidy(cfg, framesDir, rs, i);
      var l := RunResultIsTidy(cfg, framesDir, rs, j);
      RunLogsApart(cfg, rs[i], k, rs[j], l);
    }
  }

  /** No browser and tag read as some text, a dash, and another browser and tag. */
  predicate StemsApart(browsers: seq<Browser>) {
    forall b, d, t, u :: b in browsers && d in browsers && t in b.versions && u in d.versions ==>
      !EndsDashed(Stem(b.name, t), Stem(d.name, u))
  }

  lemma DashFreeStemsApart(browsers: seq<Browser>)
    requires forall b :: b in browsers ==> NoDash(b.name) && DashFree(b.versions)
    ensures StemsApart(browsers)
  {
    forall b, d, t, u | b in browsers && d in browsers && t in b.versions && u in d.versions
      ensures !EndsDashed(Stem(b.name, t), Stem(d.name, u))
    {
      OneDashEach(b.name, t, d.name, u);
    }
  }

  /**
   * For a run's own results, whatever the tags: no two files of its bundle share a name; and no captured frame
   * overwrites another if there are no policies or browsers and tags are apart, as they are without dashes.
   */
  lemma RunFilesNeverClash(cfg: Config, framesDir: string, rs: seq<Result>, json: string, markdown: string, disk: map<string, string>)
    requires WellNamed(cfg) && LabelsOf(rs) == Cube(Passes(cfg), cfg.browsers) && AllFiled(cfg, framesDir, rs)
    ensures cfg.policies == [] || StemsApart(cfg.browsers) ==>
      forall i, j :: 0 <= i < j < |rs| && rs[i].framePath != "" ==> rs[i].framePath != rs[j].framePath
    ensures NoDup(Names(BundleEntries(json, markdown, rs, disk)))
  {
    RunResultsAreOrderly(cfg, framesDir, rs);
    BundleNamesDiffer(json, markdown, rs, disk);
    if cfg.policies == [] || StemsApart(cfg.browsers) {
      forall i, j | 0 <= i < j < |rs| && rs[i].framePath != "" ensures rs[i].framePath != rs[j].framePath {
        FramePathsApart(cfg, framesDir, rs, i, j);
      }
    }
  }

  lemma FramePathsApart(cfg: Config, framesDir: string, rs: seq<Result>, i: nat, j: nat)
    requires WellNamed(cfg) && LabelsOf(rs) == Cube(Passes(cfg), cfg.browsers) && AllFiled(cfg, framesDir, rs)
    requires i < j < |rs| && rs[i].framePath != "" && (cfg.policies == [] || StemsApart(cfg.browsers))
    ensures rs[i].framePath != rs[j].framePath
  {
    var k := RunResultIsTidy(cfg, framesDir, rs, i);
    var l := RunResultIsTidy(cfg, framesDir, rs, j);
    CubeHasNoDup(Passes(cfg), cfg.browsers);
    assert LabelsOf(rs)[i] != LabelsOf(rs)[j];
    assert cfg.browsers[k] in cfg.browsers && cfg.browsers[l] in cfg.browsers;
    if rs[i].framePath == rs[j].framePath {
      var x, y := LocalFrameName(rs[i].policy, rs[i].browser, rs[i].tag), LocalFrameName(rs[j].policy, rs[j].browser, rs[j].tag);
      var d := framesDir + "/";
      assert (d + x)[|d|..] == x && (d + y)[|d|..] == y;
      ApartFramesDiffer(rs[i].policy, rs[i].browser, rs[i].tag, rs[j].policy, rs[j].browser, rs[j].tag);
    }
  }
}
