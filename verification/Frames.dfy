/** The file name chrome-bully gives a screenshot, and the version the sweep reads back from it. */
module Frames {
  import opened Manifests

  /** The characters chrome-bully leaves in a version. */
  predicate Safe(c: char) {
    'a' <= c <= 'z' || 'A' <= c <= 'Z' || '0' <= c <= '9' || c == '.' || c == '_' || c == '-'
  }

  function Sanitize(s: string): (r: string)
    ensures |r| == |s| && forall i :: 0 <= i < |s| ==> Safe(r[i]) && (Safe(s[i]) ==> r[i] == s[i])
  {
    seq(|s|, i requires 0 <= i < |s| => if Safe(s[i]) then s[i] else '-')
  }

  function CaptureName(version: string, stamp: string): string {
    "chrome-" + Sanitize(version) + "-" + stamp + ".png"
  }

  /** filepath.Join of a cleaned directory and a plain file name. */
  function Join(dir: string, name: string): string {
    if dir == "" then name else if dir[|dir| - 1] == '/' then dir + name else dir + "/" + name
  }

  function TrimSlashes(path: string): string
    decreases |path|
  {
    if path != "" && path[|path| - 1] == '/' then TrimSlashes(path[..|path| - 1]) else path
  }

  /** What follows the last c; everything when there is none. */
  function AfterLast(s: string, c: char): string {
    if s == "" || s[|s| - 1] == c then "" else AfterLast(s[..|s| - 1], c) + [s[|s| - 1]]
  }

  /** What precedes the last c; missing when there is none. */
  function BeforeLast(s: string, c: char): Option<string> {
    if s == "" then None else if s[|s| - 1] == c then Some(s[..|s| - 1]) else BeforeLast(s[..|s| - 1], c)
  }

  /** filepath.Base. */
  function BaseName(path: string): string {
    if path == "" then "."
    else if TrimSlashes(path) == "" then "/"
    else AfterLast(TrimSlashes(path), '/')
  }

  function TrimPrefix(s: string, prefix: string): string {
    if prefix <= s then s[|prefix|..] else s
  }

  function VersionFromFrame(path: string): string {
    var v := BeforeLast(TrimPrefix(BaseName(path), "chrome-"), '-');
    if v.Some? then v.value else ""
  }

  lemma {:induction false} CutsAtLast(u: string, x: string, c: char)
    requires c !in x
    ensures BeforeLast(u + [c] + x, c) == Some(u) && AfterLast(u + [c] + x, c) == x
  {
    var s := u + [c] + x;
    if x == "" {
      assert s == u + [c] && s[..|s| - 1] == u;
    } else {
      var n := |x| - 1;
      assert s[..|s| - 1] == u + [c] + x[..n] && s[|s| - 1] == x[n];
      assert x == x[..n] + [x[n]];
      CutsAtLast(u, x[..n], c);
    }
  }

  lemma {:induction false} NothingToCut(x: string, c: char)
    requires c !in x
    ensures AfterLast(x, c) == x
  {
    if x != "" {
      NothingToCut(x[..|x| - 1], c);
      assert x == x[..|x| - 1] + [x[|x| - 1]];
    }
  }

  lemma BaseOfJoin(dir: string, name: string)
    requires name != "" && '/' !in name
    ensures BaseName(Join(dir, name)) == name
  {
    var path := Join(dir, name);
    assert path[|path| - 1] == name[|name| - 1] != '/';
    assert TrimSlashes(path) == path;
    if dir == "" {
      NothingToCut(name, '/');
    } else if dir[|dir| - 1] == '/' {
      assert path == dir[..|dir| - 1] + "/" + name;
      CutsAtLast(dir[..|dir| - 1], name, '/');
    } else {
      CutsAtLast(dir, name, '/');
    }
  }

  /**
   * The frame name is a round trip: whatever the browser called its version, the sweep reads back exactly
   * what chrome-bully wrote, for any directory and any timestamp without dash or slash.
   */
  lemma FrameRoundTrip(dir: string, version: string, stamp: string)
    requires '-' !in stamp && '/' !in stamp
    ensures VersionFromFrame(Join(dir, CaptureName(version, stamp))) == Sanitize(version)
    ensures Sanitize(Sanitize(version)) == Sanitize(version)
  {
    var name := CaptureName(version, stamp);
    var v, rest := Sanitize(version), stamp + ".png";
    assert name == "chrome-" + (v + "-" + rest);
    assert '/' !in name by {
      assert '/' !in "chrome-" && '/' !in ".png";
      assert forall i :: 0 <= i < |v| ==> v[i] != '/';
      assert '/' !in v && '/' !in rest;
    }
    BaseOfJoin(dir, name);
    assert TrimPrefix(name, "chrome-") == v + "-" + rest;
    CutsAtLast(v, rest, '-');
  }
}
