/** Comment bodies under a hard byte limit, cut without breaking a character. Strings are byte sequences. */
module Truncation {

  type byte = b: int | 0 <= b < 256

  type Bytes = seq<byte>

  /** utf8.RuneStart: not a continuation byte 10xxxxxx. */
  predicate RuneStart(b: byte) {
    b / 64 != 2
  }

  /** A continuation byte (UTF8-tail in section 4 of RFC 3629). */
  predicate Tail(b: byte) {
    0x80 <= b <= 0xBF
  }

  /** The length of the character at the front of s, by the grammar of section 4 of RFC 3629; 0 if there is none. */
  function RuneLen(s: Bytes): nat {
    if s == [] then 0
    else if s[0] <= 0x7F then 1
    else if |s| >= 2 && 0xC2 <= s[0] <= 0xDF && Tail(s[1]) then 2
    else if |s| >= 3 && Tail(s[2])
         && ((s[0] == 0xE0 && 0xA0 <= s[1] <= 0xBF) || (0xE1 <= s[0] <= 0xEC && Tail(s[1]))
             || (s[0] == 0xED && 0x80 <= s[1] <= 0x9F) || (0xEE <= s[0] <= 0xEF && Tail(s[1]))) then 3
    else if |s| >= 4 && Tail(s[2]) && Tail(s[3])
         && ((s[0] == 0xF0 && 0x90 <= s[1] <= 0xBF) || (0xF1 <= s[0] <= 0xF3 && Tail(s[1]))
             || (s[0] == 0xF4 && 0x80 <= s[1] <= 0x8F)) then 4
    else 0
  }

  predicate WellFormed(s: Bytes) {
    s == [] || (0 < RuneLen(s) <= |s| && WellFormed(s[RuneLen(s)..]))
  }

  /** The characters' own shape: a start byte, then only continuation bytes, and longer input does not change it. */
  lemma RuneShape(s: Bytes, t: Bytes)
    requires RuneLen(s) > 0
    ensures RuneLen(s) <= |s| && RuneLen(s) <= 4
    ensures RuneStart(s[0]) && forall i :: 0 < i < RuneLen(s) ==> !RuneStart(s[i])
    ensures RuneLen(s + t) == RuneLen(s)
  {
  }

  lemma RunePrefix(s: Bytes, i: nat)
    requires RuneLen(s) > 0 && i <= |s|
    ensures RuneLen(s[..i]) == if i < RuneLen(s) then 0 else RuneLen(s)
  {
    RuneShape(s, []);
  }

  /** One character in front of well-formed text. */
  lemma WellFormedCons(s: Bytes, n: nat)
    requires 0 < n <= |s| && RuneLen(s) == n && WellFormed(s[n..])
    ensures WellFormed(s)
  {
  }

  lemma TailOfConcat(s: Bytes, t: Bytes, n: nat)
    requires n <= |s|
    ensures (s + t)[n..] == s[n..] + t
  {
  }

  lemma {:induction false} WellFormedConcat(s: Bytes, t: Bytes)
    requires WellFormed(s) && WellFormed(t)
    ensures WellFormed(s + t)
  {
    if s == [] {
      assert s + t == t;
    } else {
      var n := RuneLen(s);
      var u := s + t;
      assert 0 < n <= |s| && RuneLen(u) == n by { RuneShape(s, t); }
      TailOfConcat(s, t, n);
      WellFormedConcat(s[n..], t);
      WellFormedCons(u, n);
    }
  }

  /** In well-formed text the cut points are exactly the start bytes. */
  lemma {:induction false} CutPoints(s: Bytes, i: nat)
    requires WellFormed(s) && i < |s|
    ensures WellFormed(s[..i]) <==> RuneStart(s[i])
  {
    var n := RuneLen(s);
    RuneShape(s, []);
    RunePrefix(s, i);
    if i >= n {
      CutPoints(s[n..], i - n);
      assert s[..i][n..] == s[n..][..i - n];
    } else if i > 0 {
      assert !WellFormed(s[..i]);
    }
  }

  /** A start byte is never more than three bytes back. */
  lemma {:induction false} StartIsNear(s: Bytes, i: nat) returns (j: nat)
    requires WellFormed(s) && i < |s|
    ensures j <= i <= j + 3 && RuneStart(s[j])
  {
    var n := RuneLen(s);
    RuneShape(s, []);
    if i < n {
      j := 0;
    } else {
      j := StartIsNear(s[n..], i - n);
      j := j + n;
    }
  }

  /** The bytes of an ASCII string; anything else would become '?'. */
  function Ascii(s: string): (b: Bytes)
    ensures |b| == |s|
  {
    seq(|s|, i requires 0 <= i < |s| => if s[i] as int < 128 then s[i] as int else 63)
  }

  lemma {:induction false} AsciiWellFormed(b: Bytes)
    requires forall i :: 0 <= i < |b| ==> b[i] < 128
    ensures WellFormed(b)
  {
    if b != [] {
      AsciiWellFormed(b[1..]);
      assert RuneLen(b) == 1;
    }
  }

  const MAX_COMMENT := 65536

  const ELLIPSIS: Bytes := [0xE2, 0x80, 0xA6]

  const NOTE: Bytes := Ascii("\n\n_") + ELLIPSIS + Ascii("report truncated (exceeded GitHub's comment size limit)_")

  lemma NoteWellFormed()
    ensures WellFormed(NOTE)
  {
    AsciiWellFormed(Ascii("\n\n_"));
    AsciiWellFormed(Ascii("report truncated (exceeded GitHub's comment size limit)_"));
    assert RuneLen(ELLIPSIS) == 3 && ELLIPSIS[3..] == [];
    WellFormedConcat(Ascii("\n\n_"), ELLIPSIS);
    WellFormedConcat(Ascii("\n\n_") + ELLIPSIS, Ascii("report truncated (exceeded GitHub's comment size limit)_"));
  }

  /** The largest start byte at or before i; 0 if there is none. */
  function CutAt(s: Bytes, i: nat): (c: nat)
    requires i < |s|
    ensures c <= i && (c > 0 ==> RuneStart(s[c])) && forall j :: c < j <= i ==> !RuneStart(s[j])
  {
    if i == 0 || RuneStart(s[i]) then i else CutAt(s, i - 1)
  }

  /** How much of the text may stay. */
  function Room(max: int, note: Bytes): nat {
    if max < |note| then 0 else max - |note|
  }

  function Capped(s: Bytes, max: int, note: Bytes := NOTE): Bytes {
    if |s| <= max then s
    else if s == [] then note
    else s[..CutAt(s, Room(max, note))] + note
  }

  method CapTo(s: Bytes, max: int, note: Bytes := NOTE) returns (r: Bytes)
    ensures r == Capped(s, max, note)
  {
    if |s| <= max { return s; }
    var limit: int := max - |note|;
    if limit < 0 { limit := 0; }
    while limit > 0 && !RuneStart(s[limit])
      invariant 0 <= limit <= Room(max, note) && (s != [] ==> CutAt(s, limit) == CutAt(s, Room(max, note)))
      invariant s == [] ==> limit == 0
    {
      limit := limit - 1;
    }
    return s[..limit] + note;
  }

  /**
   * For well-formed input: the identity when it fits, otherwise the longest prefix on a character
   * boundary that leaves room for the note, then the note. At most three extra bytes are dropped.
   */
  lemma CappedIsLongest(s: Bytes, max: int, note: Bytes) returns (c: nat)
    requires WellFormed(s) && WellFormed(note)
    ensures WellFormed(Capped(s, max, note))
    ensures |s| <= max ==> Capped(s, max, note) == s
    ensures |s| > max ==>
      && c <= |s| && c <= Room(max, note) <= c + 3
      && WellFormed(s[..c]) && Capped(s, max, note) == s[..c] + note
      && forall j :: c < j <= Room(max, note) && j <= |s| ==> !WellFormed(s[..j])
  {
    c := 0;
    if |s| > max && s != [] {
      c := CutAt(s, Room(max, note));
      if c > 0 { CutPoints(s, c); } else { assert s[..0] == []; }
      WellFormedConcat(s[..c], note);
      var j := StartIsNear(s, Room(max, note));
      forall k | c < k <= Room(max, note) && k <= |s|
        ensures !WellFormed(s[..k])
      {
        CutPoints(s, k);
      }
    }
  }

  /** The bound, for any bytes at all: it fails exactly when the input is cut and the limit is below the note itself. */
  lemma CappedBound(s: Bytes, max: int, note: Bytes)
    ensures |Capped(s, max, note)| <= max <==> |s| <= max || |note| <= max
  {
  }

  /** For instance: a limit of one byte. */
  lemma TinyLimitIsExceeded()
    ensures |Capped([65, 65], 1, NOTE)| > 1
  {
    CappedBound([65, 65], 1, NOTE);
  }

  // ---- bodyResult and bodyRunError ----

  function ShaSuffix(sha: Bytes): Bytes {
    if sha == [] then [] else Ascii(" (`") + sha + Ascii("`)")
  }

  /** The check mark is U+2705, the cross U+274C. */
  function Head(success: bool, sha: Bytes): Bytes {
    (if success then [0xE2, 0x9C, 0x85] + Ascii(" Gubal smoke test passed")
     else [0xE2, 0x9D, 0x8C] + Ascii(" Gubal smoke test found failures"))
    + ShaSuffix(sha) + Ascii("\n\n")
  }

  /** The package is U+1F4E6, the dash U+2014. */
  function Link(url: Bytes): Bytes {
    if url == [] then []
    else Ascii("\n\n") + [0xF0, 0x9F, 0x93, 0xA6] + Ascii(" [Download report bundle (frames + logs)](") + url
         + Ascii(") ") + [0xE2, 0x80, 0x94] + Ascii(" link expires in 24h")
  }

  /** The report is cut to what header and link leave. */
  function Assembled(head: Bytes, report: Bytes, tail: Bytes, note: Bytes := NOTE): Bytes {
    head + Capped(report, MAX_COMMENT - |head| - |tail|, note) + tail
  }

  function BodyResult(success: bool, report: Bytes, sha: Bytes, url: Bytes): Bytes {
    Assembled(Head(success, sha), report, Link(url))
  }

  function BodyRunError(sha: Bytes, err: Bytes): Bytes {
    Capped([0xE2, 0x9D, 0x8C] + Ascii(" Gubal smoke test failed to run") + ShaSuffix(sha) + Ascii(": ") + err, MAX_COMMENT)
  }

  /**
   * A comment always keeps its header and link, whatever the report, and stays within GitHub's limit
   * exactly when the whole report fits or header, note and link do.
   */
  lemma AssembledBound(head: Bytes, report: Bytes, tail: Bytes, note: Bytes)
    ensures var body := Assembled(head, report, tail, note);
      && head <= body && |body| >= |head| + |tail| && body[|body| - |tail|..] == tail
      && body[|head|..|body| - |tail|] == Capped(report, 65536 - |head| - |tail|, note)
      && (|body| <= 65536 <==> |head| + |report| + |tail| <= 65536 || |head| + |note| + |tail| <= 65536)
      && (|head| + |report| + |tail| <= 65536 ==> body == head + report + tail)
  {
    CappedBound(report, 65536 - |head| - |tail|, note);
  }

  lemma BodyResultBound(success: bool, report: Bytes, sha: Bytes, url: Bytes)
    ensures var body := BodyResult(success, report, sha, url); var h, l := Head(success, sha), Link(url);
      && h <= body && |body| >= |h| + |l| && body[|body| - |l|..] == l
      && body[|h|..|body| - |l|] == Capped(report, 65536 - |h| - |l|, NOTE)
      && (|body| <= 65536 <==> |h| + |report| + |l| <= 65536 || |h| + |NOTE| + |l| <= 65536)
      && (|h| + |report| + |l| <= 65536 ==> body == h + report + l)
  {
    AssembledBound(Head(success, sha), report, Link(url), NOTE);
  }

  /** For instance: a download link that alone is as long as a comment may be. */
  lemma LongLinkIsTooMuch()
    ensures |BodyResult(true, [65], [], seq(MAX_COMMENT, _ => 65))| > MAX_COMMENT
  {
    BodyResultBound(true, [65], [], seq(MAX_COMMENT, _ => 65));
  }

  lemma BodyRunErrorBound(sha: Bytes, err: Bytes)
    ensures |BodyRunError(sha, err)| <= 65536
  {
    CappedBound([0xE2, 0x9D, 0x8C] + Ascii(" Gubal smoke test failed to run") + ShaSuffix(sha) + Ascii(": ") + err, MAX_COMMENT, NOTE);
  }

  // ---- What a comment says ----

  /** The comment's first words: the test passed, or it found failures, or it could not be run. */
  predicate SaysPassed(body: Bytes) {
    [0xE2, 0x9C, 0x85] + Ascii(" Gubal smoke test passed") <= body
  }

  predicate SaysFailures(body: Bytes) {
    [0xE2, 0x9D, 0x8C] + Ascii(" Gubal smoke test found failures") <= body
  }

  predicate SaysNotRun(body: Bytes) {
    [0xE2, 0x9D, 0x8C] + Ascii(" Gubal smoke test failed to run") <= body
  }

  lemma StartsApart(a: Bytes, b: Bytes, body: Bytes, k: nat)
    requires k < |a| && k < |b| && a[k] != b[k]
    ensures !(a <= body && b <= body)
  {
    if a <= body { assert body[k] == a[k]; }
  }

  /** One cannot be read for another. */
  lemma WordsDiffer(body: Bytes)
    ensures !(SaysPassed(body) && SaysFailures(body)) && !(SaysPassed(body) && SaysNotRun(body))
    ensures !(SaysFailures(body) && SaysNotRun(body))
  {
    var passed := [0xE2, 0x9C, 0x85] + Ascii(" Gubal smoke test passed");
    var failures := [0xE2, 0x9D, 0x8C] + Ascii(" Gubal smoke test found failures");
    var notRun := [0xE2, 0x9D, 0x8C] + Ascii(" Gubal smoke test failed to run");
    StartsApart(passed, failures, body, 1);
    StartsApart(passed, notRun, body, 1);
    assert failures[22] == 'o' as int && notRun[22] == 'a' as int;
    StartsApart(failures, notRun, body, 22);
  }

  lemma PrefixPrefix(a: Bytes, b: Bytes, c: Bytes)
    requires a <= b <= c
    ensures a <= c
  {
  }

  lemma HeadSays(success: bool, sha: Bytes)
    ensures if success then SaysPassed(Head(true, sha)) else SaysFailures(Head(false, sha))
  {
    var words := if success then [0xE2, 0x9C, 0x85] + Ascii(" Gubal smoke test passed")
                 else [0xE2, 0x9D, 0x8C] + Ascii(" Gubal smoke test found failures");
    assert Head(success, sha) == words + (ShaSuffix(sha) + Ascii("\n\n"));
  }

  /** A result comment says that the test passed exactly when it did, and otherwise that it found failures. */
  lemma ResultSays(success: bool, report: Bytes, sha: Bytes, url: Bytes)
    ensures var body := BodyResult(success, report, sha, url);
      && (SaysPassed(body) <==> success) && (SaysFailures(body) <==> !success) && !SaysNotRun(body)
  {
    var body := BodyResult(success, report, sha, url);
    BodyResultBound(success, report, sha, url);
    HeadSays(success, sha);
    if success {
      PrefixPrefix([0xE2, 0x9C, 0x85] + Ascii(" Gubal smoke test passed"), Head(success, sha), body);
    } else {
      PrefixPrefix([0xE2, 0x9D, 0x8C] + Ascii(" Gubal smoke test found failures"), Head(success, sha), body);
    }
    WordsDiffer(body);
  }

  /** Whatever is cut, a start byte within the room and all before it stay. */
  lemma PrefixStays(s: Bytes, n: nat, max: int, note: Bytes)
    requires n < |s| && RuneStart(s[n]) && n <= Room(max, note)
    ensures s[..n] <= Capped(s, max, note)
  {
    if |s| > max && s != [] && Room(max, note) < |s| {
      var c := CutAt(s, Room(max, note));
      assert n <= c;
      assert s[..c][..n] == s[..n];
      PrefixPrefix(s[..n], s[..c], s[..c] + note);
    }
  }

  /** An error comment says that the test could not be run, however much of the error is cut. */
  lemma RunErrorSays(sha: Bytes, err: Bytes)
    ensures var body := BodyRunError(sha, err); SaysNotRun(body) && !SaysPassed(body) && !SaysFailures(body)
  {
    var words := [0xE2, 0x9D, 0x8C] + Ascii(" Gubal smoke test failed to run");
    var more := ShaSuffix(sha) + Ascii(": ") + err;
    var s := words + more;
    assert [0xE2, 0x9D, 0x8C] + Ascii(" Gubal smoke test failed to run") + ShaSuffix(sha) + Ascii(": ") + err == s;
    assert more[0] == (if sha == [] then ':' else ' ') as int by { RunErrorNext(sha, err); }
    assert s[..|words|] == words && s[|words|] == more[0];
    PrefixStays(s, |words|, MAX_COMMENT, NOTE);
    WordsDiffer(BodyRunError(sha, err));
  }

  lemma RunErrorNext(sha: Bytes, err: Bytes)
    ensures var more := ShaSuffix(sha) + Ascii(": ") + err; more != [] && more[0] == (if sha == [] then ':' else ' ') as int
  {
  }

  // ---- No comment breaks a character ----

  lemma AsciiIsText(s: string)
    ensures WellFormed(Ascii(s))
  {
    AsciiWellFormed(Ascii(s));
  }

  lemma SymbolIsText(b: Bytes)
    requires b != [] && RuneLen(b) == |b|
    ensures WellFormed(b)
  {
    assert b[|b|..] == [];
  }

  lemma ShaSuffixIsText(sha: Bytes)
    requires WellFormed(sha)
    ensures WellFormed(ShaSuffix(sha))
  {
    AsciiIsText(" (`");
    AsciiIsText("`)");
    WellFormedConcat(Ascii(" (`"), sha);
    WellFormedConcat(Ascii(" (`") + sha, Ascii("`)"));
  }

  lemma HeadIsText(success: bool, sha: Bytes)
    requires WellFormed(sha)
    ensures WellFormed(Head(success, sha))
  {
    var mark: Bytes := if success then [0xE2, 0x9C, 0x85] else [0xE2, 0x9D, 0x8C];
    var words := if success then " Gubal smoke test passed" else " Gubal smoke test found failures";
    SymbolIsText(mark);
    AsciiIsText(words);
    AsciiIsText("\n\n");
    ShaSuffixIsText(sha);
    WellFormedConcat(mark, Ascii(words));
    WellFormedConcat(mark + Ascii(words), ShaSuffix(sha));
    WellFormedConcat(mark + Ascii(words) + ShaSuffix(sha), Ascii("\n\n"));
  }

  lemma LinkIsText(url: Bytes)
    requires WellFormed(url)
    ensures WellFormed(Link(url))
  {
    var a, b: Bytes := Ascii("\n\n"), [0xF0, 0x9F, 0x93, 0xA6];
    var c, d, e: Bytes := Ascii(" [Download report bundle (frames + logs)]("), Ascii(") "), [0xE2, 0x80, 0x94];
    var f := Ascii(" link expires in 24h");
    AsciiIsText("\n\n");
    SymbolIsText(b);
    AsciiIsText(" [Download report bundle (frames + logs)](");
    AsciiIsText(") ");
    SymbolIsText(e);
    AsciiIsText(" link expires in 24h");
    WellFormedConcat(a, b);
    WellFormedConcat(a + b, c);
    WellFormedConcat(a + b + c, url);
    WellFormedConcat(a + b + c + url, d);
    WellFormedConcat(a + b + c + url + d, e);
    WellFormedConcat(a + b + c + url + d + e, f);
  }

  lemma CappedIsText(s: Bytes, max: int, note: Bytes)
    requires WellFormed(s) && WellFormed(note)
    ensures WellFormed(Capped(s, max, note))
  {
    var _ := CappedIsLongest(s, max, note);
  }

  lemma Around(head: Bytes, body: Bytes, tail: Bytes)
    requires WellFormed(head) && WellFormed(body) && WellFormed(tail)
    ensures WellFormed(head + body + tail)
  {
    WellFormedConcat(head, body);
    WellFormedConcat(head + body, tail);
  }

  lemma AssembledIsText(head: Bytes, report: Bytes, tail: Bytes, note: Bytes)
    requires WellFormed(head) && WellFormed(report) && WellFormed(tail) && WellFormed(note)
    ensures WellFormed(Assembled(head, report, tail, note))
  {
    CappedIsText(report, MAX_COMMENT - |head| - |tail|, note);
    Around(head, Capped(report, MAX_COMMENT - |head| - |tail|, note), tail);
  }

  /** Whatever is cut away, a result comment made of well-formed text is well-formed text. */
  lemma BodyResultIsText(success: bool, report: Bytes, sha: Bytes, url: Bytes)
    requires WellFormed(report) && WellFormed(sha) && WellFormed(url)
    ensures WellFormed(BodyResult(success, report, sha, url))
  {
    HeadIsText(success, sha);
    LinkIsText(url);
    NoteWellFormed();
    AssembledIsText(Head(success, sha), report, Link(url), NOTE);
  }
}
