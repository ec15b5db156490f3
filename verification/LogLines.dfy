/** Container logs as text, one model character per byte: finding the captured frame, and the excerpt a report shows. */
module LogLines {
  import opened Manifests

  // ---- bufio.Scanner over lines ----

  const LIMIT := 1024 * 1024

  /** The lines of a text; a final newline starts no further line. */
  function RawLines(text: string, line: string := ""): seq<string>
    decreases |text|
  {
    if text == "" then (if line == "" then [] else [line])
    else if text[0] == '\n' then [line] + RawLines(text[1..], "")
    else RawLines(text[1..], line + [text[0]])
  }

  /** Empty, or ending in a newline. */
  predicate WholeLines(text: string) {
    text == "" || text[|text| - 1] == '\n'
  }

  /** The lines, each with a newline behind it. */
  function Unlines(ls: seq<string>): string {
    if ls == [] then "" else ls[0] + "\n" + Unlines(ls[1..])
  }

  /** The text with its last line ended. */
  function Ended(s: string): string {
    if WholeLines(s) then s else s + "\n"
  }

  lemma EndedAfterLine(line: string, rest: string)
    ensures Ended(line + "\n" + rest) == line + "\n" + Ended(rest)
  {
    var s := line + "\n" + rest;
    assert s[|s| - 1] == if rest == "" then '\n' else rest[|rest| - 1];
    if !WholeLines(rest) { assert s + "\n" == line + "\n" + (rest + "\n"); }
  }

  lemma UnlinesCons(line: string, ls: seq<string>)
    ensures Unlines([line] + ls) == line + "\n" + Unlines(ls)
  {
    assert ([line] + ls)[1..] == ls;
  }

  lemma LastLineEnded(line: string)
    requires '\n' !in line
    ensures Unlines(RawLines("", line)) == Ended(line)
  {
    if line != "" {
      assert line[|line| - 1] in line;
      UnlinesCons(line, []);
      assert [line] + [] == [line];
      assert line + "\n" + "" == line + "\n";
    }
  }

  lemma HeadOf(line: string, text: string)
    requires text != ""
    ensures line + text == line + [text[0]] + text[1..] && "" + text[1..] == text[1..]
  {
  }

  /** The lines of a text are the text, cut at newlines ... */
  lemma {:induction false} RawLinesMeaning(text: string, line: string)
    requires '\n' !in line
    ensures Unlines(RawLines(text, line)) == Ended(line + text)
    decreases |text|
  {
    if text == "" {
      LastLineEnded(line);
      assert line + text == line;
    } else {
      HeadOf(line, text);
      if text[0] == '\n' {
        RawLinesMeaning(text[1..], "");
        UnlinesCons(line, RawLines(text[1..], ""));
        EndedAfterLine(line, text[1..]);
      } else {
        RawLinesMeaning(text[1..], line + [text[0]]);
      }
    }
  }

  /** ... and at each of them. */
  lemma {:induction false} RawLinesAreLines(text: string, line: string)
    requires '\n' !in line
    ensures forall l :: l in RawLines(text, line) ==> '\n' !in l
    decreases |text|
  {
    if text != "" { RawLinesAreLines(text[1..], if text[0] == '\n' then "" else line + [text[0]]); }
  }

  /** A carriage return before the newline is not part of the line. */
  function DropCR(line: string): string {
    if line != "" && line[|line| - 1] == '\r' then line[..|line| - 1] else line
  }

  lemma CarriageReturnIsDropped(line: string)
    ensures DropCR(line + "\r") == line
    ensures line == "" || line[|line| - 1] != '\r' ==> DropCR(line) == line
  {
    var s := line + "\r";
    assert s[|s| - 1] == '\r' && s[..|s| - 1] == line;
  }

  /** What a JSON log line says; the decoder itself is left open. */
  datatype LogLine = LogLine(msg: string, path: string, err: string)

  type Decoder = string -> Option<LogLine>

  datatype Capture = Captured(path: string) | Fatal(err: string) | NotFound

  /** A line that settles the answer: a frame with a path, or a fatal error. */
  function Decision(line: string, decode: Decoder): Option<Capture> {
    var l := decode(DropCR(line));
    if l.None? then None
    else if l.value.msg == "captured" then (if l.value.path != "" then Some(Captured(l.value.path)) else None)
    else if l.value.msg == "fatal" then Some(Fatal(l.value.err))
    else None
  }

  /** The scanner gives up on a line that does not fit its buffer. */
  function FirstDecision(lines: seq<string>, decode: Decoder): Capture {
    if lines == [] || |lines[0]| >= LIMIT then NotFound
    else if Decision(lines[0], decode).Some? then Decision(lines[0], decode).value
    else FirstDecision(lines[1..], decode)
  }

  method CapturedFramePath(logs: string, decode: Decoder) returns (r: Capture)
    ensures r == FirstDecision(RawLines(logs), decode)
  {
    var lines := RawLines(logs);
    for i := 0 to |lines|
      invariant FirstDecision(lines, decode) == FirstDecision(lines[i..], decode)
    {
      assert lines[i..][1..] == lines[i + 1..];
      if |lines[i]| >= LIMIT { return NotFound; }
      var l := decode(DropCR(lines[i]));
      if l.None? { continue; }
      match l.value.msg {
        case "captured" => if l.value.path != "" { return Captured(l.value.path); }
        case "fatal" => return Fatal(l.value.err);
        case _ =>
      }
    }
    r := NotFound;
  }

  /** Lines that settle nothing, each within the scanner's limit. */
  predicate Noise(lines: seq<string>, decode: Decoder) {
    forall i :: 0 <= i < |lines| ==> |lines[i]| < LIMIT && Decision(lines[i], decode).None?
  }

  lemma {:induction false} RawLinesConcat(a: string, b: string, line: string)
    requires WholeLines(a) && (a == "" ==> line == "")
    ensures RawLines(a + b, line) == RawLines(a, line) + RawLines(b)
    decreases |a|
  {
    if a == "" {
      assert a + b == b;
    } else {
      assert (a + b)[1..] == a[1..] + b && (a + b)[0] == a[0];
      if a[0] == '\n' {
        RawLinesConcat(a[1..], b, "");
      } else {
        RawLinesConcat(a[1..], b, line + [a[0]]);
      }
    }
  }

  lemma {:induction false} NoiseIsSkipped(noise: seq<string>, rest: seq<string>, decode: Decoder)
    requires Noise(noise, decode)
    ensures FirstDecision(noise + rest, decode) == FirstDecision(rest, decode)
  {
    if noise == [] {
      assert noise + rest == rest;
    } else {
      assert (noise + rest)[1..] == noise[1..] + rest;
      NoiseIsSkipped(noise[1..], rest, decode);
    }
  }

  lemma {:induction false} FirstDecisionConcat(a: seq<string>, b: seq<string>, c: seq<string>, decode: Decoder)
    requires FirstDecision(b, decode) == FirstDecision(c, decode)
    ensures FirstDecision(a + b, decode) == FirstDecision(a + c, decode)
  {
    if a == [] {
      assert a + b == b && a + c == c;
    } else {
      assert (a + b)[1..] == a[1..] + b && (a + c)[1..] == a[1..] + c;
      FirstDecisionConcat(a[1..], b, c, decode);
    }
  }

  /** Other output between the log lines, wherever it falls and however much, never changes the answer. */
  lemma NoiseChangesNothing(before: string, noise: string, after: string, decode: Decoder)
    requires WholeLines(before) && WholeLines(noise) && Noise(RawLines(noise), decode)
    ensures FirstDecision(RawLines(before + noise + after), decode) == FirstDecision(RawLines(before + after), decode)
  {
    assert before + noise + after == before + (noise + after);
    RawLinesConcat(before, noise + after, "");
    RawLinesConcat(noise, after, "");
    RawLinesConcat(before, after, "");
    NoiseIsSkipped(RawLines(noise), RawLines(after), decode);
    FirstDecisionConcat(RawLines(before), RawLines(noise) + RawLines(after), RawLines(after), decode);
  }

  /** Line k settles the answer: it does so itself, and every line before it is noise. */
  predicate Settles(lines: seq<string>, k: nat, decode: Decoder) {
    k < |lines| && |lines[k]| < LIMIT && Decision(lines[k], decode).Some? && Noise(lines[..k], decode)
  }

  /** The answer is that of the line that settles it, and there is none exactly when no line does. */
  lemma FirstDecisionMeaning(lines: seq<string>, decode: Decoder)
    ensures FirstDecision(lines, decode) == NotFound <==> forall k: nat :: !Settles(lines, k, decode)
    ensures forall k: nat :: Settles(lines, k, decode) ==> FirstDecision(lines, decode) == Decision(lines[k], decode).value
  {
    forall k: nat | Settles(lines, k, decode)
      ensures FirstDecision(lines, decode) == Decision(lines[k], decode).value != NotFound
    {
      assert lines == lines[..k] + lines[k..];
      NoiseIsSkipped(lines[..k], lines[k..], decode);
    }
    if FirstDecision(lines, decode) != NotFound {
      var k := DecisiveLine(lines, decode);
    }
  }

  lemma {:induction false} DecisiveLine(lines: seq<string>, decode: Decoder) returns (k: nat)
    requires FirstDecision(lines, decode) != NotFound
    ensures Settles(lines, k, decode)
    decreases |lines|
  {
    if Decision(lines[0], decode).Some? {
      k := 0;
    } else {
      k := DecisiveLine(lines[1..], decode);
      assert lines[..k + 1] == [lines[0]] + lines[1..][..k];
      k := k + 1;
    }
  }

  /** Line k says so: a frame was captured, and where, or a fatal error, and which. */
  predicate Says(lines: seq<string>, k: nat, decode: Decoder, c: Capture) {
    && k < |lines| && |lines[k]| < 1048576 && decode(DropCR(lines[k])).Some?
    && var l := decode(DropCR(lines[k])).value;
       match c
       case Captured(path) => l.msg == "captured" && path != "" && l.path == path
       case Fatal(err) => l.msg == "fatal" && l.err == err
       case NotFound => false
  }

  predicate Silent(lines: seq<string>, k: nat, decode: Decoder) {
    && k < |lines| && |lines[k]| < 1048576
    && (decode(DropCR(lines[k])).Some? ==>
          var l := decode(DropCR(lines[k])).value; l.msg != "fatal" && (l.msg == "captured" ==> l.path == ""))
  }

  /** The answer in terms of what the lines say: the first that says anything, if no line before it is too long. */
  predicate AnsweredAt(lines: seq<string>, k: nat, decode: Decoder, c: Capture) {
    Says(lines, k, decode, c) && forall j: nat :: j < k ==> Silent(lines, j, decode)
  }

  lemma AnswerMeaning(lines: seq<string>, decode: Decoder, c: Capture)
    requires c != NotFound
    ensures FirstDecision(lines, decode) == c <==> exists k: nat :: AnsweredAt(lines, k, decode, c)
  {
    FirstDecisionMeaning(lines, decode);
    if FirstDecision(lines, decode) == c {
      var k := DecisiveLine(lines, decode);
      forall j: nat | j < k ensures Silent(lines, j, decode) { assert lines[..k][j] == lines[j]; }
      assert AnsweredAt(lines, k, decode, c);
    }
    forall k: nat | AnsweredAt(lines, k, decode, c) ensures FirstDecision(lines, decode) == c {
      forall j | 0 <= j < k ensures |lines[j]| < LIMIT && Decision(lines[j], decode).None? { assert Silent(lines, j, decode); }
      assert Settles(lines, k, decode);
    }
  }

  // ---- The excerpt ----

  /** strings.Split at newlines: always at least one piece. */
  function Split(s: string): (ls: seq<string>)
    ensures ls != [] && forall l :: l in ls ==> '\n' !in l
  {
    if s == "" then [""]
    else
      var ls := Split(s[..|s| - 1]);
      if s[|s| - 1] == '\n' then ls + [""] else ls[..|ls| - 1] + [ls[|ls| - 1] + [s[|s| - 1]]]
  }

  function JoinLines(ls: seq<string>): string {
    if ls == [] then "" else if |ls| == 1 then ls[0] else JoinLines(ls[..|ls| - 1]) + "\n" + ls[|ls| - 1]
  }

  function LastN(ls: seq<string>, n: nat): seq<string> {
    if |ls| > n then ls[|ls| - n..] else ls
  }

  /** strings.TrimRight at newlines. */
  function TrimNewlines(s: string): (t: string)
    ensures t <= s && (t == "" || t[|t| - 1] != '\n')
  {
    if s != "" && s[|s| - 1] == '\n' then TrimNewlines(s[..|s| - 1]) else s
  }

  function LastLines(s: string, n: nat): string {
    JoinLines(LastN(Split(TrimNewlines(s)), n))
  }

  function TrimOneNewline(s: string): string {
    if s != "" && s[|s| - 1] == '\n' then s[..|s| - 1] else s
  }

  /** What the comment on lastLines promises: only a single trailing newline is ignored. */
  function PromisedLines(s: string, n: nat): string {
    JoinLines(LastN(Split(TrimOneNewline(s)), n))
  }

  lemma SplitEnd(s: string)
    ensures Split(s)[|Split(s)| - 1] == "" <==> s == "" || s[|s| - 1] == '\n'
    ensures s != "" && s[|s| - 1] != '\n' ==> var l := Split(s)[|Split(s)| - 1]; l[|l| - 1] == s[|s| - 1]
  {
  }

  /** A joined text ends like its last piece; behind an empty last piece, in a newline. */
  lemma JoinEnd(ls: seq<string>)
    requires ls != []
    ensures var l, t := ls[|ls| - 1], JoinLines(ls);
      if l != "" then t != "" && t[|t| - 1] == l[|l| - 1]
      else if |ls| == 1 then t == ""
      else t != "" && t[|t| - 1] == '\n'
  {
    if |ls| > 1 && ls[|ls| - 1] == "" {
      assert JoinLines(ls) == JoinLines(ls[..|ls| - 1]) + "\n";
    }
  }

  lemma ExcerptNeverEndsBlank(s: string, n: nat)
    requires n > 0
    ensures var t := LastLines(s, n); t == "" || t[|t| - 1] != '\n'
  {
    var u := TrimNewlines(s);
    var ls := LastN(Split(u), n);
    SplitEnd(u);
    JoinEnd(ls);
    if u == "" { assert Split(u) == [""]; }
  }

  lemma PromisedEndsBlank(s: string, n: nat)
    requires n > 1 && |s| > 1 && s[|s| - 1] == '\n' && s[|s| - 2] == '\n'
    ensures var t := PromisedLines(s, n); t != "" && t[|t| - 1] == '\n'
  {
    var u := TrimOneNewline(s);
    SplitEnd(u);
    assert u[|u| - 1] == '\n' && |Split(u)| > 1;
    JoinEnd(LastN(Split(u), n));
  }

  /**
   * The code trims every trailing newline, its comment speaks of one. For an excerpt of at least two lines
   * they agree exactly on texts that do not end in two newlines.
   */
  lemma ExcerptKeepsItsPromise(s: string, n: nat)
    requires n > 1
    ensures LastLines(s, n) == PromisedLines(s, n) <==> !(|s| > 1 && s[|s| - 1] == '\n' && s[|s| - 2] == '\n')
  {
    if |s| > 1 && s[|s| - 1] == '\n' && s[|s| - 2] == '\n' {
      ExcerptNeverEndsBlank(s, n);
      PromisedEndsBlank(s, n);
    } else if s != "" && s[|s| - 1] == '\n' {
      assert TrimNewlines(s[..|s| - 1]) == s[..|s| - 1];
    }
  }

  /** For instance: one line and two newlines, of which the comment would keep one. */
  lemma TwoNewlinesDiffer(n: nat)
    requires n > 1
    ensures LastLines("a\n\n", n) != PromisedLines("a\n\n", n)
  {
    ExcerptKeepsItsPromise("a\n\n", n);
  }

  function Newlines(s: string): nat {
    if s == "" then 0 else Newlines(s[..|s| - 1]) + if s[|s| - 1] == '\n' then 1 else 0
  }

  lemma {:induction false} NewlinesConcat(a: string, b: string)
    ensures Newlines(a + b) == Newlines(a) + Newlines(b)
  {
    if b == "" {
      assert a + b == a;
    } else {
      assert (a + b)[..|a + b| - 1] == a + b[..|b| - 1];
      NewlinesConcat(a, b[..|b| - 1]);
    }
  }

  lemma {:induction false} NoNewlines(s: string)
    requires '\n' !in s
    ensures Newlines(s) == 0
  {
    if s != "" { NoNewlines(s[..|s| - 1]); }
  }

  lemma {:induction false} JoinedNewlines(ls: seq<string>)
    requires ls != [] && forall l :: l in ls ==> '\n' !in l
    ensures Newlines(JoinLines(ls)) == |ls| - 1
  {
    var n := |ls| - 1;
    NoNewlines(ls[n]);
    if n > 0 {
      JoinedNewlines(ls[..n]);
      NewlinesConcat(JoinLines(ls[..n]), "\n");
      NewlinesConcat(JoinLines(ls[..n]) + "\n", ls[n]);
      assert Newlines("\n") == 1;
    }
  }

  lemma {:induction false} JoinSplit(s: string)
    ensures JoinLines(Split(s)) == s
  {
    if s != "" {
      var front, c := s[..|s| - 1], s[|s| - 1];
      var ls := Split(front);
      var n := |ls| - 1;
      JoinSplit(front);
      assert s == front + [c];
      if c == '\n' {
        assert (ls + [""])[..|ls|] == ls;
      } else {
        JoinLast(ls[..n], ls[n], c);
        assert ls == ls[..n] + [ls[n]];
      }
    }
  }

  lemma JoinLast(ls: seq<string>, l: string, c: char)
    ensures JoinLines(ls + [l + [c]]) == JoinLines(ls + [l]) + [c]
  {
    assert (ls + [l])[..|ls|] == ls && (ls + [l + [c]])[..|ls|] == ls;
    if ls != [] { assert JoinLines(ls) + "\n" + (l + [c]) == (JoinLines(ls) + "\n" + l) + [c]; }
  }

  lemma {:induction false} JoinCut(ls: seq<string>, m: nat)
    requires 0 < m < |ls|
    ensures JoinLines(ls) == JoinLines(ls[..m]) + "\n" + JoinLines(ls[m..])
  {
    var n := |ls| - 1;
    if m < n {
      JoinCut(ls[..n], m);
      assert ls[..n][..m] == ls[..m] && ls[..n][m..] == ls[m..n];
      assert ls[m..][..|ls[m..]| - 1] == ls[m..n];
      var a, b := JoinLines(ls[..m]), JoinLines(ls[m..n]);
      assert (a + "\n" + b) + "\n" + ls[n] == a + "\n" + (b + "\n" + ls[n]);
    } else {
      assert ls[m..] == [ls[n]];
    }
  }

  /** Only newlines are trimmed. */
  lemma {:induction false} TrimsOnlyNewlines(s: string)
    ensures forall i :: |TrimNewlines(s)| <= i < |s| ==> s[i] == '\n'
  {
    if s != "" && s[|s| - 1] == '\n' { TrimsOnlyNewlines(s[..|s| - 1]); }
  }

  /** The excerpt is the end of the trimmed text: all of it, or exactly the last n lines. */
  lemma LastLinesMeaning(s: string, n: nat) returns (front: string)
    requires n > 0
    ensures TrimNewlines(s) == front + LastLines(s, n)
    ensures if front == "" then Newlines(LastLines(s, n)) < n
            else front[|front| - 1] == '\n' && Newlines(LastLines(s, n)) == n - 1
  {
    var t := TrimNewlines(s);
    var ls := Split(t);
    JoinSplit(t);
    if |ls| > n {
      var m := |ls| - n;
      JoinCut(ls, m);
      JoinedNewlines(LastN(ls, n));
      front := JoinLines(ls[..m]) + "\n";
    } else {
      JoinedNewlines(ls);
      front := "";
    }
  }
}
