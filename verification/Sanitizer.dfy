// agent/llm/sanitizer/sanitizer.go: the comment scanner and the line cutter.
// Characters are bytes.
module Sanitizer {
  import opened Prelude
  import opened Text

  // ------------------------------------------------- one line

  // Where the scanner stands after some characters.
  datatype Mode = Mode(escaped: bool, inDouble: bool, inSingle: bool)

  function ModeAfter(line: string, n: nat): Mode
    requires n <= |line|
  {
    if n == 0 then Mode(false, false, false)
    else
      var m, c := ModeAfter(line, n - 1), line[n - 1];
      if m.escaped then m.(escaped := false)
      else if c == '\\' then m.(escaped := true)
      else if c == '"' && !m.inSingle then m.(inDouble := !m.inDouble)
      else if c == '\'' && !m.inDouble then m.(inSingle := !m.inSingle)
      else m
  }

  // A '#' that starts a comment: neither quoted nor escaped.
  predicate StartsComment(line: string, i: nat)
    requires i < |line|
  {
    line[i] == '#' && ModeAfter(line, i) == Mode(false, false, false)
  }

  ghost predicate NoComment(line: string) {
    forall i: nat | i < |line| :: !StartsComment(line, i)
  }

  // strings.TrimRight(s, " \t")
  function TrimBlanks(s: string): (r: string)
    ensures r <= s && forall i | |r| <= i < |s| :: s[i] == ' ' || s[i] == '\t'
    ensures r != "" ==> r[|r| - 1] != ' ' && r[|r| - 1] != '\t'
  {
    if s != "" && (s[|s| - 1] == ' ' || s[|s| - 1] == '\t') then TrimBlanks(s[..|s| - 1]) else s
  }

  // What is left of a line: the line itself when it has no comment, otherwise
  // everything before the first comment but the blanks in front of it.
  ghost predicate IsStripped(line: string, r: string) {
    if NoComment(line) then r == line
    else exists i: nat | i < |line| ::
           StartsComment(line, i) && NoComment(line[..i]) && r == TrimBlanks(line[..i])
  }

  lemma {:induction false} ModeOfPrefix(line: string, k: nat, n: nat)
    requires n <= k <= |line|
    ensures ModeAfter(line[..k], n) == ModeAfter(line, n)
  {
    if n > 0 {
      ModeOfPrefix(line, k, n - 1);
    }
  }

  lemma PrefixNoComment(line: string, k: nat)
    requires k <= |line|
    ensures NoComment(line[..k]) <==> forall i: nat | i < k :: !StartsComment(line, i)
  {
    forall i: nat | i < k ensures StartsComment(line[..k], i) <==> StartsComment(line, i) {
      ModeOfPrefix(line, k, i);
    }
  }

  method StripLine(line: string) returns (r: string)
    ensures IsStripped(line, r)
  {
    var idx := -1;
    var inDouble, inSingle := false, false;
    var i := 0;
    while i < |line|
      invariant 0 <= i <= |line| && idx == -1
      invariant i < |line| ==> ModeAfter(line, i) == Mode(false, inDouble, inSingle)
      invariant forall j: nat | j < i :: !StartsComment(line, j)
    {
      var c := line[i];
      if c == '\\' && i + 1 < |line| {
        assert ModeAfter(line, i + 1).escaped;
        i := i + 1;
      } else if c == '"' && !inSingle {
        inDouble := !inDouble;
      } else if c == '\'' && !inDouble {
        inSingle := !inSingle;
      } else if c == '#' && !inDouble && !inSingle {
        idx := i;
      }
      if idx >= 0 {
        break;
      }
      i := i + 1;
    }
    if idx >= 0 {
      PrefixNoComment(line, idx);
      assert StartsComment(line, idx);
      return TrimBlanks(line[..idx]);
    }
    return line;
  }

  // A stripped line is a prefix without a comment, and stripping it again changes nothing.
  lemma StripKeepsPrefix(line: string, r: string)
    requires IsStripped(line, r)
    ensures r <= line && NoComment(r)
    ensures forall again :: IsStripped(r, again) <==> again == r
  {
    if !NoComment(line) {
      var i: nat :| i < |line| && StartsComment(line, i) && NoComment(line[..i]) && r == TrimBlanks(line[..i]);
      PrefixNoComment(line[..i], |r|);
      assert line[..i][..|r|] == r;
    }
  }

  // ------------------------------------------------- a whole text

  ghost predicate AllStripped(lines: seq<string>, result: seq<string>) {
    |result| == |lines| && forall k | 0 <= k < |lines| :: IsStripped(lines[k], result[k])
  }

  function Terminated(lines: seq<string>): string {
    if lines == [] then "" else Terminated(lines[..|lines| - 1]) + lines[|lines| - 1] + "\n"
  }

  lemma {:induction false} JoinLast(lines: seq<string>, last: string)
    requires lines != []
    ensures Join(lines + [last]) == Join(lines) + "\n" + last
  {
    if |lines| == 1 {
      assert (lines + [last])[1..] == [last];
    } else {
      assert (lines + [last])[1..] == lines[1..] + [last];
      JoinLast(lines[1..], last);
    }
  }

  lemma {:induction false} TerminatedIsJoin(lines: seq<string>)
    requires lines != []
    ensures Terminated(lines) == Join(lines) + "\n"
  {
    var init, last := lines[..|lines| - 1], lines[|lines| - 1];
    assert lines == init + [last];
    if init != [] {
      TerminatedIsJoin(init);
      JoinLast(init, last);
    }
  }

  // The text after the block comments are gone.
  ghost predicate IsStrippedText(s: string, out: string) {
    exists lines :: AllStripped(Split(s), lines) && out == Join(lines) + if HasSuffix(s, "\n") then "\n" else ""
  }

  method StripLines(s: string) returns (out: string)
    ensures IsStrippedText(s, out)
  {
    out := "";
    var all := Split(s);
    ghost var lines: seq<string> := [];
    for k := 0 to |all|
      invariant |lines| == k && out == Terminated(lines)
      invariant AllStripped(all[..k], lines)
    {
      var line := StripLine(all[k]);
      out := out + line;
      out := out + "\n";
      assert (lines + [line])[..k] == lines;
      lines := lines + [line];
    }
    assert all[..|all|] == all;
    TerminatedIsJoin(lines);
    if HasSuffix(out, "\n") && !HasSuffix(s, "\n") {
      assert out[..|out| - 1] == Join(lines);
      out := out[..|out| - 1];
    }
  }

  lemma StrippedLines(lines: seq<string>, result: seq<string>)
    requires AllStripped(lines, result) && forall l | l in lines :: '\n' !in l
    ensures forall l | l in result :: '\n' !in l && IsStripped(l, l)
  {
    forall k | 0 <= k < |lines| ensures '\n' !in result[k] && IsStripped(result[k], result[k]) {
      assert lines[k] in lines;
      StripKeepsPrefix(lines[k], result[k]);
    }
  }

  // The lines of the result: those of the text, stripped, and one more when the
  // text ends with a newline.
  lemma StrippedTextLines(s: string, out: string) returns (lines: seq<string>)
    requires IsStrippedText(s, out)
    ensures AllStripped(Split(s), lines)
    ensures Split(out) == if HasSuffix(s, "\n") then lines + [""] else lines
    ensures forall l | l in Split(out) :: IsStripped(l, l)
  {
    lines :| AllStripped(Split(s), lines) && out == Join(lines) + if HasSuffix(s, "\n") then "\n" else "";
    StrippedLines(Split(s), lines);
    SplitJoin(lines);
    if HasSuffix(s, "\n") {
      SplitTerminated(Join(lines));
    } else {
      assert out == Join(lines);
    }
  }

  // Stripping a stripped text adds a newline when it ends with one, and changes
  // nothing else; so stripping is idempotent exactly on results that do not end
  // with a newline.
  lemma StripTwice(s: string, out: string, again: string)
    requires IsStrippedText(s, out) && IsStrippedText(out, again)
    ensures again == out + if HasSuffix(out, "\n") then "\n" else ""
  {
    var lines := StrippedTextLines(s, out);
    var all := Split(out);
    var second :| AllStripped(all, second) && again == Join(second) + if HasSuffix(out, "\n") then "\n" else "";
    forall k | 0 <= k < |all| ensures second[k] == all[k] {
      assert all[k] in all;
      StripKeepsPrefix(all[k], all[k]);
    }
    assert second == all;
    JoinSplit(out);
  }

  lemma EndOfLast(a: string, last: string)
    requires '\n' !in last
    ensures HasSuffix(a + "\n" + last, "\n") <==> last == ""
  {
    var all := a + "\n" + last;
    assert all[|all| - 1..] == [all[|all| - 1]];
    if last == "" {
      assert all[|all| - 1] == '\n';
    } else {
      assert all[|all| - 1] == last[|last| - 1] && last[|last| - 1] in last;
    }
  }

  lemma NoNewlineEnd(l: string)
    requires '\n' !in l
    ensures !HasSuffix(l, "\n")
  {
    assert l != "" ==> l[|l| - 1..] == [l[|l| - 1]] && l[|l| - 1] in l;
  }

  lemma EndOfJoin(lines: seq<string>)
    requires lines != [] && forall l | l in lines :: '\n' !in l
    ensures HasSuffix(Join(lines), "\n") <==> |lines| > 1 && lines[|lines| - 1] == ""
  {
    var init, last := lines[..|lines| - 1], lines[|lines| - 1];
    assert last in lines;
    if |lines| > 1 {
      assert lines == init + [last];
      JoinLast(init, last);
      EndOfLast(Join(init), last);
    } else {
      NoNewlineEnd(last);
    }
  }

  lemma EndsWithNewline(t: string)
    ensures HasSuffix(t + "\n", "\n") && t + "\n" != t
  {
    assert (t + "\n")[|t|..] == "\n" && |t + "\n"| == |t| + 1;
  }

  lemma LastStripped(all: seq<string>, lines: seq<string>)
    requires all != [] && AllStripped(all, lines)
    ensures lines[|lines| - 1] == "" <==> IsStripped(all[|all| - 1], "")
  {
    OneStripped(all[|all| - 1], lines[|lines| - 1]);
  }

  lemma JoinEnds(all: seq<string>, lines: seq<string>)
    requires all != [] && AllStripped(all, lines) && forall l | l in all :: '\n' !in l
    ensures HasSuffix(Join(lines), "\n") <==> |all| > 1 && IsStripped(all[|all| - 1], "")
  {
    StrippedLines(all, lines);
    EndOfJoin(lines);
    LastStripped(all, lines);
  }

  lemma ResultEnds(s: string, out: string)
    requires IsStrippedText(s, out)
    ensures HasSuffix(out, "\n") <==>
            HasSuffix(s, "\n") || (|Split(s)| > 1 && IsStripped(Split(s)[|Split(s)| - 1], ""))
  {
    var lines :| AllStripped(Split(s), lines) && out == Join(lines) + if HasSuffix(s, "\n") then "\n" else "";
    if HasSuffix(s, "\n") {
      EndsWithNewline(Join(lines));
    } else {
      NothingAdded(Join(lines));
      JoinEnds(Split(s), lines);
    }
  }

  lemma NothingAdded(t: string)
    ensures t + "" == t
  {
  }

  // Stripping changes a stripped text again exactly when the text it came from ends
  // with a newline, or has several lines and nothing is left of the last one.
  lemma StripOnceIff(s: string, out: string, again: string)
    requires IsStrippedText(s, out) && IsStrippedText(out, again)
    ensures again != out <==>
            HasSuffix(s, "\n") || (|Split(s)| > 1 && IsStripped(Split(s)[|Split(s)| - 1], ""))
  {
    StripTwice(s, out, again);
    ResultEnds(s, out);
    EndsWithNewline(out);
    NothingAdded(out);
  }

  // There is only one way to strip a line.
  lemma OneStripped(line: string, r: string)
    requires IsStripped(line, r)
    ensures forall other :: IsStripped(line, other) <==> other == r
  {
    forall other | IsStripped(line, other) ensures other == r {
      if !NoComment(line) {
        var i: nat :| i < |line| && StartsComment(line, i) && NoComment(line[..i]) && r == TrimBlanks(line[..i]);
        var j: nat :| j < |line| && StartsComment(line, j) && NoComment(line[..j]) && other == TrimBlanks(line[..j]);
        PrefixNoComment(line, i);
        PrefixNoComment(line, j);
        assert i == j;
      }
    }
  }

  // ------------------------------------------------- cutting long lines

  const SUFFIX := " \U{E2}\U{80}\U{A6}<truncated>"

  function Cut(line: string, maxLen: int): string {
    if maxLen <= 0 || |line| <= maxLen then line else line[..maxLen] + SUFFIX
  }

  function CutAll(lines: seq<string>, maxLen: int): seq<string> {
    seq(|lines|, i requires 0 <= i < |lines| => Cut(lines[i], maxLen))
  }

  method TruncateLongFields(s: string, maxLen: int) returns (out: string, truncated: bool)
    ensures out == Join(CutAll(Split(s), maxLen))
    ensures truncated <==> 0 < maxLen && exists l | l in Split(s) :: |l| > maxLen
  {
    var all := Split(s);
    if maxLen <= 0 {
      JoinSplit(s);
      assert CutAll(all, maxLen) == all;
      return s, false;
    }
    out, truncated := "", false;
    ghost var cuts := CutAll(all, maxLen);
    for i := 0 to |all|
      invariant out == Join(cuts[..i])
      invariant truncated <==> exists k | 0 <= k < i :: |all[k]| > maxLen
    {
      assert cuts[..i + 1] == cuts[..i] + [cuts[i]];
      if i > 0 {
        JoinLast(cuts[..i], cuts[i]);
        out := out + "\n";
      }
      if |all[i]| <= maxLen {
        out := out + all[i];
        continue;
      }
      ghost var before := out;
      out := out + all[i][..maxLen];
      out := out + SUFFIX;
      Assoc(before, all[i][..maxLen], SUFFIX);
      truncated := true;
    }
    assert cuts[..|all|] == cuts;
  }

  lemma CutAgain(line: string, maxLen: int)
    requires maxLen > 0 && '\n' !in line
    ensures Cut(Cut(line, maxLen), maxLen) == Cut(line, maxLen)
    ensures |Cut(line, maxLen)| <= maxLen + |SUFFIX| && '\n' !in Cut(line, maxLen)
  {
    if |line| > maxLen {
      assert Cut(line, maxLen)[..maxLen] == line[..maxLen];
    }
  }

  // The lines stay lines, none is longer than limit and suffix, and cutting
  // again changes nothing.
  lemma CutTwice(s: string, maxLen: int, out: string)
    requires maxLen > 0 && out == Join(CutAll(Split(s), maxLen))
    ensures Split(out) == CutAll(Split(s), maxLen)
    ensures forall k | 0 <= k < |Split(out)| :: |Split(out)[k]| <= maxLen + |SUFFIX|
    ensures Join(CutAll(Split(out), maxLen)) == out
  {
    var lines := Split(s);
    var cuts := CutAll(lines, maxLen);
    forall k | 0 <= k < |lines|
      ensures '\n' !in cuts[k] && Cut(cuts[k], maxLen) == cuts[k] && |cuts[k]| <= maxLen + |SUFFIX|
    {
      assert lines[k] in lines;
      CutAgain(lines[k], maxLen);
    }
    SplitJoin(cuts);
    assert CutAll(cuts, maxLen) == cuts;
  }
}
