// The wrap function of internal/render/text.go, for text of one-byte characters.
module Wrap {
  import opened Prelude
  import opened Text

  // strings.Fields.
  function Fields(s: string): (words: seq<string>)
    ensures forall w | w in words :: IsWord(w)
    decreases |s|
  {
    if s == "" then []
    else if IsSpace(s[0]) then Fields(s[1..])
    else
      var n := WordEnd(s);
      [s[..n]] + Fields(s[n..])
  }

  predicate IsWord(w: string) {
    w != "" && forall c | c in w :: !IsSpace(c)
  }

  function WordEnd(s: string): (n: nat)
    ensures n <= |s| && (forall i | 0 <= i < n :: !IsSpace(s[i])) && (n < |s| ==> IsSpace(s[n]))
  {
    if s == "" || IsSpace(s[0]) then 0
    else
      var n := WordEnd(s[1..]);
      assert forall i | 1 <= i < n + 1 :: s[i] == s[1..][i - 1];
      n + 1
  }

  // ------------------------------------------------- lines as groups of words

  function Line(ws: seq<string>): string {
    if ws == [] then "" else if |ws| == 1 then ws[0] else Line(ws[..|ws| - 1]) + " " + ws[|ws| - 1]
  }

  function Lines(groups: seq<seq<string>>): seq<string> {
    seq(|groups|, i requires 0 <= i < |groups| => Line(groups[i]))
  }

  function Flatten(groups: seq<seq<string>>): seq<string> {
    if groups == [] then [] else Flatten(groups[..|groups| - 1]) + groups[|groups| - 1]
  }

  // No empty line, and none too wide unless it is one over-long word.
  ghost predicate Fitting(groups: seq<seq<string>>, width: int) {
    forall k | 0 <= k < |groups| :: groups[k] != [] && (|Line(groups[k])| <= width || |groups[k]| == 1)
  }

  // No line has room for the first word of the next one.
  ghost predicate Full(groups: seq<seq<string>>, width: int) {
    forall k, next | 0 <= k < next < |groups| && next == k + 1 :: NoRoom(groups[k], groups[next], width)
  }

  predicate NoRoom(g: seq<string>, next: seq<string>, width: int) {
    next != [] && |Line(g)| + 1 + |next[0]| > width
  }

  // Lines that hold exactly the given words in order, each fitting and full.
  ghost predicate Greedy(groups: seq<seq<string>>, words: seq<string>, width: int) {
    Flatten(groups) == words && Fitting(groups, width) && Full(groups, width)
  }

  lemma NewLine(groups: seq<seq<string>>, words: seq<string>, width: int, w: string)
    requires Greedy(groups, words, width)
    requires groups == [] || |Line(groups[|groups| - 1])| + 1 + |w| > width
    ensures Greedy(groups + [[w]], words + [w], width)
  {
    assert (groups + [[w]])[..|groups|] == groups;
  }

  lemma LongerLine(groups: seq<seq<string>>, words: seq<string>, width: int, w: string)
    requires Greedy(groups, words, width) && groups != []
    requires |Line(groups[|groups| - 1])| + 1 + |w| <= width
    ensures Greedy(groups[|groups| - 1 := groups[|groups| - 1] + [w]], words + [w], width)
    ensures Line(groups[|groups| - 1] + [w]) == Line(groups[|groups| - 1]) + " " + w
  {
    var n := |groups| - 1;
    var longer := groups[n] + [w];
    assert longer[..|groups[n]|] == groups[n];
    assert groups[n := longer][..n] == groups[..n];
  }

  method Wrap(s: string, width: int) returns (lines: seq<string>, ghost groups: seq<seq<string>>)
    ensures width <= 0 || |s| <= width ==> lines == if s == "" then [] else [s]
    ensures 0 < width < |s| ==> Greedy(groups, Fields(s), width) && lines == Lines(groups)
  {
    groups := [];
    if width <= 0 || |s| <= width {
      if s == "" {
        return [], [];
      }
      return [s], [];
    }
    var words := Fields(s);
    lines := [];
    var cur := "";
    for i := 0 to |words|
      invariant Greedy(groups, words[..i], width)
      invariant if i == 0 then groups == [] && lines == [] && cur == ""
                else |groups| == |lines| + 1 && lines == Lines(groups[..|lines|]) && cur == Line(groups[|lines|]) != ""
    {
      var w := words[i];
      assert w in words;
      assert words[..i + 1] == words[..i] + [w];
      if |cur| == 0 {
        NewLine(groups, words[..i], width, w);
        cur := w;
        groups := groups + [[w]];
        continue;
      }
      ghost var n := |lines|;
      if |cur| + 1 + |w| > width {
        NewLine(groups, words[..i], width, w);
        lines := lines + [cur];
        cur := w;
        assert (groups + [[w]])[..|groups|] == groups;
        assert lines == Lines(groups);
        groups := groups + [[w]];
        continue;
      }
      LongerLine(groups, words[..i], width, w);
      cur := cur + " ";
      cur := cur + w;
      assert groups[n := groups[n] + [w]][..n] == groups[..n];
      groups := groups[n := groups[n] + [w]];
    }
    assert words[..|words|] == words;
    if |cur| > 0 {
      lines := lines + [cur];
      assert lines == Lines(groups);
    }
  }

  // ------------------------------------------------- no word is lost

  lemma {:induction false} FieldsAppend(a: string, b: string)
    ensures Fields(a + " " + b) == Fields(a) + Fields(b)
    decreases |a|
  {
    var all := a + " " + b;
    if a == "" {
      assert all[1..] == b;
    } else if IsSpace(a[0]) {
      assert all[1..] == a[1..] + " " + b;
      FieldsAppend(a[1..], b);
    } else {
      var n := WordEnd(a);
      WordEndAppend(a, b);
      assert all[..n] == a[..n] && all[n..] == a[n..] + " " + b;
      FieldsAppend(a[n..], b);
      Assoc([a[..n]], Fields(a[n..]), Fields(b));
    }
  }

  lemma {:induction false} WordEndAppend(a: string, b: string)
    ensures WordEnd(a + " " + b) == WordEnd(a)
  {
    if a != "" && !IsSpace(a[0]) {
      assert (a + " " + b)[1..] == a[1..] + " " + b;
      WordEndAppend(a[1..], b);
    }
  }

  lemma {:induction false} FieldsOfLine(ws: seq<string>)
    requires forall w | w in ws :: IsWord(w)
    ensures Fields(Line(ws)) == ws
  {
    if ws != [] {
      var init, w := ws[..|ws| - 1], ws[|ws| - 1];
      assert IsWord(w);
      assert WordEnd(w) == |w| && w[..|w|] == w && w[|w|..] == "";
      assert Fields(w) == [w];
      if |ws| > 1 {
        FieldsOfLine(init);
        FieldsAppend(Line(init), w);
      }
    }
  }

  function AllFields(lines: seq<string>): seq<string> {
    if lines == [] then [] else AllFields(lines[..|lines| - 1]) + Fields(lines[|lines| - 1])
  }

  // The lines hold exactly the words of the text, in order.
  lemma {:induction false} LinesKeepWords(groups: seq<seq<string>>)
    requires forall w | w in Flatten(groups) :: IsWord(w)
    ensures AllFields(Lines(groups)) == Flatten(groups)
  {
    if groups != [] {
      var init := groups[..|groups| - 1];
      assert Lines(groups)[..|groups| - 1] == Lines(init);
      LinesKeepWords(init);
      FieldsOfLine(groups[|groups| - 1]);
    }
  }

  lemma WrapKeepsWords(s: string, width: int, groups: seq<seq<string>>)
    requires Greedy(groups, Fields(s), width)
    ensures AllFields(Lines(groups)) == Fields(s)
  {
    LinesKeepWords(groups);
  }

  // ------------------------------------------------- no split is shorter

  lemma {:induction false} LineLength(a: seq<string>, b: seq<string>)
    requires a != [] && b != []
    ensures |Line(a + b)| == |Line(a)| + 1 + |Line(b)|
    decreases |b|
  {
    if |b| == 1 {
      assert (a + b)[..|a|] == a;
    } else {
      var init := b[..|b| - 1];
      assert (a + b)[..|a + b| - 1] == a + init;
      LineLength(a, init);
    }
  }

  // A line holding a whole line and the first word of the next is wider than both.
  lemma WiderLine(before: seq<string>, g: seq<string>, w: string, after: seq<string>)
    requires g != []
    ensures |Line(before + g + [w] + after)| >= |Line(g)| + 1 + |w|
  {
    LineLength(g, [w]);
    var middle := g + [w];
    if before != [] {
      LineLength(before, middle);
      assert before + g + [w] == before + middle;
    } else {
      assert before + g + [w] == middle;
    }
    if after != [] {
      LineLength(before + g + [w], after);
    } else {
      assert before + g + [w] + after == before + g + [w];
    }
  }

  lemma Blocked(words: seq<string>, start: nat, from: nat, next: nat, end: nat)
    requires start <= from < next < end <= |words|
    ensures |Line(words[start..end])| >= |Line(words[from..next])| + 1 + |words[next]|
  {
    var before, g, w, after := words[start..from], words[from..next], words[next], words[next + 1..end];
    assert words[start..end] == before + g + [w] + after;
    WiderLine(before, g, w, after);
  }

  function Words(groups: seq<seq<string>>): nat {
    if groups == [] then 0 else Words(groups[..|groups| - 1]) + |groups[|groups| - 1]|
  }

  lemma {:induction false} FlattenPrefix(groups: seq<seq<string>>, k: nat)
    requires k <= |groups|
    ensures Words(groups[..k]) == |Flatten(groups[..k])| && Flatten(groups[..k]) <= Flatten(groups)
    decreases |groups|
  {
    if k < |groups| {
      var init := groups[..|groups| - 1];
      FlattenPrefix(init, k);
      assert init[..k] == groups[..k];
    } else {
      assert groups[..k] == groups;
      if k > 0 {
        FlattenPrefix(groups[..k - 1], k - 1);
        assert groups[..k - 1][..k - 1] == groups[..k - 1];
      }
    }
  }

  // Where line k stands among the words.
  lemma GroupAt(groups: seq<seq<string>>, k: nat)
    requires k < |groups|
    ensures var start, words := Words(groups[..k]), Flatten(groups);
            && Words(groups[..k + 1]) == start + |groups[k]| <= |words|
            && words[start..start + |groups[k]|] == groups[k]
  {
    FlattenPrefix(groups, k);
    FlattenPrefix(groups, k + 1);
    assert groups[..k + 1][..k] == groups[..k];
    assert Flatten(groups[..k + 1]) == Flatten(groups[..k]) + groups[k];
  }

  // After as many lines, the wrapped text is at least as far.
  lemma {:induction false} GreedyIsAhead(groups: seq<seq<string>>, other: seq<seq<string>>, width: int, k: nat)
    requires Greedy(groups, Flatten(other), width) && Fitting(other, width)
    requires k <= |groups| && k <= |other|
    ensures Words(groups[..k]) >= Words(other[..k])
  {
    if k > 0 {
      var n := k - 1;
      GreedyIsAhead(groups, other, width, n);
      GroupAt(groups, n);
      GroupAt(other, n);
      var words, g, o := Flatten(groups), groups[n], other[n];
      var start, end := Words(other[..n]), Words(other[..k]);
      var from, next := Words(groups[..n]), Words(groups[..k]);
      if end > next {
        EndOfLines(groups, k);
        GroupAt(groups, k);
        assert groups[k][0] == words[next] && NoRoom(g, groups[k], width);
        Blocked(words, start, from, next, end);
      }
    }
  }

  lemma EndOfLines(groups: seq<seq<string>>, k: nat)
    requires k <= |groups| && Words(groups[..k]) < |Flatten(groups)|
    ensures k < |groups|
  {
    FlattenPrefix(groups, k);
    assert groups[..|groups|] == groups;
  }

  // No split of the same words into lines of that width has fewer lines.
  lemma GreedyIsShortest(groups: seq<seq<string>>, words: seq<string>, width: int, other: seq<seq<string>>)
    requires Greedy(groups, words, width)
    requires Flatten(other) == words && Fitting(other, width)
    ensures |groups| <= |other|
  {
    if |other| < |groups| {
      var n := |other|;
      GroupAt(groups, n);
      FlattenPrefix(other, n);
      assert groups[n] != [] && other[..n] == other;
      GreedyIsAhead(groups, other, width, n);
    }
  }
}
