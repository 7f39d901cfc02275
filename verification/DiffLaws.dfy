// What applying a unified diff means: every success is a chain of verbatim
// block replacements, and a diff printed from known changes applies to exactly
// the intended text when its hunks are found where they belong.
module DiffLaws {
  import opened Prelude
  import opened Text
  import opened UnifiedDiff

  // ------------------------------------------------- any diff that applies

  // target comes from src by replacing, for each hunk in turn, one verbatim
  // occurrence of its old block by its new block.
  ghost predicate Rewrites(src: seq<string>, hunks: seq<Hunk>, target: seq<string>)
    decreases |hunks|
  {
    if hunks == [] then src == target
    else exists idx: nat ::
        MatchesAt(src, OldSide(hunks[0].edits), idx) &&
        Rewrites(Replace(src, idx, |OldSide(hunks[0].edits)|, NewSide(hunks[0].edits)), hunks[1..], target)
  }

  function Growth(hunks: seq<Hunk>): int
  {
    if hunks == [] then 0
    else |NewSide(hunks[0].edits)| - |OldSide(hunks[0].edits)| + Growth(hunks[1..])
  }

  // Places that are found hold the lines to find.
  ghost predicate Sound(find: Finder) {
    forall out, j, cursor ::
      find(out, j, cursor).Some? && find(out, j, cursor).value + |j.was| <= |out| ==>
        MatchesAt(out, j.was, find(out, j, cursor).value)
  }

  lemma FindIsSound()
    ensures Sound(Find)
  {
  }

  lemma RewritesFirst(src: seq<string>, hunks: seq<Hunk>, target: seq<string>, idx: nat)
    requires hunks != [] && MatchesAt(src, JobOf(hunks[0]).was, idx)
    requires Rewrites(Replace(src, idx, |JobOf(hunks[0]).was|, JobOf(hunks[0]).becomes), hunks[1..], target)
    ensures Rewrites(src, hunks, target)
  {
  }

  lemma {:induction false} JobsRewrite(find: Finder, out: seq<string>, hunks: seq<Hunk>, cursor: nat)
    requires Sound(find) && ApplyJobs(find, out, JobsOf(hunks), cursor).Ok?
    ensures Rewrites(out, hunks, ApplyJobs(find, out, JobsOf(hunks), cursor).value)
    ensures |ApplyJobs(find, out, JobsOf(hunks), cursor).value| == |out| + Growth(hunks)
    decreases |hunks|
  {
    if hunks != [] {
      var j := JobOf(hunks[0]);
      assert JobsOf(hunks)[0] == j && JobsOf(hunks)[1..] == JobsOf(hunks[1..]);
      var idx := find(out, j, cursor).value;
      var next := Replace(out, idx, |j.was|, j.becomes);
      JobsRewrite(find, next, hunks[1..], idx + |j.becomes|);
      RewritesFirst(out, hunks, ApplyJobs(find, out, JobsOf(hunks), cursor).value, idx);
    }
  }

  lemma ApplyRewrites(src: seq<string>, hunks: seq<Hunk>)
    requires ApplyHunks(src, hunks).Ok?
    ensures Rewrites(src, hunks, ApplyHunks(src, hunks).value)
    ensures |ApplyHunks(src, hunks).value| == |src| + Growth(hunks)
  {
    FindIsSound();
    JobsRewrite(Find, src, hunks, 0);
  }

  // A hunk read backwards: additions and removals trade places.
  function SwapEdit(e: Edit): Edit {
    match e
    case Keep(t) => Keep(t)
    case Remove(t) => Insert(t)
    case Insert(t) => Remove(t)
  }

  function SwapEdits(edits: seq<Edit>): seq<Edit> {
    seq(|edits|, i requires 0 <= i < |edits| => SwapEdit(edits[i]))
  }

  lemma {:induction false} SwapSides(edits: seq<Edit>)
    ensures OldSide(SwapEdits(edits)) == NewSide(edits)
    ensures NewSide(SwapEdits(edits)) == OldSide(edits)
  {
    if edits != [] {
      var n := |edits| - 1;
      SwapSides(edits[..n]);
      assert SwapEdits(edits)[..n] == SwapEdits(edits[..n]);
    }
  }

  function Reversed(h: Hunk): Hunk { h.(edits := SwapEdits(h.edits)) }

  function Backwards(hunks: seq<Hunk>): seq<Hunk> {
    if hunks == [] then [] else Backwards(hunks[1..]) + [Reversed(hunks[0])]
  }

  lemma {:induction false} RewritesThen(src: seq<string>, hunks: seq<Hunk>, mid: seq<string>, h: Hunk, idx: nat)
    requires Rewrites(src, hunks, mid)
    requires MatchesAt(mid, OldSide(h.edits), idx)
    ensures Rewrites(src, hunks + [h], Replace(mid, idx, |OldSide(h.edits)|, NewSide(h.edits)))
    decreases |hunks|
  {
    var target := Replace(mid, idx, |OldSide(h.edits)|, NewSide(h.edits));
    var all := hunks + [h];
    if hunks == [] {
      assert all[0] == h && all[1..] == [];
      assert Rewrites(target, all[1..], target);
    } else {
      var first := hunks[0];
      var i: nat :| MatchesAt(src, OldSide(first.edits), i) &&
                    Rewrites(Replace(src, i, |OldSide(first.edits)|, NewSide(first.edits)), hunks[1..], mid);
      RewritesThen(Replace(src, i, |OldSide(first.edits)|, NewSide(first.edits)), hunks[1..], mid, h, idx);
      assert all[0] == first && all[1..] == hunks[1..] + [h];
    }
  }

  lemma StepUndone(src: seq<string>, h: Hunk, idx: nat)
    requires MatchesAt(src, OldSide(h.edits), idx)
    ensures var mid := Replace(src, idx, |OldSide(h.edits)|, NewSide(h.edits));
            MatchesAt(mid, OldSide(Reversed(h).edits), idx) &&
            Replace(mid, idx, |OldSide(Reversed(h).edits)|, NewSide(Reversed(h).edits)) == src
  {
    SwapSides(h.edits);
    var mid := Replace(src, idx, |OldSide(h.edits)|, NewSide(h.edits));
    assert mid[idx..idx + |NewSide(h.edits)|] == NewSide(h.edits);
    assert mid[..idx] == src[..idx];
    assert mid[idx + |NewSide(h.edits)|..] == src[idx + |OldSide(h.edits)|..];
    assert src == src[..idx] + OldSide(h.edits) + src[idx + |OldSide(h.edits)|..];
  }

  // No success destroys information: the reversed hunks, last first, lead back.
  lemma {:induction false} RewritesUndone(src: seq<string>, hunks: seq<Hunk>, target: seq<string>)
    requires Rewrites(src, hunks, target)
    ensures Rewrites(target, Backwards(hunks), src)
    decreases |hunks|
  {
    if hunks != [] {
      var h := hunks[0];
      var idx: nat :| MatchesAt(src, OldSide(h.edits), idx) &&
                      Rewrites(Replace(src, idx, |OldSide(h.edits)|, NewSide(h.edits)), hunks[1..], target);
      var mid := Replace(src, idx, |OldSide(h.edits)|, NewSide(h.edits));
      RewritesUndone(mid, hunks[1..], target);
      StepUndone(src, h, idx);
      RewritesThen(target, Backwards(hunks[1..]), mid, Reversed(h), idx);
    }
  }

  // ------------------------------------------------- printing known changes

  // A hunk with its true 0-based line numbers in the source and the target.
  datatype Change = Change(oldStart: nat, newStart: nat, edits: seq<Edit>)

  function OpOf(e: Edit): char {
    match e
    case Keep(_) => ' '
    case Remove(_) => '-'
    case Insert(_) => '+'
  }

  function PrintEdit(e: Edit): string { [OpOf(e)] + e.text }

  function PrintEdits(edits: seq<Edit>): seq<string> {
    if edits == [] then [] else [PrintEdit(edits[0])] + PrintEdits(edits[1..])
  }

  // POSIX.1-2017, diff utility: an empty range is numbered by the line before it.
  function RangeStart(start: nat, len: nat): nat { if len == 0 then start else start + 1 }

  function RangeText(start: nat, len: nat): string {
    Decimal(RangeStart(start, len)) + [','] + Decimal(len)
  }

  function HeaderTail(c: Change): string {
    "+" + RangeText(c.newStart, |NewSide(c.edits)|) + " @@"
  }

  function PrintHeader(c: Change): string {
    "@@" + ([' '] + (['-'] + RangeText(c.oldStart, |OldSide(c.edits)|) + [' '] + HeaderTail(c)))
  }

  function PrintChanges(changes: seq<Change>): seq<string> {
    if changes == [] then []
    else [PrintHeader(changes[0])] + PrintEdits(changes[0].edits) + PrintChanges(changes[1..])
  }

  const FILE_HEADERS: seq<string> := ["--- a/values.yaml", "+++ b/values.yaml"]

  function PrintDiff(changes: seq<Change>): string {
    Join(FILE_HEADERS + PrintChanges(changes))
  }

  ghost predicate Printable(changes: seq<Change>) {
    forall c | c in changes ::
      c.oldStart < INT64_MAX && |OldSide(c.edits)| <= INT64_MAX &&
      forall e | e in c.edits :: '\n' !in e.text
  }

  // An edit whose printed line the parser takes for a file header and drops.
  predicate HeaderLike(e: Edit) {
    FileHeader(PrintEdit(e))
  }

  function Visible(edits: seq<Edit>): seq<Edit> {
    if edits == [] then []
    else if HeaderLike(edits[0]) then Visible(edits[1..])
    else [edits[0]] + Visible(edits[1..])
  }

  // The hunk a change stands for, and the one the parser sees.
  function HunkWith(c: Change, edits: seq<Edit>): Hunk {
    Hunk(RangeStart(c.oldStart, |OldSide(c.edits)|), |OldSide(c.edits)|, edits)
  }

  function HunksOf(changes: seq<Change>): (hunks: seq<Hunk>)
    ensures |hunks| == |changes|
  {
    if changes == [] then [] else [HunkWith(changes[0], changes[0].edits)] + HunksOf(changes[1..])
  }

  function SeenHunks(changes: seq<Change>): (hunks: seq<Hunk>)
    ensures |hunks| == |changes|
  {
    if changes == [] then [] else [HunkWith(changes[0], Visible(changes[0].edits))] + SeenHunks(changes[1..])
  }

  lemma {:induction false} IndexOfAfter(a: string, c: char, b: string)
    requires c !in a
    ensures IndexOf(a + [c] + b, c) == |a|
  {
    var s := a + [c] + b;
    if a != "" {
      assert s[0] == a[0] && s[1..] == a[1..] + [c] + b;
      IndexOfAfter(a[1..], c, b);
    }
  }

  lemma TrimPadded(s: string)
    requires s != "" && !IsSpace(s[0]) && !IsSpace(s[|s| - 1])
    ensures TrimSpace([' '] + s) == s
  {
    assert ([' '] + s)[1..] == s;
    assert TrimLeft([' '] + s) == TrimLeft(s);
  }

  lemma SplitRange(start: nat, len: nat)
    ensures SplitNum(Decimal(start) + [','] + Decimal(len)) == (Decimal(start), Decimal(len))
    ensures ' ' !in Decimal(start) + [','] + Decimal(len)
  {
    var range := Decimal(start) + [','] + Decimal(len);
    IndexOfAfter(Decimal(start), ',', Decimal(len));
    assert range[..|Decimal(start)|] == Decimal(start);
    assert range[|Decimal(start)| + 1..] == Decimal(len);
  }

  lemma ParseRange(start: nat, len: nat)
    requires start <= INT64_MAX && len <= INT64_MAX
    ensures ParseOldRange(Decimal(start) + [','] + Decimal(len)) == Ok(Hunk(start, len, []))
  {
    SplitRange(start, len);
    AtoiDecimal(start);
    AtoiDecimal(len);
  }

  lemma CutFields(range: string, tail: string)
    ensures var rest := ['-'] + range + [' '] + tail;
            rest[1..1 + |range|] == range && rest[..1] == "-" && rest[|rest| - |tail|..] == tail
  {
  }

  lemma FirstField(range: string, tail: string)
    requires ' ' !in range && tail != "" && !IsSpace(tail[|tail| - 1])
    ensures ParseHunkHeader("@@" + ([' '] + (['-'] + range + [' '] + tail))) == ParseOldRange(range)
  {
    var rest := ['-'] + range + [' '] + tail;
    var line := "@@" + ([' '] + rest);
    assert line[..2] == "@@" && line[2..] == [' '] + rest;
    CutFields(range, tail);
    TrimPadded(rest);
    IndexOfAfter(['-'] + range, ' ', tail);
  }

  lemma ParsePrintedHeader(c: Change)
    requires c.oldStart < INT64_MAX && |OldSide(c.edits)| <= INT64_MAX
    ensures ParseHunkHeader(PrintHeader(c)) == Ok(HunkWith(c, []))
  {
    var len := |OldSide(c.edits)|;
    HeaderTailEnds(c);
    ParseRange(RangeStart(c.oldStart, len), len);
    SplitRange(RangeStart(c.oldStart, len), len);
    FirstField(RangeText(c.oldStart, len), HeaderTail(c));
  }

  lemma HeaderIsMarked(rest: string)
    ensures HasPrefix("@@" + rest, "@@") && !FileHeader("@@" + rest)
  {
    assert ("@@" + rest)[0] == '@';
  }

  lemma HeaderTailEnds(c: Change)
    ensures HeaderTail(c) != "" && HeaderTail(c)[|HeaderTail(c)| - 1] == '@'
  {
  }

  lemma ParsePrintedEdit(hunks: seq<Hunk>, h: Hunk, e: Edit, rest: seq<string>)
    ensures ParseFrom(hunks + [h], [PrintEdit(e)] + rest) ==
            ParseFrom(hunks + [if HeaderLike(e) then h else AddEdit(h, e)], rest)
  {
    var line := PrintEdit(e);
    assert ([line] + rest)[1..] == rest;
    assert line[1..] == e.text;
    assert !HasPrefix(line, "@@") by { assert line[0] != '@'; }
    assert (hunks + [h])[..|hunks|] == hunks;
  }

  lemma {:induction false} ParsePrintedEdits(hunks: seq<Hunk>, h: Hunk, edits: seq<Edit>, rest: seq<string>)
    ensures ParseFrom(hunks + [h], PrintEdits(edits) + rest) ==
            ParseFrom(hunks + [h.(edits := h.edits + Visible(edits))], rest)
    decreases |edits|
  {
    if edits == [] {
      assert PrintEdits(edits) + rest == rest;
      assert h.edits + Visible(edits) == h.edits;
    } else {
      var e := edits[0];
      Assoc([PrintEdit(e)], PrintEdits(edits[1..]), rest);
      ParsePrintedEdit(hunks, h, e, PrintEdits(edits[1..]) + rest);
      if HeaderLike(e) {
        ParsePrintedEdits(hunks, h, edits[1..], rest);
      } else {
        ParsePrintedEdits(hunks, AddEdit(h, e), edits[1..], rest);
        Assoc(h.edits, [e], Visible(edits[1..]));
      }
    }
  }

  // line announces c to the parser.
  ghost predicate HeaderFor(line: string, c: Change) {
    HasPrefix(line, "@@") && !FileHeader(line) && ParseHunkHeader(line) == Ok(HunkWith(c, []))
  }

  // lines are the changes as printed: a header and the printed edits of each.
  ghost predicate Printed(lines: seq<string>, changes: seq<Change>) {
    if changes == [] then lines == []
    else
      var n := 1 + |changes[0].edits|;
      n <= |lines| && HeaderFor(lines[0], changes[0]) &&
      lines[1..n] == PrintEdits(changes[0].edits) && Printed(lines[n..], changes[1..])
  }

  lemma {:induction false} PrintEditsLength(edits: seq<Edit>)
    ensures |PrintEdits(edits)| == |edits|
  {
    if edits != [] {
      PrintEditsLength(edits[1..]);
    }
  }

  lemma PrintHeaderAnnounces(c: Change)
    requires c.oldStart < INT64_MAX && |OldSide(c.edits)| <= INT64_MAX
    ensures HeaderFor(PrintHeader(c), c)
  {
    ParsePrintedHeader(c);
    HeaderIsMarked(PrintHeader(c)[2..]);
    assert PrintHeader(c) == "@@" + PrintHeader(c)[2..];
  }

  lemma AnnounceThen(line: string, edits: seq<string>, rest: seq<string>, changes: seq<Change>)
    requires changes != [] && HeaderFor(line, changes[0])
    requires edits == PrintEdits(changes[0].edits) && Printed(rest, changes[1..])
    ensures Printed([line] + edits + rest, changes)
  {
    PrintEditsLength(changes[0].edits);
    var lines, n := [line] + edits + rest, 1 + |changes[0].edits|;
    assert lines[1..n] == edits && lines[n..] == rest;
  }

  lemma {:induction false} PrintChangesPrinted(changes: seq<Change>)
    requires Printable(changes)
    ensures Printed(PrintChanges(changes), changes)
  {
    if changes != [] {
      var c := changes[0];
      assert c in changes;
      PrintHeaderAnnounces(c);
      PrintChangesPrinted(changes[1..]);
      AnnounceThen(PrintHeader(c), PrintEdits(c.edits), PrintChanges(changes[1..]), changes);
    }
  }

  lemma ChangeStep(hunks: seq<Hunk>, line: string, c: Change, rest: seq<string>)
    requires HeaderFor(line, c)
    ensures ParseFrom(hunks, [line] + (PrintEdits(c.edits) + rest)) ==
            ParseFrom(hunks + [HunkWith(c, Visible(c.edits))], rest)
  {
    var base, after := HunkWith(c, []), PrintEdits(c.edits) + rest;
    assert ([line] + after)[1..] == after;
    assert ParseLine(hunks, line) == Ok(hunks + [base]);
    ParsePrintedEdits(hunks, base, c.edits, rest);
    assert base.edits + Visible(c.edits) == Visible(c.edits);
  }

  lemma {:induction false} ParsePrintedChanges(hunks: seq<Hunk>, lines: seq<string>, changes: seq<Change>,
                                               rest: seq<string>)
    requires Printed(lines, changes)
    ensures ParseFrom(hunks, lines + rest) == ParseFrom(hunks + SeenHunks(changes), rest)
    decreases |changes|
  {
    if changes == [] {
      assert lines + rest == rest;
      assert hunks + SeenHunks(changes) == hunks;
    } else {
      var c, n := changes[0], 1 + |changes[0].edits|;
      var seen := HunkWith(c, Visible(c.edits));
      FirstAndRest(lines, n, rest);
      ChangeStep(hunks, lines[0], c, lines[n..] + rest);
      ParsePrintedChanges(hunks + [seen], lines[n..], changes[1..], rest);
      Assoc(hunks, [seen], SeenHunks(changes[1..]));
    }
  }

  lemma FirstAndRest(lines: seq<string>, n: nat, rest: seq<string>)
    requires 1 <= n <= |lines|
    ensures lines + rest == [lines[0]] + (lines[1..n] + (lines[n..] + rest))
  {
  }

  lemma {:induction false} PrintEditsPlain(edits: seq<Edit>)
    requires forall e | e in edits :: '\n' !in e.text
    ensures forall l | l in PrintEdits(edits) :: '\n' !in l
  {
    if edits != [] {
      PrintEditsPlain(edits[1..]);
    }
  }

  lemma {:induction false} PrintChangesPlain(changes: seq<Change>)
    requires Printable(changes)
    ensures forall l | l in PrintChanges(changes) :: '\n' !in l
  {
    if changes != [] {
      assert changes[0] in changes;
      PrintEditsPlain(changes[0].edits);
      PrintChangesPlain(changes[1..]);
      assert '\n' !in PrintHeader(changes[0]);
    }
  }

  lemma ParsePrintedLines(lines: seq<string>, changes: seq<Change>)
    requires Printed(lines, changes) && changes != []
    ensures ParseFrom([], FILE_HEADERS + lines) == Ok(SeenHunks(changes))
    ensures ParseFrom([], FILE_HEADERS + lines + [""]) == Ok(AddBlankLine(SeenHunks(changes)))
  {
    var seen := SeenHunks(changes);
    SkipHeads(lines);
    SkipHeads(lines + [""]);
    assert FILE_HEADERS + lines + [""] == FILE_HEADERS + (lines + [""]);
    ParsePrintedChanges([], lines, changes, []);
    ParsePrintedChanges([], lines, changes, [""]);
    assert lines + [] == lines && [] + seen == seen;
    EmptyLineIsContext(seen);
  }

  // Parsing a printed diff gives the printed hunks back, less the header-like
  // lines; a final newline adds an empty context line to the last hunk.
  lemma ParsePrinted(changes: seq<Change>)
    requires changes != [] && Printable(changes)
    ensures Parse(PrintDiff(changes)) == Ok(SeenHunks(changes))
    ensures Parse(PrintDiff(changes) + "\n") == Ok(AddBlankLine(SeenHunks(changes)))
  {
    PrintChangesPlain(changes);
    PrintChangesPrinted(changes);
    ParsePrintedLines(PrintChanges(changes), changes);
    SplitHeaded(PrintChanges(changes));
  }

  lemma SplitHeaded(lines: seq<string>)
    requires forall l | l in lines :: '\n' !in l
    ensures Split(Join(FILE_HEADERS + lines)) == FILE_HEADERS + lines
    ensures Split(Join(FILE_HEADERS + lines) + "\n") == FILE_HEADERS + lines + [""]
  {
    SplitJoin(FILE_HEADERS + lines);
    SplitTerminated(Join(FILE_HEADERS + lines));
  }

  lemma EmptyLineIsContext(hunks: seq<Hunk>)
    requires hunks != []
    ensures ParseFrom(hunks, [""]) == Ok(AddBlankLine(hunks))
  {
    assert [""][1..] == [];
    assert ParseLine(hunks, "") == Ok(AddBlankLine(hunks));
  }

  function AddBlankLine(hunks: seq<Hunk>): seq<Hunk>
    requires hunks != []
  {
    hunks[..|hunks| - 1] + [AddEdit(hunks[|hunks| - 1], Keep(""))]
  }

  lemma SkipHeads(lines: seq<string>)
    ensures ParseFrom([], FILE_HEADERS + lines) == ParseFrom([], lines)
  {
    var all := FILE_HEADERS + lines;
    assert all[0][..4] == "--- " && all[1][..4] == "+++ ";
    assert all[1..][1..] == lines;
  }

  ghost predicate NoHeaderLike(changes: seq<Change>) {
    forall c | c in changes :: forall e | e in c.edits :: !HeaderLike(e)
  }

  lemma {:induction false} VisibleAll(edits: seq<Edit>)
    ensures |Visible(edits)| <= |edits|
    ensures (forall e | e in edits :: !HeaderLike(e)) <==> |Visible(edits)| == |edits|
    ensures |Visible(edits)| == |edits| ==> Visible(edits) == edits
  {
    if edits != [] {
      VisibleAll(edits[1..]);
      assert forall e | e in edits :: e == edits[0] || e in edits[1..];
    }
  }

  // The parser sees the hunks that were printed exactly when no removed line
  // starts with "-- " and no inserted line starts with "++ ".
  lemma {:induction false} SeenIffNoHeaderLike(changes: seq<Change>)
    ensures SeenHunks(changes) == HunksOf(changes) <==> NoHeaderLike(changes)
  {
    if changes != [] {
      var c := changes[0];
      VisibleAll(c.edits);
      SeenIffNoHeaderLike(changes[1..]);
      assert forall d | d in changes :: d == c || d in changes[1..];
      assert SeenHunks(changes)[0] == HunkWith(c, Visible(c.edits)) && HunksOf(changes)[0] == HunkWith(c, c.edits);
      assert SeenHunks(changes)[1..] == SeenHunks(changes[1..]);
      assert HunksOf(changes)[1..] == HunksOf(changes[1..]);
    }
  }
}
