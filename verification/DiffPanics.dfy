// Where gate/render.go panics. Hints are 64-bit integers, and the bounds test of
// the search adds the length of a block to them.
module DiffPanics {
  import opened Prelude
  import opened Text
  import opened UnifiedDiff
  import opened DiffLaws
  import opened PatchLaws
  import opened DiffRoundTrip
  import opened DiffPitfalls

  const INT64_MIN := -INT64_MAX - 1

  predicate IsInt64(x: int) { INT64_MIN <= x <= INT64_MAX }

  // ------------------------------------------------- the search

  lemma WrapIsPlain(x: int)
    requires IsInt64(x)
    ensures Wrapped(x) == x
  {
  }

  lemma WrapIsNegative(x: int)
    requires INT64_MAX < x <= 2 * INT64_MAX
    ensures Wrapped(x) < 0
  {
    assert Wrapped(x) == x - 2 * (INT64_MAX + 1);
  }

  lemma {:induction false} ScanMeans(src: seq<string>, want: seq<string>, i: nat, k: nat)
    requires k <= |want| && i + |want| <= |src| <= INT64_MAX
    ensures Scan(src, want, i, k) == if src[i + k..i + |want|] == want[k..] then Match else Differ
    decreases |want| - k
  {
    if k < |want| {
      WrapIsPlain(i + k);
      var here, there := src[i + k..i + |want|], want[k..];
      assert here == [src[i + k]] + src[i + k + 1..i + |want|] && there == [want[k]] + want[k + 1..];
      ScanMeans(src, want, i, k + 1);
      if src[i + k] == want[k] {
        assert here == there <==> here[1..] == there[1..];
      } else {
        assert here[0] != there[0];
      }
    }
  }

  // A probe past the largest integer gets through the bounds test and panics; every
  // other one is right.
  lemma ProbeMeans(src: seq<string>, want: seq<string>, i: int)
    requires want != [] && |src| + |want| <= INT64_MAX && IsInt64(i)
    ensures ProbeAt(src, want, i) ==
            if i + |want| > INT64_MAX then Crash else if MatchesAt(src, want, i) then Match else Differ
  {
    if i + |want| > INT64_MAX {
      WrapIsNegative(i + |want|);
      WrapIsPlain(i);
    } else if 0 <= i {
      WrapIsPlain(i + |want|);
      if i + |want| <= |src| {
        ScanMeans(src, want, i, 0);
      }
    }
  }

  lemma {:induction false} SearchFromMeans(src: seq<string>, want: seq<string>, i: nat)
    requires want != [] && |src| + |want| <= INT64_MAX
    ensures SearchFrom(src, want, i) == Done(FirstMatch(src, want, i))
    decreases |src| - i
  {
    if i + |want| <= |src| {
      ProbeMeans(src, want, i);
      if !MatchesAt(src, want, i) {
        SearchFromMeans(src, want, i + 1);
      }
    }
  }

  // The job's hint is too close to the largest integer: adding the length of its
  // nonempty block wraps around. Below the smallest integer the hint itself does.
  predicate Overflows(j: Job) {
    j.was != [] && (j.hint == INT64_MIN - 1 || j.hint + |j.was| > INT64_MAX)
  }

  // Hints of parsed headers: a 64-bit number less one.
  predicate Hinted(j: Job) { INT64_MIN - 1 <= j.hint < INT64_MAX }

  lemma SearchMeans(src: seq<string>, j: Job, cursor: nat)
    requires |src| + |j.was| < INT64_MAX && Hinted(j)
    ensures SearchJob(src, j, cursor) == if Overflows(j) then Panic else Done(Find(src, j, cursor))
  {
    var hint := Wrapped(j.hint);
    if j.hint == INT64_MIN - 1 {
      assert hint == INT64_MAX;
    } else {
      WrapIsPlain(j.hint);
    }
    if j.was != [] {
      ProbeMeans(src, j.was, hint);
      SearchFromMeans(src, j.was, cursor);
    }
  }

  // ------------------------------------------------- the loop over hunks

  // What the jobs ask for and put down, in lines.
  function Volume(jobs: seq<Job>): nat {
    if jobs == [] then 0 else |jobs[0].was| + |jobs[0].becomes| + Volume(jobs[1..])
  }

  ghost predicate AllHinted(jobs: seq<Job>) { forall i | 0 <= i < |jobs| :: Hinted(jobs[i]) }

  // The loop comes to a job whose hint overflows.
  ghost predicate Overruns(find: Finder, out: seq<string>, jobs: seq<Job>, cursor: nat)
    decreases |jobs|
  {
    jobs != [] &&
    var j := jobs[0];
    (Overflows(j) ||
     match find(out, j, cursor)
     case None => false
     case Some(idx) =>
       idx + |j.was| <= |out| &&
       Overruns(find, Replace(out, idx, |j.was|, j.becomes), jobs[1..], idx + |j.becomes|))
  }

  // On texts of moderate size the search panics exactly on hints that overflow, and
  // finds the same places, which lie in the text, otherwise.
  ghost predicate Agrees(find: Finder, search: Searcher) {
    forall out: seq<string>, j: Job, cursor: nat | cursor <= |out| && |out| + |j.was| < INT64_MAX && Hinted(j) ::
      search(out, j, cursor) == (if Overflows(j) then Panic else Done(find(out, j, cursor))) &&
      (find(out, j, cursor).Some? ==> find(out, j, cursor).value + |j.was| <= |out|)
  }

  lemma FindAgrees()
    ensures Agrees(Find, SearchJob)
  {
    forall out: seq<string>, j: Job, cursor: nat | cursor <= |out| && |out| + |j.was| < INT64_MAX && Hinted(j)
      ensures SearchJob(out, j, cursor) == if Overflows(j) then Panic else Done(Find(out, j, cursor))
      ensures Find(out, j, cursor).Some? ==> Find(out, j, cursor).value + |j.was| <= |out|
    {
      SearchMeans(out, j, cursor);
    }
  }

  lemma {:induction false} JobsRun(find: Finder, search: Searcher, out: seq<string>, jobs: seq<Job>, cursor: nat)
    requires Agrees(find, search) && AllHinted(jobs) && cursor <= |out| && |out| + Volume(jobs) < INT64_MAX
    ensures RunJobs(search, out, jobs, cursor) ==
            if Overruns(find, out, jobs, cursor) then Panic else Done(ApplyJobs(find, out, jobs, cursor))
    decreases |jobs|
  {
    if jobs != [] {
      var j := jobs[0];
      var found := find(out, j, cursor);
      assert search(out, j, cursor) == if Overflows(j) then Panic else Done(found);
      if !Overflows(j) && found.Some? {
        JobsRun(find, search, Replace(out, found.value, |j.was|, j.becomes), jobs[1..], found.value + |j.becomes|);
      }
    }
  }

  // ------------------------------------------------- whole texts

  lemma {:induction false} SplitBounded(s: string)
    ensures |Split(s)| <= |s| + 1
  {
    if s != "" {
      SplitBounded(s[1..]);
    }
  }

  // The number of body lines of all hunks, and the range of their starts.
  function Lengths(hunks: seq<Hunk>): nat {
    if hunks == [] then 0 else Lengths(hunks[..|hunks| - 1]) + |hunks[|hunks| - 1].edits|
  }

  ghost predicate Starts(hunks: seq<Hunk>) { forall i | 0 <= i < |hunks| :: IsInt64(hunks[i].oldStart) }

  lemma LengthsAppend(hunks: seq<Hunk>, h: Hunk)
    ensures Lengths(hunks + [h]) == Lengths(hunks) + |h.edits|
  {
    assert (hunks + [h])[..|hunks|] == hunks;
  }

  lemma {:induction false} LengthsFirst(hunks: seq<Hunk>)
    requires hunks != []
    ensures Lengths(hunks) == |hunks[0].edits| + Lengths(hunks[1..])
  {
    if |hunks| == 1 {
      assert hunks[..0] == [] && hunks[1..] == [];
    } else {
      var init := hunks[..|hunks| - 1];
      LengthsFirst(init);
      assert init[1..] == hunks[1..][..|hunks| - 2];
    }
  }

  lemma {:induction false} SidesBounded(edits: seq<Edit>)
    ensures |OldSide(edits)| <= |edits| && |NewSide(edits)| <= |edits|
  {
    if edits != [] {
      SidesBounded(edits[..|edits| - 1]);
    }
  }

  lemma {:induction false} JobsBounded(hunks: seq<Hunk>)
    requires Starts(hunks)
    ensures Volume(JobsOf(hunks)) <= 2 * Lengths(hunks) && AllHinted(JobsOf(hunks))
  {
    if hunks != [] {
      SidesBounded(hunks[0].edits);
      LengthsFirst(hunks);
      JobsBounded(hunks[1..]);
      assert JobsOf(hunks)[1..] == JobsOf(hunks[1..]);
      assert forall i | 1 <= i < |hunks| :: JobsOf(hunks)[i] == JobsOf(hunks[1..])[i - 1];
    }
  }

  lemma HeaderStarts(line: string)
    requires ParseHunkHeader(line).Ok?
    ensures IsInt64(ParseHunkHeader(line).value.oldStart) && ParseHunkHeader(line).value.edits == []
  {
  }

  lemma BodyBounded(hunks: seq<Hunk>, e: Edit)
    requires hunks != [] && Starts(hunks)
    ensures var next := hunks[..|hunks| - 1] + [AddEdit(hunks[|hunks| - 1], e)];
            Starts(next) && Lengths(next) == Lengths(hunks) + 1
  {
    LengthsAppend(hunks[..|hunks| - 1], AddEdit(hunks[|hunks| - 1], e));
  }

  lemma LineBounded(hunks: seq<Hunk>, line: string)
    requires Starts(hunks) && ParseLine(hunks, line).Ok?
    ensures Starts(ParseLine(hunks, line).value)
    ensures Lengths(ParseLine(hunks, line).value) <= Lengths(hunks) + 1
  {
    if !FileHeader(line) {
      if HasPrefix(line, "@@") {
        HeaderStarts(line);
        LengthsAppend(hunks, ParseHunkHeader(line).value);
      } else if hunks != [] && BodyLine(line).Some? {
        BodyBounded(hunks, BodyLine(line).value);
      }
    }
  }

  lemma {:induction false} ParseBounded(hunks: seq<Hunk>, lines: seq<string>)
    requires Starts(hunks) && ParseFrom(hunks, lines).Ok?
    ensures Starts(ParseFrom(hunks, lines).value)
    ensures Lengths(ParseFrom(hunks, lines).value) <= Lengths(hunks) + |lines|
    decreases |lines|
  {
    if lines != [] {
      LineBounded(hunks, lines[0]);
      ParseBounded(ParseLine(hunks, lines[0]).value, lines[1..]);
    }
  }

  // Source and diff are shorter than the largest integer, as texts in memory are.
  predicate Fits(src: string, diff: string) { |src| + 2 * |diff| + 4 < INT64_MAX }

  ghost predicate Overrun(src: string, diff: string) {
    Parse(diff).Ok? && Overruns(Find, Split(src), JobsOf(Parse(diff).value), 0)
  }

  // Applying a diff panics exactly when it comes to a hunk whose hint overflows,
  // and gives its meaning otherwise.
  lemma RunMeans(src: string, diff: string)
    requires Fits(src, diff)
    ensures Run(src, diff) == if Overrun(src, diff) then Panic else Done(Apply(src, diff))
  {
    if Parse(diff).Ok? {
      SplitBounded(src);
      SplitBounded(diff);
      ParseBounded([], Split(diff));
      JobsBounded(Parse(diff).value);
      FindAgrees();
      JobsRun(Find, SearchJob, Split(src), JobsOf(Parse(diff).value), 0);
    }
  }

  // ------------------------------------------------- printed diffs

  // Two context lines numbered at the top of the range: whatever the source, the
  // diff "@@ -9223372036854775807,2 +1,2 @@" panics.
  const FAR: Change := Change(INT64_MAX - 1, 0, [Keep("a"), Keep("b")])

  lemma FarJob()
    ensures JobOf(HunkWith(FAR, FAR.edits)) == Job(["a", "b"], ["a", "b"], INT64_MAX - 1)
  {
    var edits := FAR.edits;
    var one := [Keep("a")];
    assert one[..0] == [] && OldSide(one) == ["a"] && NewSide(one) == ["a"];
    assert edits[..|edits| - 1] == one;
    assert OldSide(edits) == ["a", "b"] && NewSide(edits) == ["a", "b"];
  }

  lemma FarHintPanics(src: string)
    requires Fits(src, PrintDiff([FAR]))
    ensures Run(src, PrintDiff([FAR])) == Panic
  {
    FarJob();
    ParsePrinted([FAR]);
    assert !HeaderLike(Keep("a")) && !HeaderLike(Keep("b"));
    SeenIffNoHeaderLike([FAR]);
    var hunks := Parse(PrintDiff([FAR])).value;
    assert hunks[0] == HunkWith(FAR, FAR.edits) && JobsOf(hunks)[0] == JobOf(hunks[0]);
    RunMeans(src, PrintDiff([FAR]));
  }

  lemma {:induction false} NoOverrun(find: Finder, out: seq<string>, jobs: seq<Job>, cursor: nat)
    requires forall i | 0 <= i < |jobs| :: !Overflows(jobs[i])
    ensures !Overruns(find, out, jobs, cursor)
    decreases |jobs|
  {
    if jobs != [] && find(out, jobs[0], cursor).Some? {
      var j, idx := jobs[0], find(out, jobs[0], cursor).value;
      if idx + |j.was| <= |out| {
        NoOverrun(find, Replace(out, idx, |j.was|, j.becomes), jobs[1..], idx + |j.becomes|);
      }
    }
  }

  lemma {:induction false} InOrderFits(src: seq<string>, patches: seq<Patch>, pos: nat, cursor: nat)
    requires InOrder(src, patches, pos, cursor) && |src| <= INT64_MAX
    ensures forall i | 0 <= i < |patches| :: !Overflows(PatchJobs(patches)[i])
    decreases |patches|
  {
    if patches != [] {
      InOrderFits(src, patches[1..], patches[0].End(), patches[0].NewEnd());
      assert forall i | 1 <= i < |patches| :: PatchJobs(patches)[i] == PatchJobs(patches[1..])[i - 1];
    }
  }

  // A diff printed for the text it is applied to never panics.
  lemma PrintedRuns(src: seq<string>, changes: seq<Change>)
    requires changes != [] && Printable(changes) && NoHeaderLike(changes)
    requires src != [] && forall l | l in src :: '\n' !in l
    requires InOrder(src, Patches(changes), 0, 0) && Fits(Join(src), PrintDiff(changes))
    ensures Run(Join(src), PrintDiff(changes)) == Done(Apply(Join(src), PrintDiff(changes)))
  {
    ParsePrinted(changes);
    SeenIffNoHeaderLike(changes);
    SplitJoin(src);
    SplitBounded(Join(src));
    SameJobs(changes);
    InOrderFits(src, Patches(changes), 0, 0);
    NoOverrun(Find, src, PatchJobs(Patches(changes)), 0);
    RunMeans(Join(src), PrintDiff(changes));
  }

  // Nor does the same diff with a newline at its end, wherever its hunks then land.
  lemma TerminatedRuns(src: seq<string>, changes: seq<Change>)
    requires changes != [] && Printable(changes) && NoHeaderLike(changes)
    requires src != [] && forall l | l in src :: '\n' !in l
    requires InOrder(src, Patches(changes), 0, 0) && Fits(Join(src), PrintDiff(changes) + "\n")
    ensures Run(Join(src), PrintDiff(changes) + "\n") == Done(Apply(Join(src), PrintDiff(changes) + "\n"))
  {
    var patches := Patches(changes);
    EndedParse(changes);
    SplitJoin(src);
    SplitBounded(Join(src));
    AllButLast(src, patches, 0, 0);
    InOrderFits(src, Front(patches), 0, 0);
    NoOverrun(Find, src, EndedJobs(patches), 0);
    RunMeans(Join(src), PrintDiff(changes) + "\n");
  }

  // Whatever the diff, a success as the code runs is a chain of verbatim replacements.
  lemma RunRewrites(src: string, diff: string, target: string)
    requires Fits(src, diff) && Run(src, diff) == Done(Ok(target))
    ensures Parse(diff).Ok?
    ensures exists lines :: target == Join(lines) && Rewrites(Split(src), Parse(diff).value, lines) &&
                            |lines| == |Split(src)| + Growth(Parse(diff).value)
  {
    RunMeans(src, diff);
    ApplyRewrites(Split(src), Parse(diff).value);
    assert target == Join(ApplyHunks(Split(src), Parse(diff).value).value);
  }

  // The round trip as the code runs.
  lemma RoundTripRuns(src: seq<string>, changes: seq<Change>)
    requires changes != [] && Printable(changes) && Printable(SwapAll(changes))
    requires NoHeaderLike(changes) && NoHeaderLike(SwapAll(changes))
    requires src != [] && forall l | l in src :: '\n' !in l
    requires InOrder(src, Patches(changes), 0, 0) && Steady(Patches(changes))
    requires forall i | 0 <= i < |changes| :: NewSide(changes[i].edits) != []
    requires Fits(Join(src), PrintDiff(changes))
    requires Fits(Join(Target(src, Patches(changes), 0, 0)), PrintDiff(SwapAll(changes)))
    ensures var target := Join(Target(src, Patches(changes), 0, 0));
            Run(Join(src), PrintDiff(changes)) == Done(Ok(target)) &&
            Run(target, PrintDiff(SwapAll(changes))) == Done(Ok(Join(src)))
  {
    RoundTrip(src, changes);
    SwapReady(src, changes);
    PrintedRuns(src, changes);
    PrintedRuns(Target(src, Patches(changes), 0, 0), SwapAll(changes));
  }
}
