// Printed diffs that do not do what they say: where the hunks of a text land, a
// newline at the end of the diff, pure insertions and stale hints.
module DiffPitfalls {
  import opened Prelude
  import opened Text
  import opened UnifiedDiff
  import opened DiffLaws
  import opened PatchLaws
  import opened DiffRoundTrip

  // ------------------------------------------------- a newline at the end

  function Front(patches: seq<Patch>): seq<Patch>
    requires patches != []
  {
    patches[..|patches| - 1]
  }

  function Last(patches: seq<Patch>): Patch
    requires patches != []
  {
    patches[|patches| - 1]
  }

  // What a hunk asks for that has an empty line of context added at its end. Its
  // header, and so its hint, is still the one of the hunk without that line.
  function Ending(p: Patch): Job { Job(p.was + [""], p.becomes + [""], p.Hint()) }

  function EndedJobs(patches: seq<Patch>): seq<Job>
    requires patches != []
  {
    PatchJobs(Front(patches)) + [Ending(Last(patches))]
  }

  lemma {:induction false} JobsAppend(hunks: seq<Hunk>, h: Hunk)
    ensures JobsOf(hunks + [h]) == JobsOf(hunks) + [JobOf(h)]
  {
    if hunks != [] {
      assert (hunks + [h])[0] == hunks[0] && (hunks + [h])[1..] == hunks[1..] + [h];
      JobsAppend(hunks[1..], h);
    } else {
      assert [h][1..] == [];
    }
  }

  lemma {:induction false} PatchJobsAppend(patches: seq<Patch>, p: Patch)
    ensures PatchJobs(patches + [p]) == PatchJobs(patches) + [p.AsJob()]
  {
    if patches != [] {
      assert (patches + [p])[0] == patches[0] && (patches + [p])[1..] == patches[1..] + [p];
      PatchJobsAppend(patches[1..], p);
    } else {
      assert [p][1..] == [];
    }
  }

  lemma LastAndRest(a: seq<Job>, x: Job, b: seq<Job>, y: Job)
    requires a + [x] == b + [y]
    ensures a == b && x == y
  {
    assert |a| == |b| && (a + [x])[|a|] == x && (b + [y])[|b|] == y;
    assert (a + [x])[..|a|] == a && (b + [y])[..|b|] == b;
  }

  lemma BlankJob(h: Hunk, p: Patch)
    requires JobOf(h) == p.AsJob()
    ensures JobOf(AddEdit(h, Keep(""))) == Ending(p)
  {
    assert AddEdit(h, Keep("")).edits[..|h.edits|] == h.edits;
  }

  lemma BlankLineJobs(hunks: seq<Hunk>, patches: seq<Patch>)
    requires hunks != [] && patches != [] && JobsOf(hunks) == PatchJobs(patches)
    ensures JobsOf(AddBlankLine(hunks)) == EndedJobs(patches)
  {
    var init, h := hunks[..|hunks| - 1], hunks[|hunks| - 1];
    assert hunks == init + [h] && patches == Front(patches) + [Last(patches)];
    JobsAppend(init, h);
    PatchJobsAppend(Front(patches), Last(patches));
    LastAndRest(JobsOf(init), JobOf(h), PatchJobs(Front(patches)), Last(patches).AsJob());
    BlankJob(h, Last(patches));
    JobsAppend(init, AddEdit(h, Keep("")));
  }

  // The hunks that a printed diff with a newline at its end is read as.
  lemma EndedParse(changes: seq<Change>)
    requires changes != [] && Printable(changes) && NoHeaderLike(changes)
    ensures Parse(PrintDiff(changes) + "\n").Ok?
    ensures JobsOf(Parse(PrintDiff(changes) + "\n").value) == EndedJobs(Patches(changes))
  {
    ParsePrinted(changes);
    SeenIffNoHeaderLike(changes);
    SameJobs(changes);
    BlankLineJobs(HunksOf(changes), Patches(changes));
  }

  function ApplyEnded(src: seq<string>, patches: seq<Patch>): Lines
    requires patches != []
  {
    ApplyJobs(Find, src, EndedJobs(patches), 0)
  }

  lemma EndedAsPatches(src: seq<string>, changes: seq<Change>)
    requires changes != [] && Printable(changes) && NoHeaderLike(changes)
    requires src != [] && forall l | l in src :: '\n' !in l
    ensures Apply(Join(src), PrintDiff(changes) + "\n") ==
            match ApplyEnded(src, Patches(changes))
            case Ok(lines) => Ok(Join(lines))
            case Err(e) => Err(e)
  {
    EndedParse(changes);
    SplitJoin(src);
  }

  // ------------------------------------------------- all but the last hunk

  lemma {:induction false} AllButLast(src: seq<string>, patches: seq<Patch>, pos: nat, cursor: nat)
    requires patches != [] && InOrder(src, patches, pos, cursor)
    ensures InOrder(src, Front(patches), pos, cursor)
    ensures MatchesAt(src, Last(patches).was, Last(patches).oldStart)
    decreases |patches|
  {
    if |patches| > 1 {
      AllButLast(src, patches[1..], patches[0].End(), patches[0].NewEnd());
      assert Front(patches)[1..] == Front(patches[1..]);
    }
  }

  // The text with all patches applied but the last.
  ghost function Middle(src: seq<string>, patches: seq<Patch>, pos: nat, cursor: nat): seq<string>
    requires patches != [] && InOrder(src, patches, pos, cursor)
  {
    AllButLast(src, patches, pos, cursor);
    Target(src, Front(patches), pos, cursor)
  }

  lemma MiddleStep(src: seq<string>, patches: seq<Patch>, pos: nat, cursor: nat)
    requires |patches| > 1 && InOrder(src, patches, pos, cursor)
    ensures var p, rest := patches[0], patches[1..];
            var gap := src[pos..p.oldStart] + p.becomes;
            |gap| == p.NewEnd() - cursor && Last(rest) == Last(patches) &&
            Middle(src, patches, pos, cursor) == gap + Middle(src, rest, p.End(), p.NewEnd()) &&
            Target(src, patches, pos, cursor) == gap + Target(src, rest, p.End(), p.NewEnd())
  {
    assert Front(patches)[1..] == Front(patches[1..]);
    AllButLast(src, patches, pos, cursor);
  }

  // Where the search for the last patch starts.
  function LastStart(patches: seq<Patch>): nat
    requires patches != []
  {
    EndOf(Front(patches), 0)
  }

  lemma {:induction false} LastInside(src: seq<string>, patches: seq<Patch>, pos: nat, cursor: nat)
    requires patches != [] && InOrder(src, patches, pos, cursor)
    ensures cursor <= EndOf(Front(patches), cursor) <= Last(patches).newStart && pos <= Last(patches).End() <= |src|
    decreases |patches|
  {
    if |patches| > 1 {
      LastInside(src, patches[1..], patches[0].End(), patches[0].NewEnd());
      assert Front(patches)[1..] == Front(patches[1..]) && Last(patches[1..]) == Last(patches);
    }
  }

  // The intended text up to the last patch.
  ghost function Head(src: seq<string>, patches: seq<Patch>, pos: nat, cursor: nat): seq<string>
    requires patches != [] && InOrder(src, patches, pos, cursor)
    decreases |patches|
  {
    var p := patches[0];
    if |patches| == 1 then src[pos..p.oldStart]
    else src[pos..p.oldStart] + p.becomes + Head(src, patches[1..], p.End(), p.NewEnd())
  }

  lemma HeadStep(gap: seq<string>, head: seq<string>, tail: seq<string>, whole: seq<string>)
    requires whole == head + tail
    ensures gap + whole == gap + head + tail
  {
  }

  lemma HeadAlone(src: seq<string>, p: Patch, pos: nat, cursor: nat)
    requires InOrder(src, [p], pos, cursor)
    ensures |Head(src, [p], pos, cursor)| == p.newStart - cursor
    ensures Middle(src, [p], pos, cursor) == Head(src, [p], pos, cursor) + src[p.oldStart..]
    ensures Target(src, [p], pos, cursor) == Head(src, [p], pos, cursor) + (p.becomes + src[p.End()..])
  {
    assert [p][1..] == [] && Front([p]) == [];
    assert Middle(src, [p], pos, cursor) == src[pos..];
    CutAt(src, pos, p.oldStart);
    Assoc(src[pos..p.oldStart], p.becomes, Target(src, [], p.End(), p.NewEnd()));
  }

  lemma CutAt(src: seq<string>, i: nat, n: nat)
    requires i <= n <= |src|
    ensures src[i..] == src[i..n] + src[n..]
  {
  }

  lemma {:induction false} HeadLength(src: seq<string>, patches: seq<Patch>, pos: nat, cursor: nat)
    requires patches != [] && InOrder(src, patches, pos, cursor)
    ensures |Head(src, patches, pos, cursor)| == Last(patches).newStart - cursor
    decreases |patches|
  {
    if |patches| > 1 {
      HeadLength(src, patches[1..], patches[0].End(), patches[0].NewEnd());
    }
  }

  // The middle and the intended text go on behind their common head as the source and
  // the last patch say.
  lemma {:induction false} HeadThen(src: seq<string>, patches: seq<Patch>, pos: nat, cursor: nat)
    requires patches != [] && InOrder(src, patches, pos, cursor) && Last(patches).End() <= |src|
    ensures var head, last := Head(src, patches, pos, cursor), Last(patches);
            Middle(src, patches, pos, cursor) == head + src[last.oldStart..] &&
            Target(src, patches, pos, cursor) == head + (last.becomes + src[last.End()..])
    decreases |patches|
  {
    var p, rest, last := patches[0], patches[1..], Last(patches);
    if |patches| > 1 {
      HeadThen(src, rest, p.End(), p.NewEnd());
      MiddleStep(src, patches, pos, cursor);
      var gap, head := src[pos..p.oldStart] + p.becomes, Head(src, rest, p.End(), p.NewEnd());
      HeadStep(gap, head, src[last.oldStart..], Middle(src, rest, p.End(), p.NewEnd()));
      HeadStep(gap, head, last.becomes + src[last.End()..], Target(src, rest, p.End(), p.NewEnd()));
    } else {
      assert patches == [p];
      HeadAlone(src, p, pos, cursor);
    }
  }

  // The last patch stands at line n of the text mid, and replacing it there gives the
  // text whole.
  ghost predicate Stands(src: seq<string>, last: Patch, mid: seq<string>, n: nat, whole: seq<string>) {
    n + |last.was| <= |mid| && last.oldStart <= |src| && mid[n..] == src[last.oldStart..] &&
    whole == Replace(mid, n, |last.was|, last.becomes)
  }

  lemma HeadStands(src: seq<string>, last: Patch, head: seq<string>)
    requires last.End() <= |src|
    ensures Stands(src, last, head + src[last.oldStart..], |head|, head + (last.becomes + src[last.End()..]))
  {
    var mid := head + src[last.oldStart..];
    assert mid[|head|..] == src[last.oldStart..] && mid[..|head|] == head;
    assert mid[|head| + |last.was|..] == src[last.End()..];
  }

  // The last patch stands in the middle text where it should, and replacing it there
  // gives the intended text.
  lemma LastStands(src: seq<string>, patches: seq<Patch>)
    requires patches != [] && InOrder(src, patches, 0, 0)
    ensures Stands(src, Last(patches), Middle(src, patches, 0, 0), Last(patches).newStart, Target(src, patches, 0, 0))
  {
    LastInside(src, patches, 0, 0);
    HeadThen(src, patches, 0, 0);
    HeadLength(src, patches, 0, 0);
    HeadStands(src, Last(patches), Head(src, patches, 0, 0));
  }

  // A blank line follows the last patch.
  predicate BlankFollows(src: seq<string>, patches: seq<Patch>)
    requires patches != []
  {
    var end := Last(patches).End();
    end < |src| && src[end] == ""
  }

  lemma BlankMatches(src: seq<string>, was: seq<string>, i: nat)
    requires MatchesAt(src, was, i)
    ensures MatchesAt(src, was + [""], i) <==> i + |was| < |src| && src[i + |was|] == ""
  {
    if i + |was| < |src| {
      assert src[i..i + |was| + 1] == src[i..i + |was|] + [src[i + |was|]];
    }
  }

  lemma StandsMatches(src: seq<string>, last: Patch, mid: seq<string>, n: nat, whole: seq<string>)
    requires Stands(src, last, mid, n, whole) && MatchesAt(src, last.was, last.oldStart)
    ensures MatchesAt(mid, last.was, n)
    ensures MatchesAt(mid, last.was + [""], n) <==> BlankFollows(src, [last])
  {
    assert mid[n..][..|last.was|] == src[last.oldStart..][..|last.was|] == last.was;
    BlankMatches(mid, last.was, n);
    assert last.End() < |src| ==> mid[n..][|last.was|] == src[last.oldStart..][|last.was|];
    assert |mid[n..]| == |src[last.oldStart..]|;
  }

  lemma LastMatches(src: seq<string>, patches: seq<Patch>)
    requires patches != [] && InOrder(src, patches, 0, 0)
    ensures var mid, last := Middle(src, patches, 0, 0), Last(patches);
            MatchesAt(mid, last.was, last.newStart) &&
            (MatchesAt(mid, last.was + [""], last.newStart) <==> BlankFollows(src, patches))
  {
    AllButLast(src, patches, 0, 0);
    LastStands(src, patches);
    StandsMatches(src, Last(patches), Middle(src, patches, 0, 0), Last(patches).newStart, Target(src, patches, 0, 0));
  }

  // ------------------------------------------------- where the hunks then land

  lemma {:induction false} LastFoundIff(find: Finder, out: seq<string>, j: Job, cursor: nat, place: nat)
    ensures JobPlaces(find, out, [j], cursor) == [place] <==>
            find(out, j, cursor) == Some(place) && place + |j.was| <= |out|
  {
    var places := JobPlaces(find, out, [j], cursor);
    match find(out, j, cursor)
    case None => assert places == [];
    case Some(idx) =>
      if idx + |j.was| <= |out| {
        FoundAtTruePlace(find, out, [j], cursor, idx);
        assert [j][1..] == [] && places == [idx] + [] == [idx];
        assert [idx][0] == idx && [place][0] == place;
      } else {
        assert places == [];
      }
  }

  // Patches and one more job all land where they should exactly when every patch is
  // found there and the job is in the text they leave.
  lemma {:induction false} PlacesThen(find: Finder, src: seq<string>, out: seq<string>, patches: seq<Patch>,
                                      pos: nat, cursor: nat, j: Job, place: nat)
    requires InOrder(src, patches, pos, cursor)
    requires cursor <= |out| && out[cursor..] == src[pos..]
    ensures JobPlaces(find, out, PatchJobs(patches) + [j], cursor) == TruePlaces(patches) + [place] <==>
            AllFound(find, out, patches, cursor) &&
            var mid := out[..cursor] + Target(src, patches, pos, cursor);
            find(mid, j, EndOf(patches, cursor)) == Some(place) && place + |j.was| <= |mid|
    decreases |patches|
  {
    if patches == [] {
      assert out == out[..cursor] + out[cursor..] && PatchJobs(patches) + [j] == [j];
      LastFoundIff(find, out, j, cursor, place);
    } else {
      var p, rest := patches[0], PatchJobs(patches[1..]) + [j];
      var places := TruePlaces(patches[1..]) + [place];
      assert PatchJobs(patches) + [j] == [p.AsJob()] + rest;
      assert TruePlaces(patches) + [place] == [p.newStart] + places;
      TargetStep(src, out, patches, pos, cursor);
      FirstOf(find, out, p, rest, cursor, places);
      PlacesThen(find, src, Replace(out, p.newStart, |p.was|, p.becomes), patches[1..], p.End(), p.NewEnd(), j, place);
    }
  }

  lemma {:induction false} TruePlacesAppend(patches: seq<Patch>, p: Patch)
    ensures TruePlaces(patches + [p]) == TruePlaces(patches) + [p.newStart]
  {
    if patches != [] {
      assert (patches + [p])[0] == patches[0] && (patches + [p])[1..] == patches[1..] + [p];
      TruePlacesAppend(patches[1..], p);
    } else {
      assert [p][1..] == [];
    }
  }

  // Each patch but the last is unambiguous, and so is the last with its blank line.
  ghost predicate EndedUnambiguous(src: seq<string>, patches: seq<Patch>)
    requires patches != [] && InOrder(src, patches, 0, 0)
  {
    AllUnambiguous(src, Front(patches), 0) &&
    Unambiguous(Middle(src, patches, 0, 0), Ending(Last(patches)), Last(patches).newStart, LastStart(patches))
  }

  lemma EndedInPlaceIff(src: seq<string>, patches: seq<Patch>)
    requires patches != [] && InOrder(src, patches, 0, 0)
    ensures JobPlaces(Find, src, EndedJobs(patches), 0) == TruePlaces(patches) <==>
            BlankFollows(src, patches) && EndedUnambiguous(src, patches)
  {
    var front, last, mid := Front(patches), Last(patches), Middle(src, patches, 0, 0);
    var j := Ending(last);
    AllButLast(src, patches, 0, 0);
    LastInside(src, patches, 0, 0);
    LastMatches(src, patches);
    assert patches == front + [last];
    TruePlacesAppend(front, last);
    PlacesThen(Find, src, src, front, 0, 0, j, last.newStart);
    assert src[..0] + mid == mid;
    AllFoundIff(src, src, front, 0, 0);
    FindIsSound();
    if MatchesAt(mid, j.was, last.newStart) {
      FoundIffUnambiguous(mid, j, last.newStart, LastStart(patches));
    }
  }

  // The hunks of a printed diff that ends in a newline all land at their true places
  // in a text exactly when a blank line follows the last one, and each is unambiguous
  // in the text built so far, the last one with that blank line.
  lemma TerminatedInPlaceIff(src: seq<string>, changes: seq<Change>)
    requires changes != [] && Printable(changes) && NoHeaderLike(changes)
    requires src != [] && forall l | l in src :: '\n' !in l
    requires InOrder(src, Patches(changes), 0, 0)
    ensures Parse(PrintDiff(changes) + "\n").Ok?
    ensures JobPlaces(Find, Split(Join(src)), JobsOf(Parse(PrintDiff(changes) + "\n").value), 0) ==
            TruePlaces(Patches(changes)) <==>
            BlankFollows(src, Patches(changes)) && EndedUnambiguous(src, Patches(changes))
  {
    EndedParse(changes);
    SplitJoin(src);
    EndedInPlaceIff(src, Patches(changes));
  }

  lemma {:induction false} SteadyStarts(src: seq<string>, patches: seq<Patch>, pos: nat)
    requires patches != [] && InOrder(src, patches, pos, pos) && Steady(patches)
    ensures Last(patches).newStart == Last(patches).oldStart
    decreases |patches|
  {
    if |patches| > 1 {
      SteadyStarts(src, patches[1..], patches[0].End());
    }
  }

  lemma SteadyEnded(src: seq<string>, patches: seq<Patch>)
    requires patches != [] && InOrder(src, patches, 0, 0) && Steady(patches)
    ensures EndedUnambiguous(src, patches) && Last(patches).Hint() == Last(patches).newStart
  {
    AllButLast(src, patches, 0, 0);
    SteadyUnambiguous(src, src, Front(patches), 0);
    SteadyStarts(src, patches, 0);
  }

  // With steady hunks, all of them land at their true places exactly when a blank
  // line follows the last one.
  lemma NewlineTerminatedIff(src: seq<string>, changes: seq<Change>)
    requires changes != [] && Printable(changes) && NoHeaderLike(changes)
    requires src != [] && forall l | l in src :: '\n' !in l
    requires InOrder(src, Patches(changes), 0, 0) && Steady(Patches(changes))
    ensures Parse(PrintDiff(changes) + "\n").Ok?
    ensures JobPlaces(Find, Split(Join(src)), JobsOf(Parse(PrintDiff(changes) + "\n").value), 0) ==
            TruePlaces(Patches(changes)) <==>
            BlankFollows(src, Patches(changes))
  {
    TerminatedInPlaceIff(src, changes);
    SteadyEnded(src, Patches(changes));
  }

  // ------------------------------------------------- what then happens

  // One job in a text, searched for from line start on.
  function DoneOnce(mid: seq<string>, j: Job, start: nat): Lines {
    match FindBlock(mid, j.was, start, j.hint)
    case None => Err(ContextMiss)
    case Some(idx) =>
      if idx + |j.was| <= |mid| then Ok(Replace(mid, idx, |j.was|, j.becomes)) else Err(ContextMiss)
  }

  lemma AloneEnded(src: seq<string>, p: Patch)
    ensures ApplyEnded(src, [p]) == DoneOnce(src, Ending(p), 0)
  {
    assert Front([p]) == [] && EndedJobs([p]) == [Ending(p)];
    OneJob(src, Ending(p), 0);
  }

  lemma OneJob(mid: seq<string>, j: Job, start: nat)
    ensures ApplyJobs(Find, mid, [j], start) == DoneOnce(mid, j, start)
  {
    assert [j][1..] == [];
  }

  // When all patches but the last are unambiguous, they land where they should, and
  // the last one is searched for with its blank line.
  lemma EndedOutcome(src: seq<string>, patches: seq<Patch>)
    requires patches != [] && InOrder(src, patches, 0, 0) && AllUnambiguous(src, Front(patches), 0)
    ensures ApplyEnded(src, patches) ==
            DoneOnce(Middle(src, patches, 0, 0), Ending(Last(patches)), LastStart(patches))
  {
    var front, mid, j := Front(patches), Middle(src, patches, 0, 0), Ending(Last(patches));
    AllButLast(src, patches, 0, 0);
    AllFoundIff(src, src, front, 0, 0);
    FoundThen(Find, src, src, front, 0, 0, [j]);
    assert src[..0] + mid == mid;
    OneJob(mid, j, LastStart(patches));
  }

  lemma BlankKept(mid: seq<string>, was: seq<string>, becomes: seq<string>, idx: nat)
    requires MatchesAt(mid, was + [""], idx)
    ensures Replace(mid, idx, |was| + 1, becomes + [""]) == Replace(mid, idx, |was|, becomes)
  {
    assert mid[idx + |was|] == mid[idx..idx + |was| + 1][|was|] == "";
    assert mid[idx + |was|..] == [""] + mid[idx + |was| + 1..];
  }

  lemma SteadyOutcome(src: seq<string>, patches: seq<Patch>)
    requires patches != [] && InOrder(src, patches, 0, 0) && Steady(patches)
    ensures var mid, last := Middle(src, patches, 0, 0), Last(patches);
            ApplyEnded(src, patches) ==
            if BlankFollows(src, patches) then Ok(Target(src, patches, 0, 0))
            else
              match FirstMatch(mid, last.was + [""], LastStart(patches))
              case None => Err(ContextMiss)
              case Some(idx) => Ok(Replace(mid, idx, |last.was|, last.becomes))
  {
    var mid, last := Middle(src, patches, 0, 0), Last(patches);
    SteadyEnded(src, patches);
    EndedOutcome(src, patches);
    LastMatches(src, patches);
    LastStands(src, patches);
    var found := FindBlock(mid, last.was + [""], LastStart(patches), last.newStart);
    if found.Some? {
      BlankKept(mid, last.was, last.becomes, found.value);
    }
  }

  // A diff text ending in a newline carries one blank context line more. With a
  // blank line behind the last hunk it applies as intended. Otherwise the last hunk
  // goes to the next place where its old lines stand above a blank line, and the
  // diff is refused when there is none.
  lemma NewlineTerminated(src: seq<string>, changes: seq<Change>)
    requires changes != [] && Printable(changes) && NoHeaderLike(changes)
    requires src != [] && forall l | l in src :: '\n' !in l
    requires InOrder(src, Patches(changes), 0, 0) && Steady(Patches(changes))
    ensures var patches := Patches(changes);
            var mid, last := Middle(src, patches, 0, 0), Last(patches);
            Apply(Join(src), PrintDiff(changes) + "\n") ==
            if BlankFollows(src, patches) then Ok(Join(Target(src, patches, 0, 0)))
            else
              match FirstMatch(mid, last.was + [""], LastStart(patches))
              case None => Err(ContextMiss)
              case Some(idx) => Ok(Join(Replace(mid, idx, |last.was|, last.becomes)))
  {
    EndedAsPatches(src, changes);
    SteadyOutcome(src, Patches(changes));
  }

  // ------------------------------------------------- a last hunk that only inserts

  function Power(w: seq<string>, n: nat): (r: seq<string>)
    ensures |r| == n * |w|
  {
    if n == 0 then [] else w + Power(w, n - 1)
  }

  // Both are repetitions of one block.
  ghost predicate Alike(a: seq<string>, b: seq<string>) {
    exists w, m: nat, n: nat :: a == Power(w, m) && b == Power(w, n)
  }

  lemma {:induction false} PowerAdds(w: seq<string>, m: nat, n: nat)
    ensures Power(w, m) + Power(w, n) == Power(w, m + n)
  {
    if m == 0 {
      assert [] + Power(w, n) == Power(w, n);
    } else {
      PowerAdds(w, m - 1, n);
      Assoc(w, Power(w, m - 1), Power(w, n));
    }
  }

  // Two blocks can be exchanged exactly when they are repetitions of one block.
  lemma {:induction false} CommuteIff(a: seq<string>, b: seq<string>)
    ensures a + b == b + a <==> Alike(a, b)
    decreases |a| + |b|
  {
    if Alike(a, b) {
      var w, m: nat, n: nat :| a == Power(w, m) && b == Power(w, n);
      PowerAdds(w, m, n);
      PowerAdds(w, n, m);
    } else if a + b == b + a {
      CommutingAlike(a, b);
    }
  }

  lemma CommutingRest(a: seq<string>, b: seq<string>)
    requires a + b == b + a && |a| <= |b|
    ensures b == a + b[|a|..] && a + b[|a|..] == b[|a|..] + a
  {
    var c := b[|a|..];
    assert a == (a + b)[..|a|] == (b + a)[..|a|] == b[..|a|];
    assert (a + b)[|a|..] == b && (b + a)[|a|..] == c + a;
  }

  lemma PowersAlike(w: seq<string>, m: nat, n: nat, a: seq<string>, b: seq<string>)
    requires a == Power(w, m) && b == Power(w, n)
    ensures Alike(a, b) && Alike(b, a)
  {
  }

  lemma {:induction false} CommutingAlike(a: seq<string>, b: seq<string>)
    requires a + b == b + a
    ensures Alike(a, b)
    decreases |a| + |b|, |a|
  {
    if |a| > |b| {
      CommutingAlike(b, a);
      var w, m: nat, n: nat :| b == Power(w, m) && a == Power(w, n);
      PowersAlike(w, m, n, b, a);
    } else if a == [] {
      assert Power(b, 1) == b + Power(b, 0) == b;
      PowersAlike(b, 0, 1, a, b);
    } else {
      var c := b[|a|..];
      CommutingRest(a, b);
      CommutingAlike(a, c);
      var w, m: nat, n: nat :| a == Power(w, m) && c == Power(w, n);
      PowerAdds(w, m, n);
      PowersAlike(w, m, m + n, a, b);
    }
  }

  // The lines between two line numbers.
  function Between(s: seq<string>, i: nat, n: nat): seq<string>
    requires i <= |s| && n <= |s|
  {
    if i <= n then s[i..n] else s[n..i]
  }

  lemma InsertedApart(s: seq<string>, i: nat, n: nat, block: seq<string>)
    requires i <= n <= |s|
    ensures Replace(s, i, 0, block) == Replace(s, n, 0, block) <==> block + s[i..n] == s[i..n] + block
  {
    var gap, end := s[i..n], n + |block|;
    var low, high := Replace(s, i, 0, block), Replace(s, n, 0, block);
    assert low == s[..i] + (block + gap) + s[n..];
    assert high == s[..i] + (gap + block) + s[n..];
    assert low[i..end] == block + gap && high[i..end] == gap + block;
  }

  // Inserting lines at i or at n makes no difference exactly when they and the lines
  // in between repeat one block.
  lemma InsertedIff(s: seq<string>, i: nat, n: nat, block: seq<string>)
    requires i <= |s| && n <= |s|
    ensures Replace(s, i, 0, block) == Replace(s, n, 0, block) <==> Alike(block, Between(s, i, n))
  {
    InsertedApart(s, if i <= n then i else n, if i <= n then n else i, block);
    CommuteIff(block, Between(s, i, n));
  }

  lemma {:induction false} TargetParts(src: seq<string>, changes: seq<Change>, mid: seq<string>)
    requires changes != [] && Printable(changes) && forall l | l in src :: '\n' !in l
    requires InOrder(src, Patches(changes), 0, 0) && mid == Middle(src, Patches(changes), 0, 0)
    ensures forall l | l in mid || l in Last(Patches(changes)).becomes :: '\n' !in l
  {
    var patches := Patches(changes);
    AllButLast(src, patches, 0, 0);
    forall i | 0 <= i < |changes| ensures forall l | l in patches[i].becomes :: '\n' !in l {
      assert changes[i] in changes;
      NewSidePlain(changes[i].edits);
    }
    TargetLines(src, Front(patches), 0, 0, l => '\n' !in l);
  }

  lemma JoinInjective(a: seq<string>, b: seq<string>)
    requires a != [] && b != [] && forall l | l in a + b :: '\n' !in l
    ensures Join(a) == Join(b) <==> a == b
  {
    assert forall l | l in a || l in b :: l in a + b;
    SplitJoin(a);
    SplitJoin(b);
  }

  // A last hunk that only inserts, below line k of the source, becomes a search for a
  // blank line: line k itself, or else the first one behind the earlier hunks.
  ghost function BlankLine(src: seq<string>, patches: seq<Patch>): Option<nat>
    requires patches != [] && InOrder(src, patches, 0, 0)
  {
    FindBlock(Middle(src, patches, 0, 0), [""], LastStart(patches), Last(patches).oldStart - 1)
  }

  lemma EndedInsertion(src: seq<string>, patches: seq<Patch>)
    requires patches != [] && InOrder(src, patches, 0, 0) && AllUnambiguous(src, Front(patches), 0)
    requires Last(patches).was == []
    ensures BlankLine(src, patches).Some? ==> BlankLine(src, patches).value < |Middle(src, patches, 0, 0)|
    ensures ApplyEnded(src, patches) ==
            match BlankLine(src, patches)
            case None => Err(ContextMiss)
            case Some(idx) => Ok(Replace(Middle(src, patches, 0, 0), idx, 0, Last(patches).becomes))
  {
    var mid, last := Middle(src, patches, 0, 0), Last(patches);
    EndedOutcome(src, patches);
    assert Ending(last).was == [""];
    if BlankLine(src, patches).Some? {
      BlankKept(mid, [], last.becomes, BlankLine(src, patches).value);
    }
  }

  lemma InsertedRight(src: seq<string>, patches: seq<Patch>, idx: nat)
    requires patches != [] && InOrder(src, patches, 0, 0) && Last(patches).was == []
    requires idx <= |Middle(src, patches, 0, 0)|
    ensures var mid, last := Middle(src, patches, 0, 0), Last(patches);
            last.newStart <= |mid| &&
            (Replace(mid, idx, 0, last.becomes) == Target(src, patches, 0, 0) <==>
             Alike(last.becomes, Between(mid, idx, last.newStart)))
  {
    LastStands(src, patches);
    InsertedIff(Middle(src, patches, 0, 0), idx, Last(patches).newStart, Last(patches).becomes);
  }

  lemma PlainReplace(mid: seq<string>, idx: nat, block: seq<string>)
    requires idx < |mid| && forall l | l in mid || l in block :: '\n' !in l
    ensures forall l | l in Replace(mid, idx, 0, block) :: '\n' !in l
  {
  }

  // A diff text that ends in a newline and in a hunk that only inserts: its lines are
  // put above that blank line, and without one the diff is refused.
  lemma TerminatedInsertion(src: seq<string>, changes: seq<Change>)
    requires changes != [] && Printable(changes) && NoHeaderLike(changes)
    requires src != [] && forall l | l in src :: '\n' !in l
    requires InOrder(src, Patches(changes), 0, 0) && AllUnambiguous(src, Front(Patches(changes)), 0)
    requires Last(Patches(changes)).was == []
    ensures var patches := Patches(changes);
            var mid, line := Middle(src, patches, 0, 0), BlankLine(src, patches);
            (line.Some? ==> line.value < |mid|) &&
            Apply(Join(src), PrintDiff(changes) + "\n") ==
            match line
            case None => Err(ContextMiss)
            case Some(idx) => Ok(Join(Replace(mid, idx, 0, Last(patches).becomes)))
  {
    EndedAsPatches(src, changes);
    EndedInsertion(src, Patches(changes));
  }

  // The result is the intended text exactly when the new lines and the lines between
  // there and their true place repeat one block.
  lemma TerminatedInsertionIff(src: seq<string>, changes: seq<Change>)
    requires changes != [] && Printable(changes) && NoHeaderLike(changes)
    requires src != [] && forall l | l in src :: '\n' !in l
    requires InOrder(src, Patches(changes), 0, 0) && AllUnambiguous(src, Front(Patches(changes)), 0)
    requires Last(Patches(changes)).was == []
    ensures var patches := Patches(changes);
            var mid, last, line := Middle(src, patches, 0, 0), Last(patches), BlankLine(src, patches);
            last.newStart <= |mid| && (line.Some? ==> line.value < |mid|) &&
            (Apply(Join(src), PrintDiff(changes) + "\n") == Ok(Join(Target(src, patches, 0, 0))) <==>
             line.Some? && Alike(last.becomes, Between(mid, line.value, last.newStart)))
  {
    var patches := Patches(changes);
    var line := BlankLine(src, patches);
    TerminatedInsertion(src, changes);
    InsertedRight(src, patches, if line.Some? then line.value else 0);
    if line.Some? {
      InsertedText(src, changes, line.value);
    }
  }

  lemma InsertedText(src: seq<string>, changes: seq<Change>, idx: nat)
    requires changes != [] && Printable(changes) && forall l | l in src :: '\n' !in l
    requires InOrder(src, Patches(changes), 0, 0) && Last(Patches(changes)).was == []
    requires idx < |Middle(src, Patches(changes), 0, 0)|
    ensures var patches := Patches(changes);
            var text := Replace(Middle(src, patches, 0, 0), idx, 0, Last(patches).becomes);
            Join(text) == Join(Target(src, patches, 0, 0)) <==> text == Target(src, patches, 0, 0)
  {
    var patches := Patches(changes);
    var mid, last := Middle(src, patches, 0, 0), Last(patches);
    TargetParts(src, changes, mid);
    TargetPlain(src, changes);
    PlainReplace(mid, idx, last.becomes);
    LastStands(src, patches);
    JoinInjective(Replace(mid, idx, 0, last.becomes), Target(src, patches, 0, 0));
  }

  // ------------------------------------------------- no blank line at all

  lemma BlankFreeStep(out: seq<string>, j: Job, idx: nat)
    requires "" !in out && "" !in j.becomes && MatchesAt(out, j.was, idx)
    ensures "" !in Replace(out, idx, |j.was|, j.becomes)
  {
  }

  lemma BlankFreeBlock(out: seq<string>, was: seq<string>, idx: nat)
    requires "" !in out && MatchesAt(out, was, idx)
    ensures "" !in was
  {
    assert forall i | 0 <= i < |was| :: was[i] == out[idx..idx + |was|][i] == out[idx + i];
  }

  lemma {:induction false} BlankNeverMatches(find: Finder, out: seq<string>, jobs: seq<Job>, cursor: nat)
    requires Sound(find) && jobs != [] && "" !in out
    requires forall i | 0 <= i < |jobs| - 1 :: "" !in jobs[i].becomes
    requires "" in jobs[|jobs| - 1].was
    ensures ApplyJobs(find, out, jobs, cursor) == Err(ContextMiss)
    decreases |jobs|
  {
    var j := jobs[0];
    var found := find(out, j, cursor);
    if found.Some? && found.value + |j.was| <= |out| {
      BlankFreeBlock(out, j.was, found.value);
      BlankFreeStep(out, j, found.value);
      BlankNeverMatches(find, Replace(out, found.value, |j.was|, j.becomes), jobs[1..], found.value + |j.becomes|);
    }
  }

  // A text without blank lines refuses every diff text that ends in a newline and
  // inserts no blank line, wherever its hunks belong and whatever they do to the line
  // count.
  lemma NewlineTerminatedMisses(src: seq<string>, changes: seq<Change>)
    requires changes != [] && Printable(changes) && NoHeaderLike(changes)
    requires src != [] && "" !in src && forall l | l in src :: '\n' !in l
    requires forall i | 0 <= i < |changes| - 1 :: "" !in NewSide(changes[i].edits)
    ensures Apply(Join(src), PrintDiff(changes) + "\n") == Err(ContextMiss)
  {
    var patches := Patches(changes);
    EndedAsPatches(src, changes);
    FindIsSound();
    forall i | 0 <= i < |changes| - 1 ensures "" !in EndedJobs(patches)[i].becomes {
      PatchJobsAt(Front(patches), i);
    }
    assert Ending(Last(patches)).was[|Last(patches).was|] == "";
    BlankNeverMatches(Find, src, EndedJobs(patches), 0);
  }

  lemma {:induction false} PatchJobsAt(patches: seq<Patch>, i: nat)
    requires i < |patches|
    ensures PatchJobs(patches)[i] == patches[i].AsJob()
  {
    if i > 0 {
      PatchJobsAt(patches[1..], i - 1);
    }
  }

  // ------------------------------------------------- where it goes wrong

  lemma {:induction false} InsertCommutes(block: seq<string>, x: string)
    ensures block + [x] == [x] + block <==> forall l | l in block :: l == x
  {
    if block != [] {
      var rest := block[1..];
      InsertCommutes(rest, x);
      assert block == [block[0]] + rest;
      assert block + [x] == [block[0]] + (rest + [x]);
      if block + [x] == [x] + block {
        assert (block + [x])[0] == x;
        assert rest + [x] == (block + [x])[1..] == block == [x] + rest;
      }
      if forall l | l in block :: l == x {
        forall l | l in rest ensures l == x { assert l in block; }
        assert block[0] in block;
        assert block + [x] == [x] + ([x] + rest) == [x] + block;
      }
    }
  }

  // A patch that only inserts, below line k >= 1, is put one line too high: the
  // result is the intended one exactly when each new line repeats line k.
  lemma InsertedHigh(src: seq<string>, p: Patch)
    requires InOrder(src, [p], 0, 0) && p.was == [] && p.oldStart >= 1
    ensures ApplyPatches(src, [p]) == Ok(Replace(src, p.oldStart - 1, 0, p.becomes))
    ensures Replace(src, p.oldStart - 1, 0, p.becomes) == Target(src, [p], 0, 0) <==>
            forall l | l in p.becomes :: l == src[p.oldStart - 1]
  {
    var k, block := p.oldStart, p.becomes;
    var low, high := Replace(src, k - 1, 0, block), Target(src, [p], 0, 0);
    assert [p][1..] == [] && InOrder(src, [p][1..], p.End(), p.NewEnd());
    var j := p.AsJob();
    assert PatchJobs([p]) == [j] && [j][1..] == [];
    assert Find(src, j, 0) == Some(k - 1);
    FoundAtTruePlace(Find, src, [j], 0, k - 1);
    assert Target(src, [p][1..], p.End(), p.NewEnd()) == src[k..];
    assert high == src[0..k] + block + src[k..];
    assert src[0..k] == src[..k] == src[..k - 1] + [src[k - 1]];
    assert high == src[..k] + block + src[k..];
    assert low == src[..k - 1] + (block + [src[k - 1]]) + src[k..];
    assert high == src[..k - 1] + ([src[k - 1]] + block) + src[k..];
    assert low[k - 1..k + |block|] == block + [src[k - 1]];
    assert high[k - 1..k + |block|] == [src[k - 1]] + block;
    InsertCommutes(block, src[k - 1]);
  }

  // A diff whose one hunk only inserts, below line k >= 1 of a text, gives the
  // intended text exactly when each new line repeats line k.
  lemma PureInsertion(src: seq<string>, c: Change)
    requires Printable([c]) && NoHeaderLike([c])
    requires src != [] && forall l | l in src :: '\n' !in l
    requires OldSide(c.edits) == [] && c.oldStart >= 1 && InOrder(src, [PatchOf(c)], 0, 0)
    ensures Apply(Join(src), PrintDiff([c])) == Ok(Join(Replace(src, c.oldStart - 1, 0, NewSide(c.edits))))
    ensures Apply(Join(src), PrintDiff([c])) == Ok(Join(Target(src, [PatchOf(c)], 0, 0))) <==>
            forall l | l in NewSide(c.edits) :: l == src[c.oldStart - 1]
  {
    var p := PatchOf(c);
    assert Patches([c]) == [p];
    PrintedAsPatches(src, [c]);
    InsertedHigh(src, p);
    TargetPlain(src, [c]);
    assert c in [c];
    NewSidePlain(c.edits);
    var low, high := Replace(src, c.oldStart - 1, 0, p.becomes), Target(src, [p], 0, 0);
    assert |low| == |src| + |p.becomes|;
    TargetLength(src, p);
    JoinInjective(low, high);
  }

  lemma TargetLength(src: seq<string>, p: Patch)
    requires InOrder(src, [p], 0, 0)
    ensures |Target(src, [p], 0, 0)| == |src| - |p.was| + |p.becomes|
  {
    assert [p][1..] == [] && InOrder(src, [p][1..], p.End(), p.NewEnd());
  }

  // ------------------------------------------------- two small texts

  lemma OldOfReplace(a: string, news: seq<string>, edits: seq<Edit>)
    requires edits == [Remove(a)] + seq(|news|, i requires 0 <= i < |news| => Insert(news[i]))
    ensures OldSide(edits) == [a] && NewSide(edits) == news
    decreases |news|
  {
    if news != [] {
      var n := |news| - 1;
      OldOfReplace(a, news[..n], edits[..|edits| - 1]);
      assert news == news[..n] + [news[n]];
    } else {
      assert edits[..0] == [];
    }
  }

  const ONE_TO_X: Change := Change(0, 0, [Remove("a"), Insert("x")])
  const ONLY_X: Change := Change(1, 1, [Insert("x")])
  const A_GROWS: Change := Change(0, 0, [Remove("a"), Insert("a"), Insert("x")])
  const B_TO_C: Change := Change(2, 3, [Remove("b"), Insert("c")])

  lemma OneToX()
    ensures PatchOf(ONE_TO_X) == Patch(0, 0, ["a"], ["x"]) && NoHeaderLike([ONE_TO_X]) && Printable([ONE_TO_X])
  {
    OldOfReplace("a", ["x"], ONE_TO_X.edits);
  }

  lemma AGrows()
    ensures PatchOf(A_GROWS) == Patch(0, 0, ["a"], ["a", "x"]) && NoHeaderLike([A_GROWS]) && Printable([A_GROWS])
  {
    OldOfReplace("a", ["a", "x"], A_GROWS.edits);
  }

  lemma BToC()
    ensures PatchOf(B_TO_C) == Patch(2, 3, ["b"], ["c"]) && NoHeaderLike([B_TO_C]) && Printable([B_TO_C])
  {
    OldOfReplace("b", ["c"], B_TO_C.edits);
  }

  lemma Both(c: Change, d: Change)
    requires NoHeaderLike([c]) && NoHeaderLike([d]) && Printable([c]) && Printable([d])
    ensures NoHeaderLike([c, d]) && Printable([c, d]) && Patches([c, d]) == [PatchOf(c), PatchOf(d)]
  {
    assert c in [c] && d in [d];
  }

  lemma SecondA()
    ensures FindBlock(["a", "b", "a", ""], ["a", ""], 0, 0) == Some(2)
  {
    var src, want := ["a", "b", "a", ""], ["a", ""];
    assert src[0..2][1] != want[1] && src[1..3][0] != want[0] && src[2..4] == want;
    assert FirstMatch(src, want, 0) == FirstMatch(src, want, 1) == FirstMatch(src, want, 2) == Some(2);
  }

  lemma MisplacedBlank()
    ensures ApplyEnded(["a", "b", "a", ""], [Patch(0, 0, ["a"], ["x"])]) == Ok(["a", "b", "x", ""])
  {
    var src, p := ["a", "b", "a", ""], Patch(0, 0, ["a"], ["x"]);
    AloneEnded(src, p);
    assert Ending(p) == Job(["a", ""], ["x", ""], 0);
    SecondA();
    assert Replace(src, 2, 2, ["x", ""]) == ["a", "b", "x", ""];
  }

  lemma IntendedFirst()
    ensures var src, patches := ["a", "b", "a", ""], [Patch(0, 0, ["a"], ["x"])];
            InOrder(src, patches, 0, 0) && Steady(patches) && Target(src, patches, 0, 0) == ["x", "b", "a", ""]
  {
    var src, p := ["a", "b", "a", ""], Patch(0, 0, ["a"], ["x"]);
    assert [p][1..] == [] && InOrder(src, [], 1, 1);
    assert Target(src, [], 1, 1) == ["b", "a", ""];
  }

  // Replacing "a" by "x" in line 1 of "a", "b", "a", blank changes line 3 instead
  // when the diff text ends in a newline.
  lemma NewlineMisplaces()
    ensures var src, changes := ["a", "b", "a", ""], [ONE_TO_X];
            InOrder(src, Patches(changes), 0, 0) && Steady(Patches(changes)) &&
            Target(src, Patches(changes), 0, 0) == ["x", "b", "a", ""] &&
            Apply(Join(src), PrintDiff(changes) + "\n") == Ok(Join(["a", "b", "x", ""]))
  {
    OneToX();
    IntendedFirst();
    MisplacedBlank();
    assert Patches([ONE_TO_X]) == [Patch(0, 0, ["a"], ["x"])];
    EndedAsPatches(["a", "b", "a", ""], [ONE_TO_X]);
  }

  lemma MisplacedInsertion()
    ensures ApplyEnded(["", ""], [Patch(1, 1, [], ["x"])]) == Ok(["x", "", ""])
  {
    var src, p := ["", ""], Patch(1, 1, [], ["x"]);
    AloneEnded(src, p);
    assert Ending(p) == Job([""], ["x", ""], 0);
    assert MatchesAt(src, [""], 0) && FindBlock(src, [""], 0, 0) == Some(0);
    assert Replace(src, 0, 1, ["x", ""]) == ["x", "", ""];
  }

  lemma IntendedInsertion()
    ensures var src, p := ["", ""], Patch(1, 1, [], ["x"]);
            InOrder(src, [p], 0, 0) && Target(src, [p], 0, 0) == ["", "x", ""] && BlankFollows(src, [p])
  {
    var src, p := ["", ""], Patch(1, 1, [], ["x"]);
    assert [p][1..] == [] && InOrder(src, [], 1, 2);
    assert Target(src, [], 1, 2) == [""];
  }

  // Inserting "x" below line 1 of two blank lines puts it above line 1, although the
  // next line is blank.
  lemma NewlineMisplacesInsertion()
    ensures var src, changes := ["", ""], [ONLY_X];
            InOrder(src, Patches(changes), 0, 0) && BlankFollows(src, Patches(changes)) &&
            Target(src, Patches(changes), 0, 0) == ["", "x", ""] &&
            Apply(Join(src), PrintDiff(changes) + "\n") == Ok(Join(["x", "", ""]))
  {
    assert ONLY_X.edits[..0] == [];
    assert PatchOf(ONLY_X) == Patch(1, 1, [], ["x"]) && Patches([ONLY_X]) == [PatchOf(ONLY_X)];
    IntendedInsertion();
    MisplacedInsertion();
    EndedAsPatches(["", ""], [ONLY_X]);
  }

  lemma StaleHint()
    ensures var src := ["a", "b", "b"];
            var patches := [Patch(0, 0, ["a"], ["a", "x"]), Patch(2, 3, ["b"], ["c"])];
            InOrder(src, patches, 0, 0) &&
            Target(src, patches, 0, 0) == ["a", "x", "b", "c"] &&
            ApplyPatches(src, patches) == Ok(["a", "x", "c", "b"])
  {
    var src := ["a", "b", "b"];
    var p, q := Patch(0, 0, ["a"], ["a", "x"]), Patch(2, 3, ["b"], ["c"]);
    assert [p, q][1..] == [q] && [q][1..] == [];
    assert MatchesAt(src, p.was, 0) && MatchesAt(src, q.was, 2);
    assert InOrder(src, [], 3, 4) && InOrder(src, [q], 1, 2);
    assert Target(src, [q], 1, 2) == ["b", "c"];
    var out := ["a", "x", "b", "b"];
    assert Replace(src, 0, 1, p.becomes) == out;
    assert PatchJobs([p, q]) == [p.AsJob(), q.AsJob()] && [p.AsJob(), q.AsJob()][1..] == [q.AsJob()];
    assert ApplyPatches(src, [p, q]) == ApplyJobs(Find, out, [q.AsJob()], 2);
    assert [q.AsJob()][1..] == [];
    assert MatchesAt(out, q.was, 2) && Replace(out, 2, 1, q.becomes) == ["a", "x", "c", "b"];
  }

  // After a hunk that changes the line count, the stale hint of the next one can
  // land on an earlier copy of its block: the diff of "a", "b", "b" that inserts "x"
  // below line 1 and replaces line 3 by "c" replaces line 2 instead.
  lemma StaleHintMisplaces()
    ensures var src, changes := ["a", "b", "b"], [A_GROWS, B_TO_C];
            InOrder(src, Patches(changes), 0, 0) &&
            Target(src, Patches(changes), 0, 0) == ["a", "x", "b", "c"] &&
            Apply(Join(src), PrintDiff(changes)) == Ok(Join(["a", "x", "c", "b"]))
  {
    AGrows();
    BToC();
    Both(A_GROWS, B_TO_C);
    StaleHint();
    PrintedAsPatches(["a", "b", "b"], [A_GROWS, B_TO_C]);
  }

  // ------------------------------------------------- where the hunks of a text land

  // The hunks of a printed diff all land at their true places in a text exactly when
  // each is unambiguous in the text built so far.
  lemma PrintedInPlaceIff(src: seq<string>, changes: seq<Change>)
    requires changes != [] && Printable(changes) && NoHeaderLike(changes)
    requires src != [] && forall l | l in src :: '\n' !in l
    requires InOrder(src, Patches(changes), 0, 0)
    ensures Parse(PrintDiff(changes)).Ok?
    ensures JobPlaces(Find, Split(Join(src)), JobsOf(Parse(PrintDiff(changes)).value), 0) ==
            TruePlaces(Patches(changes)) <==>
            AllUnambiguous(src, Patches(changes), 0)
  {
    ParsePrinted(changes);
    SeenIffNoHeaderLike(changes);
    SplitJoin(src);
    SameJobs(changes);
    InPlaceIff(src, Patches(changes));
  }
}
