// Where patches to a list of lines land. A patch is a hunk reduced to its two
// blocks and its true line numbers; the search is the one of gate/render.go.
module PatchLaws {
  import opened Prelude
  import opened UnifiedDiff

  datatype Patch = Patch(oldStart: nat, newStart: nat, was: seq<string>, becomes: seq<string>) {
    // The line the hunk header leads the search to. An empty old range is
    // numbered by the line before it (POSIX.1-2017, diff utility).
    function Hint(): int { if was == [] then oldStart - 1 else oldStart }

    function End(): nat { oldStart + |was| }

    function NewEnd(): nat { newStart + |becomes| }

    function AsJob(): Job { Job(was, becomes, Hint()) }

    function Swap(): Patch { Patch(newStart, oldStart, becomes, was) }
  }

  function PatchJobs(patches: seq<Patch>): (jobs: seq<Job>)
    ensures |jobs| == |patches|
  {
    if patches == [] then [] else [patches[0].AsJob()] + PatchJobs(patches[1..])
  }

  function ApplyPatches(out: seq<string>, patches: seq<Patch>): Lines {
    ApplyJobs(Find, out, PatchJobs(patches), 0)
  }

  // The places at which patches are applied, up to the first one not found.
  function Places(out: seq<string>, patches: seq<Patch>): seq<nat> {
    JobPlaces(Find, out, PatchJobs(patches), 0)
  }

  function TruePlaces(patches: seq<Patch>): seq<nat> {
    if patches == [] then [] else [patches[0].newStart] + TruePlaces(patches[1..])
  }

  // The patches lie in the source in increasing, non-overlapping order from line
  // pos on, which is line cursor of the target.
  ghost predicate InOrder(src: seq<string>, patches: seq<Patch>, pos: nat, cursor: nat)
    decreases |patches|
  {
    pos <= |src| &&
    (patches != [] ==>
       var p := patches[0];
       pos <= p.oldStart && MatchesAt(src, p.was, p.oldStart) &&
       p.newStart - cursor == p.oldStart - pos &&
       InOrder(src, patches[1..], p.End(), p.NewEnd()))
  }

  // The intended text from line pos on: unchanged lines and new blocks in turn.
  function Target(src: seq<string>, patches: seq<Patch>, pos: nat, cursor: nat): seq<string>
    requires InOrder(src, patches, pos, cursor)
    decreases |patches|
  {
    if patches == [] then src[pos..]
    else
      var p := patches[0];
      src[pos..p.oldStart] + p.becomes + Target(src, patches[1..], p.End(), p.NewEnd())
  }

  // The block of j is found at the given place of out. Hints are line numbers of the
  // original source, so a patch after a length-changing one is searched for from the
  // cursor unless its block happens to stand at the stale hint.
  ghost predicate Unambiguous(out: seq<string>, j: Job, place: nat, cursor: nat) {
    if j.was == [] then
      if 0 <= j.hint <= |out| then place == j.hint else place == cursor
    else
      place == j.hint ||
      (!MatchesAt(out, j.was, j.hint) && forall i | cursor <= i < place :: !MatchesAt(out, j.was, i))
  }

  ghost predicate AllUnambiguous(out: seq<string>, patches: seq<Patch>, cursor: nat)
    decreases |patches|
  {
    patches != [] ==>
      var p := patches[0];
      MatchesAt(out, p.was, p.newStart) && Unambiguous(out, p.AsJob(), p.newStart, cursor) &&
      AllUnambiguous(Replace(out, p.newStart, |p.was|, p.becomes), patches[1..], p.NewEnd())
  }

  lemma FoundIffUnambiguous(out: seq<string>, j: Job, place: nat, cursor: nat)
    requires cursor <= place && MatchesAt(out, j.was, place)
    ensures Find(out, j, cursor) == Some(place) <==> Unambiguous(out, j, place, cursor)
  {
    FirstMatchIsFirst(out, j.was, cursor);
  }

  // Every patch is found at its true place in the text built so far.
  ghost predicate AllFound(find: Finder, out: seq<string>, patches: seq<Patch>, cursor: nat)
    decreases |patches|
  {
    patches != [] ==>
      var p := patches[0];
      MatchesAt(out, p.was, p.newStart) && find(out, p.AsJob(), cursor) == Some(p.newStart) &&
      AllFound(find, Replace(out, p.newStart, |p.was|, p.becomes), patches[1..], p.NewEnd())
  }

  // out is src with everything before line pos done: the next patch stands in it
  // where it should, and replacing it there does one more.
  lemma StepInPlace(src: seq<string>, out: seq<string>, patches: seq<Patch>, pos: nat, cursor: nat)
    requires patches != [] && InOrder(src, patches, pos, cursor)
    requires cursor <= |out| && out[cursor..] == src[pos..]
    ensures var p := patches[0];
            cursor <= p.newStart && MatchesAt(out, p.was, p.newStart) &&
            var next := Replace(out, p.newStart, |p.was|, p.becomes);
            next[p.NewEnd()..] == src[p.End()..] &&
            next[..p.NewEnd()] == out[..cursor] + (src[pos..p.oldStart] + p.becomes)
  {
    var p := patches[0];
    assert forall i | 0 <= i < |src| - pos :: out[cursor + i] == out[cursor..][i] == src[pos..][i] == src[pos + i];
    assert out[p.newStart..p.newStart + |p.was|] == src[p.oldStart..p.End()];
    assert out[p.newStart + |p.was|..] == src[p.End()..];
    assert out[..p.newStart] == out[..cursor] + src[pos..p.oldStart];
  }

  lemma SameTail(x: nat, s: seq<nat>, t: seq<nat>)
    ensures [x] + s == [x] + t <==> s == t
  {
    assert ([x] + s)[1..] == s && ([x] + t)[1..] == t;
  }

  lemma {:induction false} FoundAtTruePlace(find: Finder, out: seq<string>, jobs: seq<Job>, cursor: nat, idx: nat)
    requires jobs != [] && find(out, jobs[0], cursor) == Some(idx) && idx + |jobs[0].was| <= |out|
    ensures var j := jobs[0];
            var next := Replace(out, idx, |j.was|, j.becomes);
            ApplyJobs(find, out, jobs, cursor) == ApplyJobs(find, next, jobs[1..], idx + |j.becomes|) &&
            JobPlaces(find, out, jobs, cursor) == [idx] + JobPlaces(find, next, jobs[1..], idx + |j.becomes|)
  {
  }

  lemma {:induction false} FoundElsewhere(find: Finder, out: seq<string>, jobs: seq<Job>, cursor: nat, idx: nat)
    requires jobs != [] && find(out, jobs[0], cursor) != Some(idx)
    ensures JobPlaces(find, out, jobs, cursor) == [] || JobPlaces(find, out, jobs, cursor)[0] != idx
  {
  }

  lemma FirstFound(find: Finder, out: seq<string>, p: Patch, rest: seq<Job>, cursor: nat, places: seq<nat>)
    requires find(out, p.AsJob(), cursor) == Some(p.newStart) && p.newStart + |p.was| <= |out|
    ensures JobPlaces(find, out, [p.AsJob()] + rest, cursor) == [p.newStart] + places <==>
            JobPlaces(find, Replace(out, p.newStart, |p.was|, p.becomes), rest, p.NewEnd()) == places
  {
    var all, next := [p.AsJob()] + rest, Replace(out, p.newStart, |p.was|, p.becomes);
    assert all[0] == p.AsJob() && all[1..] == rest;
    FoundAtTruePlace(find, out, all, cursor, p.newStart);
    SameTail(p.newStart, JobPlaces(find, next, rest, p.NewEnd()), places);
  }

  lemma FirstMissed(find: Finder, out: seq<string>, j: Job, rest: seq<Job>, cursor: nat, idx: nat, places: seq<nat>)
    requires find(out, j, cursor) != Some(idx)
    ensures JobPlaces(find, out, [j] + rest, cursor) != [idx] + places
  {
    FoundElsewhere(find, out, [j] + rest, cursor, idx);
  }

  lemma FirstOf(find: Finder, out: seq<string>, p: Patch, rest: seq<Job>, cursor: nat, places: seq<nat>)
    requires p.newStart + |p.was| <= |out|
    ensures JobPlaces(find, out, [p.AsJob()] + rest, cursor) == [p.newStart] + places <==>
            find(out, p.AsJob(), cursor) == Some(p.newStart) &&
            JobPlaces(find, Replace(out, p.newStart, |p.was|, p.becomes), rest, p.NewEnd()) == places
  {
    if find(out, p.AsJob(), cursor) == Some(p.newStart) {
      FirstFound(find, out, p, rest, cursor, places);
    } else {
      FirstMissed(find, out, p.AsJob(), rest, cursor, p.newStart, places);
    }
  }

  lemma FirstInPlace(find: Finder, out: seq<string>, patches: seq<Patch>, cursor: nat)
    requires patches != [] && MatchesAt(out, patches[0].was, patches[0].newStart)
    ensures var p := patches[0];
            var next := Replace(out, p.newStart, |p.was|, p.becomes);
            JobPlaces(find, out, PatchJobs(patches), cursor) == TruePlaces(patches) <==>
            find(out, p.AsJob(), cursor) == Some(p.newStart) &&
            JobPlaces(find, next, PatchJobs(patches[1..]), p.NewEnd()) == TruePlaces(patches[1..])
  {
    FirstOf(find, out, patches[0], PatchJobs(patches[1..]), cursor, TruePlaces(patches[1..]));
  }

  // Whatever the search: every patch lands at its true place exactly when it is
  // found there each time.
  lemma {:induction false} FoundIffInPlace(find: Finder, src: seq<string>, out: seq<string>, patches: seq<Patch>,
                                           pos: nat, cursor: nat)
    requires InOrder(src, patches, pos, cursor)
    requires cursor <= |out| && out[cursor..] == src[pos..]
    ensures JobPlaces(find, out, PatchJobs(patches), cursor) == TruePlaces(patches) <==>
            AllFound(find, out, patches, cursor)
    decreases |patches|
  {
    if patches != [] {
      var p := patches[0];
      StepInPlace(src, out, patches, pos, cursor);
      FirstInPlace(find, out, patches, cursor);
      FoundIffInPlace(find, src, Replace(out, p.newStart, |p.was|, p.becomes), patches[1..], p.End(), p.NewEnd());
    }
  }

  lemma {:induction false} AllFoundIff(src: seq<string>, out: seq<string>, patches: seq<Patch>, pos: nat, cursor: nat)
    requires InOrder(src, patches, pos, cursor)
    requires cursor <= |out| && out[cursor..] == src[pos..]
    ensures AllFound(Find, out, patches, cursor) <==> AllUnambiguous(out, patches, cursor)
    decreases |patches|
  {
    if patches != [] {
      var p := patches[0];
      StepInPlace(src, out, patches, pos, cursor);
      FoundIffUnambiguous(out, p.AsJob(), p.newStart, cursor);
      AllFoundIff(src, Replace(out, p.newStart, |p.was|, p.becomes), patches[1..], p.End(), p.NewEnd());
    }
  }

  // Every patch is applied at its true place exactly when every patch is
  // unambiguous.
  lemma InPlaceIff(src: seq<string>, patches: seq<Patch>)
    requires InOrder(src, patches, 0, 0)
    ensures Places(src, patches) == TruePlaces(patches) <==> AllUnambiguous(src, patches, 0)
  {
    FoundIffInPlace(Find, src, src, patches, 0, 0);
    AllFoundIff(src, src, patches, 0, 0);
  }

  lemma FirstThen(find: Finder, out: seq<string>, patches: seq<Patch>, cursor: nat, jobs: seq<Job>)
    requires patches != [] && MatchesAt(out, patches[0].was, patches[0].newStart)
    requires find(out, patches[0].AsJob(), cursor) == Some(patches[0].newStart)
    ensures var p := patches[0];
            ApplyJobs(find, out, PatchJobs(patches) + jobs, cursor) ==
            ApplyJobs(find, Replace(out, p.newStart, |p.was|, p.becomes), PatchJobs(patches[1..]) + jobs, p.NewEnd())
  {
    var p, rest := patches[0], PatchJobs(patches[1..]) + jobs;
    var all := [p.AsJob()] + rest;
    assert PatchJobs(patches) + jobs == all && all[1..] == rest;
    FoundAtTruePlace(find, out, all, cursor, p.newStart);
  }

  lemma TargetStep(src: seq<string>, out: seq<string>, patches: seq<Patch>, pos: nat, cursor: nat)
    requires patches != [] && InOrder(src, patches, pos, cursor)
    requires cursor <= |out| && out[cursor..] == src[pos..]
    ensures var p := patches[0];
            MatchesAt(out, p.was, p.newStart) &&
            var next := Replace(out, p.newStart, |p.was|, p.becomes);
            next[p.NewEnd()..] == src[p.End()..] &&
            next[..p.NewEnd()] + Target(src, patches[1..], p.End(), p.NewEnd()) ==
            out[..cursor] + Target(src, patches, pos, cursor)
  {
    var p := patches[0];
    StepInPlace(src, out, patches, pos, cursor);
    Assoc(out[..cursor], src[pos..p.oldStart] + p.becomes, Target(src, patches[1..], p.End(), p.NewEnd()));
  }

  // After patches found at their true places the rest goes on with their target.
  lemma {:induction false} FoundThen(find: Finder, src: seq<string>, out: seq<string>, patches: seq<Patch>,
                                     pos: nat, cursor: nat, jobs: seq<Job>)
    requires InOrder(src, patches, pos, cursor)
    requires cursor <= |out| && out[cursor..] == src[pos..]
    requires AllFound(find, out, patches, cursor)
    ensures ApplyJobs(find, out, PatchJobs(patches) + jobs, cursor) ==
            ApplyJobs(find, out[..cursor] + Target(src, patches, pos, cursor), jobs, EndOf(patches, cursor))
    decreases |patches|
  {
    if patches == [] {
      assert out == out[..cursor] + out[cursor..] && PatchJobs(patches) + jobs == jobs;
    } else {
      var p := patches[0];
      TargetStep(src, out, patches, pos, cursor);
      FirstThen(find, out, patches, cursor, jobs);
      FoundThen(find, src, Replace(out, p.newStart, |p.was|, p.becomes), patches[1..], p.End(), p.NewEnd(), jobs);
    }
  }

  // Where the cursor stands after the patches.
  function EndOf(patches: seq<Patch>, cursor: nat): nat {
    if patches == [] then cursor else patches[|patches| - 1].NewEnd()
  }

  // Applied at their true places, the patches give the intended text.
  lemma AppliedInPlace(src: seq<string>, patches: seq<Patch>)
    requires InOrder(src, patches, 0, 0) && AllUnambiguous(src, patches, 0)
    ensures ApplyPatches(src, patches) == Ok(Target(src, patches, 0, 0))
  {
    AllFoundIff(src, src, patches, 0, 0);
    FoundThen(Find, src, src, patches, 0, 0, []);
    assert PatchJobs(patches) + [] == PatchJobs(patches);
    assert src[..0] + Target(src, patches, 0, 0) == Target(src, patches, 0, 0);
  }

  // Every old block is nonempty and every patch but the last keeps the line count.
  ghost predicate Steady(patches: seq<Patch>) {
    (forall i | 0 <= i < |patches| :: patches[i].was != []) &&
    (forall i | 0 <= i < |patches| - 1 :: |patches[i].becomes| == |patches[i].was|)
  }

  lemma {:induction false} SteadyUnambiguous(src: seq<string>, out: seq<string>, patches: seq<Patch>, pos: nat)
    requires InOrder(src, patches, pos, pos) && Steady(patches)
    requires pos <= |out| && out[pos..] == src[pos..]
    ensures AllUnambiguous(out, patches, pos)
    decreases |patches|
  {
    if patches != [] {
      var p := patches[0];
      StepInPlace(src, out, patches, pos, pos);
      if |patches| > 1 {
        SteadyUnambiguous(src, Replace(out, p.newStart, |p.was|, p.becomes), patches[1..], p.End());
      }
    }
  }

  // ------------------------------------------------- the way back

  function SwapPatches(patches: seq<Patch>): (r: seq<Patch>)
    ensures |r| == |patches| && forall i | 0 <= i < |r| :: r[i] == patches[i].Swap()
  {
    if patches == [] then [] else [patches[0].Swap()] + SwapPatches(patches[1..])
  }

  // The swapped patches lie in the target as the patches lie in the source, and
  // their intended text is the source.
  lemma {:induction false} SwapInOrder(src: seq<string>, target: seq<string>, patches: seq<Patch>,
                                       pos: nat, cursor: nat)
    requires InOrder(src, patches, pos, cursor)
    requires cursor <= |target| && target[cursor..] == Target(src, patches, pos, cursor)
    ensures InOrder(target, SwapPatches(patches), cursor, pos)
    ensures Target(target, SwapPatches(patches), cursor, pos) == src[pos..]
    decreases |patches|
  {
    if patches != [] {
      var p, q := patches[0], patches[0].Swap();
      var gap, rest := src[pos..p.oldStart], Target(src, patches[1..], p.End(), p.NewEnd());
      CutApart(target, cursor, gap, p.becomes, rest);
      assert cursor + |gap| == p.newStart;
      SwapInOrder(src, target, patches[1..], p.End(), p.NewEnd());
      var swapped := SwapPatches(patches);
      assert swapped[0] == q && swapped[1..] == SwapPatches(patches[1..]);
      assert MatchesAt(target, q.was, q.oldStart) && q.End() == p.NewEnd() && q.NewEnd() == p.End();
      SourceParts(src, pos, p);
    }
  }

  lemma SourceParts(src: seq<string>, pos: nat, p: Patch)
    requires pos <= p.oldStart && MatchesAt(src, p.was, p.oldStart)
    ensures src[pos..] == src[pos..p.oldStart] + p.was + src[p.End()..]
  {
  }

  lemma CutApart(s: seq<string>, i: nat, a: seq<string>, b: seq<string>, c: seq<string>)
    requires i <= |s| && s[i..] == a + b + c
    ensures s[i..i + |a|] == a && s[i + |a|..i + |a| + |b|] == b && s[i + |a| + |b|..] == c
  {
    assert s[i + |a|..] == s[i..][|a|..] == b + c;
    assert s[i..i + |a|] == s[i..][..|a|];
    assert s[i + |a|..i + |a| + |b|] == s[i..][|a|..|a| + |b|];
    assert s[i + |a| + |b|..] == s[i..][|a| + |b|..];
  }

  lemma SwapSteady(patches: seq<Patch>)
    requires Steady(patches) && forall i | 0 <= i < |patches| :: patches[i].becomes != []
    ensures Steady(SwapPatches(patches))
  {
  }
}
