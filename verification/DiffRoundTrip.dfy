// A diff printed from known changes, applied: when it gives the intended text, and
// the way back.
module DiffRoundTrip {
  import opened Prelude
  import opened Text
  import opened UnifiedDiff
  import opened DiffLaws
  import opened PatchLaws

  function PatchOf(c: Change): Patch {
    Patch(c.oldStart, c.newStart, OldSide(c.edits), NewSide(c.edits))
  }

  function Patches(changes: seq<Change>): (r: seq<Patch>)
    ensures |r| == |changes| && forall i | 0 <= i < |r| :: r[i] == PatchOf(changes[i])
  {
    if changes == [] then [] else [PatchOf(changes[0])] + Patches(changes[1..])
  }

  lemma {:induction false} SameJobs(changes: seq<Change>)
    ensures JobsOf(HunksOf(changes)) == PatchJobs(Patches(changes))
  {
    if changes != [] {
      assert JobOf(HunkWith(changes[0], changes[0].edits)) == PatchOf(changes[0]).AsJob();
      SameJobs(changes[1..]);
      assert HunksOf(changes)[1..] == HunksOf(changes[1..]);
      assert Patches(changes)[1..] == Patches(changes[1..]);
    }
  }

  // ------------------------------------------------- the printed diff applies

  // A printed diff does to a text what its patches do to the lines.
  lemma PrintedAsPatches(src: seq<string>, changes: seq<Change>)
    requires changes != [] && Printable(changes) && NoHeaderLike(changes)
    requires src != [] && forall l | l in src :: '\n' !in l
    ensures Apply(Join(src), PrintDiff(changes)) ==
            match ApplyPatches(src, Patches(changes))
            case Ok(lines) => Ok(Join(lines))
            case Err(e) => Err(e)
  {
    ParsePrinted(changes);
    SeenIffNoHeaderLike(changes);
    SplitJoin(src);
    SameJobs(changes);
  }

  // The text a printed diff turns src into, whenever its hunks are unambiguous.
  lemma PrintedApplies(src: seq<string>, changes: seq<Change>)
    requires changes != [] && Printable(changes) && NoHeaderLike(changes)
    requires src != [] && forall l | l in src :: '\n' !in l
    requires InOrder(src, Patches(changes), 0, 0) && AllUnambiguous(src, Patches(changes), 0)
    ensures Apply(Join(src), PrintDiff(changes)) == Ok(Join(Target(src, Patches(changes), 0, 0)))
  {
    PrintedAsPatches(src, changes);
    AppliedInPlace(src, Patches(changes));
  }

  // The changes whose printed diff is the given one with '+' and '-' swapped.
  function SwapAll(changes: seq<Change>): seq<Change> {
    seq(|changes|, i requires 0 <= i < |changes| =>
      Change(changes[i].newStart, changes[i].oldStart, SwapEdits(changes[i].edits)))
  }

  lemma SwapAllPatches(changes: seq<Change>)
    ensures Patches(SwapAll(changes)) == SwapPatches(Patches(changes))
  {
    forall i | 0 <= i < |changes| ensures Patches(SwapAll(changes))[i] == SwapPatches(Patches(changes))[i] {
      SwapSides(changes[i].edits);
    }
  }

  lemma {:induction false} NewSidePlain(edits: seq<Edit>)
    requires forall e | e in edits :: '\n' !in e.text
    ensures forall l | l in NewSide(edits) :: '\n' !in l
  {
    if edits != [] {
      NewSidePlain(edits[..|edits| - 1]);
      assert edits[|edits| - 1] in edits;
    }
  }

  // A line property of the source and of every new block holds of the target.
  lemma {:induction false} TargetLines(src: seq<string>, patches: seq<Patch>, pos: nat, cursor: nat, ok: string -> bool)
    requires InOrder(src, patches, pos, cursor)
    requires forall l | l in src :: ok(l)
    requires forall i | 0 <= i < |patches| :: forall l | l in patches[i].becomes :: ok(l)
    ensures forall l | l in Target(src, patches, pos, cursor) :: ok(l)
    decreases |patches|
  {
    if patches != [] {
      var p := patches[0];
      TargetLines(src, patches[1..], p.End(), p.NewEnd(), ok);
    }
  }

  lemma TargetPlain(src: seq<string>, changes: seq<Change>)
    requires Printable(changes) && forall l | l in src :: '\n' !in l
    requires InOrder(src, Patches(changes), 0, 0)
    ensures forall l | l in Target(src, Patches(changes), 0, 0) :: '\n' !in l
  {
    forall i | 0 <= i < |changes| ensures forall l | l in Patches(changes)[i].becomes :: '\n' !in l {
      assert changes[i] in changes;
      NewSidePlain(changes[i].edits);
    }
    TargetLines(src, Patches(changes), 0, 0, l => '\n' !in l);
  }

  lemma SteadyApplies(src: seq<string>, changes: seq<Change>)
    requires changes != [] && Printable(changes) && NoHeaderLike(changes)
    requires src != [] && forall l | l in src :: '\n' !in l
    requires InOrder(src, Patches(changes), 0, 0) && Steady(Patches(changes))
    ensures Apply(Join(src), PrintDiff(changes)) == Ok(Join(Target(src, Patches(changes), 0, 0)))
  {
    SteadyUnambiguous(src, src, Patches(changes), 0);
    PrintedApplies(src, changes);
  }

  // What the way back needs.
  lemma SwapReady(src: seq<string>, changes: seq<Change>)
    requires changes != [] && Printable(changes)
    requires src != [] && forall l | l in src :: '\n' !in l
    requires InOrder(src, Patches(changes), 0, 0) && Steady(Patches(changes))
    requires forall i | 0 <= i < |changes| :: NewSide(changes[i].edits) != []
    ensures var target, back := Target(src, Patches(changes), 0, 0), Patches(SwapAll(changes));
            && target != [] && (forall l | l in target :: '\n' !in l)
            && InOrder(target, back, 0, 0) && Steady(back) && Target(target, back, 0, 0) == src
  {
    var patches := Patches(changes);
    SwapAllPatches(changes);
    SwapInOrder(src, Target(src, patches, 0, 0), patches, 0, 0);
    SwapSteady(patches);
    TargetPlain(src, changes);
    assert patches[0].becomes != [];
  }

  // A printed diff applies to exactly the intended target, and the same diff
  // with '+' and '-' swapped gives the source back.
  lemma RoundTrip(src: seq<string>, changes: seq<Change>)
    requires changes != [] && Printable(changes) && Printable(SwapAll(changes))
    requires NoHeaderLike(changes) && NoHeaderLike(SwapAll(changes))
    requires src != [] && forall l | l in src :: '\n' !in l
    requires InOrder(src, Patches(changes), 0, 0) && Steady(Patches(changes))
    requires forall i | 0 <= i < |changes| :: NewSide(changes[i].edits) != []
    ensures var target := Join(Target(src, Patches(changes), 0, 0));
            Apply(Join(src), PrintDiff(changes)) == Ok(target) &&
            Apply(target, PrintDiff(SwapAll(changes))) == Ok(Join(src))
  {
    SteadyApplies(src, changes);
    SwapReady(src, changes);
    SteadyApplies(Target(src, Patches(changes), 0, 0), SwapAll(changes));
  }
}
