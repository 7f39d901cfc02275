// gate/post.go: what a passed safety floor and a passed label check mean.
module SafetyLaws {
  import opened Prelude
  import opened Text
  import opened Quantity
  import opened SafetyFloor

  // ------------------------------------------------- flat keys are positions

  predicate Plain(key: string) { '.' !in key && '[' !in key }

  // No key on the way to a resource name contains '.' or '['; the resource names
  // themselves may.
  ghost predicate PlainPos(p: Pos) {
    Plain(p.kind) &&
    forall i | 0 <= i < |p.path| :: p.path[i].Key? ==> Plain(p.path[i].key) && p.path[i].key != "resources"
  }

  predicate Marked(s: string) { s != "" && (s[0] == '.' || s[0] == '[') }

  // A plain text followed by a mark ends at the first mark.
  lemma CutAtMark(a: string, b: string, r: string, t: string)
    requires Plain(a) && Plain(b) && Marked(r) && Marked(t) && a + r == b + t
    ensures a == b && r == t
  {
    var s := a + r;
    assert s[|a|] == r[0] && s[|b|] == (b + t)[|b|] == t[0];
    assert forall i | 0 <= i < |a| :: s[i] == a[i] && s[i] in a;
    assert forall i | 0 <= i < |b| :: s[i] == (b + t)[i] == b[i] && s[i] in b;
    assert |a| == |b|;
    assert a == s[..|a|] == b && r == s[|a|..] == t;
  }

  lemma SameAfter(c: string, r: string, t: string)
    requires c + r == c + t
    ensures r == t
  {
    assert (c + r)[|c|..] == r && (c + t)[|c|..] == t;
  }

  lemma TailInjective(kind: string, name: string, kind': string, name': string)
    requires Plain(kind) && Plain(kind') && TailText(kind, name) == TailText(kind', name')
    ensures kind == kind' && name == name'
  {
    SameAfter(".resources", ['.'] + kind + (['.'] + name), ['.'] + kind' + (['.'] + name'));
    Assoc(['.'], kind, ['.'] + name);
    Assoc(['.'], kind', ['.'] + name');
    SameAfter(['.'], kind + (['.'] + name), kind' + (['.'] + name'));
    CutAtMark(kind, kind', ['.'] + name, ['.'] + name');
    SameAfter(['.'], name, name');
  }

  // The text of a segment is a mark and a plain body.
  function Body(seg: Seg): string { match seg case Key(k) => k case Index(i) => Decimal(i) + "]" }

  function MarkOf(seg: Seg): char { if seg.Key? then '.' else '[' }

  lemma SegParts(seg: Seg)
    ensures SegText(seg) == [MarkOf(seg)] + Body(seg)
    ensures seg.Index? ==> Plain(Body(seg))
  {
  }

  lemma RestMarked(p: Pos)
    ensures Marked(PosText(p))
  {
    assert TailText(p.kind, p.name)[0] == '.';
    if p.path != [] {
      SegParts(p.path[0]);
      assert PosText(p)[0] == SegText(p.path[0])[0];
    } else {
      assert PosText(p)[0] == TailText(p.kind, p.name)[0];
    }
  }

  lemma StepText(p: Pos)
    requires p.path != []
    ensures PosText(p) == [MarkOf(p.path[0])] + (Body(p.path[0]) + PosText(Pos(p.path[1..], p.kind, p.name)))
  {
    SegParts(p.path[0]);
    var rest := Pos(p.path[1..], p.kind, p.name);
    Assoc(SegText(p.path[0]), PathText(p.path[1..]), TailText(p.kind, p.name));
    Assoc([MarkOf(p.path[0])], Body(p.path[0]), PosText(rest));
  }

  lemma TailStep(kind: string, name: string)
    ensures TailText(kind, name) == ['.'] + ("resources" + (['.'] + kind + (['.'] + name)))
  {
    assert ".resources" == ['.'] + "resources";
    Assoc(['.'], "resources", ['.'] + kind + (['.'] + name));
  }

  lemma NotResources(p: Pos, kind: string, name: string)
    requires PlainPos(p) && p.path != []
    ensures PosText(p) != TailText(kind, name)
  {
    StepText(p);
    TailStep(kind, name);
    var rest := PosText(Pos(p.path[1..], p.kind, p.name));
    var tail := ['.'] + kind + (['.'] + name);
    RestMarked(Pos(p.path[1..], p.kind, p.name));
    if PosText(p) == TailText(kind, name) {
      assert PosText(p)[0] == MarkOf(p.path[0]) && TailText(kind, name)[0] == '.';
      SameAfter(['.'], Body(p.path[0]) + rest, "resources" + tail);
      assert tail[0] == '.';
      CutAtMark(Body(p.path[0]), "resources", rest, tail);
    }
  }

  lemma SameSegment(a: Seg, b: Seg)
    requires MarkOf(a) == MarkOf(b) && Body(a) == Body(b)
    ensures a == b
  {
    if a.Index? {
      assert Body(a)[..|Body(a)| - 1] == Decimal(a.index) && Body(b)[..|Body(b)| - 1] == Decimal(b.index);
      assert NatValue(Decimal(a.index)) == a.index && NatValue(Decimal(b.index)) == b.index;
    }
  }

  lemma EndInjective(p: Pos, q: Pos)
    requires PlainPos(p) && PlainPos(q) && PosText(p) == PosText(q) && (p.path == [] || q.path == [])
    ensures p == q
  {
    assert p.path == [] ==> PosText(p) == TailText(p.kind, p.name);
    assert q.path == [] ==> PosText(q) == TailText(q.kind, q.name);
    if p.path != [] {
      NotResources(p, q.kind, q.name);
    } else if q.path != [] {
      NotResources(q, p.kind, p.name);
    } else {
      TailInjective(p.kind, p.name, q.kind, q.name);
    }
  }

  function Inner(p: Pos): Pos
    requires p.path != []
  {
    Pos(p.path[1..], p.kind, p.name)
  }

  lemma InnerPlain(p: Pos)
    requires PlainPos(p) && p.path != []
    ensures PlainPos(Inner(p)) && Plain(Body(p.path[0]))
  {
    SegParts(p.path[0]);
    assert forall i | 0 <= i < |p.path| - 1 :: Inner(p).path[i] == p.path[i + 1];
  }

  lemma StepInjective(p: Pos, q: Pos)
    requires PlainPos(p) && PlainPos(q) && PosText(p) == PosText(q) && p.path != [] && q.path != []
    ensures p.path[0] == q.path[0] && PosText(Inner(p)) == PosText(Inner(q))
  {
    var a, b, p', q' := p.path[0], q.path[0], PosText(Inner(p)), PosText(Inner(q));
    StepText(p);
    StepText(q);
    assert PosText(p)[0] == MarkOf(a) && PosText(q)[0] == MarkOf(b);
    SameAfter([MarkOf(a)], Body(a) + p', Body(b) + q');
    RestMarked(Inner(p));
    RestMarked(Inner(q));
    InnerPlain(p);
    InnerPlain(q);
    CutAtMark(Body(a), Body(b), p', q');
    SameSegment(a, b);
  }

  // Distinct plain positions have distinct flat keys.
  lemma {:induction false} PosTextInjective(p: Pos, q: Pos)
    requires PlainPos(p) && PlainPos(q) && PosText(p) == PosText(q)
    ensures p == q
    decreases |p.path|
  {
    if p.path == [] || q.path == [] {
      EndInjective(p, q);
    } else {
      StepInjective(p, q);
      InnerPlain(p);
      InnerPlain(q);
      PosTextInjective(Inner(p), Inner(q));
      assert p.path == [p.path[0]] + Inner(p).path && q.path == [q.path[0]] + Inner(q).path;
    }
  }

  // ------------------------------------------------- the resource floor

  // A cut from b to a deeper than the cap allows.
  predicate TooDeep(b: real, a: real, cap: real) { b > 0.0 && a < b * (1.0 - cap) }

  ghost predicate Floor(before: map<string, real>, after: map<string, real>, cap: real) {
    forall s | s in before :: s in after && !TooDeep(before[s], after[s], cap)
  }

  // The flattened quantities of two trees, as some walk may collect them.
  ghost predicate Flattened(before: Yaml, after: Yaml, b: map<string, real>, a: map<string, real>) {
    Collected(before, "", map[], b) && Collected(after, "", map[], a)
  }

  ghost predicate FloorKept(before: Yaml, after: Yaml, cap: real) {
    exists b, a :: Flattened(before, after, b, a) && Floor(b, a, cap)
  }

  // The quantity under s is gone or cut too deep.
  ghost predicate BrokenAt(before: Yaml, after: Yaml, cap: real, s: string) {
    exists b, a :: Flattened(before, after, b, a) && s in b && (s in a ==> TooDeep(b[s], a[s], cap))
  }

  method CheckResourceBounds(before: Yaml, after: Yaml, cap: real) returns (bad: Option<string>)
    requires Indexable(before) && Indexable(after)
    ensures bad.None? ==> FloorKept(before, after, cap)
    ensures bad.Some? ==> BrokenAt(before, after, cap, bad.value)
  {
    var beforeRes := CollectResources(before);
    var afterRes := CollectResources(after);
    assert Flattened(before, after, beforeRes, afterRes);
    var paths := beforeRes.Keys;
    while paths != {}
      invariant paths <= beforeRes.Keys
      invariant forall s | s in beforeRes.Keys - paths ::
                  s in afterRes && !TooDeep(beforeRes[s], afterRes[s], cap)
    {
      var path :| path in paths;
      paths := paths - {path};
      if path !in afterRes {
        return Some(path);
      }
      if TooDeep(beforeRes[path], afterRes[path], cap) {
        return Some(path);
      }
    }
    assert Floor(beforeRes, afterRes, cap);
    bad := None;
  }

  // Every position with a quantity keeps at least the allowed share of it.
  ghost predicate Kept(before: Yaml, after: Yaml, cap: real) {
    forall p: Pos :: At(before, p) > 0.0 ==> At(after, p) > 0.0 && !TooDeep(At(before, p), At(after, p), cap)
  }

  ghost predicate Live(node: Yaml, p: Pos) { At(node, p) > 0.0 }

  // No position with a quantity shares its flat key with another one, in its own
  // tree or in the other. Keys under which no quantity stands do not matter.
  ghost predicate Apart(before: Yaml, after: Yaml) {
    forall p, q | Live(before, p) && (Live(before, q) || Live(after, q)) && PosText(p) == PosText(q) :: p == q
  }

  ghost predicate PlainLive(node: Yaml) { forall p | Live(node, p) :: PlainPos(p) }

  // Plain keys on the way to every quantity are enough.
  lemma PlainApart(before: Yaml, after: Yaml)
    requires PlainLive(before) && PlainLive(after)
    ensures Apart(before, after)
  {
    forall p, q | Live(before, p) && (Live(before, q) || Live(after, q)) && PosText(p) == PosText(q) ensures p == q {
      PosTextInjective(p, q);
    }
  }

  lemma NoPrefix(s: string)
    ensures "" + s == s
  {
  }

  // A flat entry comes from some position.
  lemma EntryFrom(node: Yaml, m: map<string, real>, s: string) returns (p: Pos)
    requires Collected(node, "", map[], m) && s in m
    ensures s == PosText(p) && At(node, p) == m[s] > 0.0
  {
    assert Stems(node, "", s, m[s]);
    p :| s == "" + PosText(p) && At(node, p) == m[s] > 0.0;
    NoPrefix(PosText(p));
  }

  lemma LiveListed(node: Yaml, m: map<string, real>, p: Pos)
    requires Collected(node, "", map[], m) && Live(node, p)
    ensures PosText(p) in m
  {
    NoPrefix(PosText(p));
    assert "" + PosText(p) in m;
  }

  // Where a position has its flat key for itself the walk order does not matter: the
  // flat map holds exactly its quantity.
  lemma ExactWhereAlone(node: Yaml, m: map<string, real>, p: Pos)
    requires Collected(node, "", map[], m)
    requires forall q | Live(node, q) && PosText(q) == PosText(p) :: q == p
    ensures PosText(p) in m <==> Live(node, p)
    ensures PosText(p) in m ==> m[PosText(p)] == At(node, p)
  {
    if PosText(p) in m {
      var q := EntryFrom(node, m, PosText(p));
      assert Live(node, q);
    }
    if Live(node, p) {
      LiveListed(node, m, p);
    }
  }

  lemma FloorKeeps(before: Yaml, after: Yaml, b: map<string, real>, a: map<string, real>, cap: real, p: Pos)
    requires Apart(before, after) && Flattened(before, after, b, a) && Floor(b, a, cap)
    requires Live(before, p)
    ensures Live(after, p) && !TooDeep(At(before, p), At(after, p), cap)
  {
    ExactWhereAlone(before, b, p);
    var q := EntryFrom(after, a, PosText(p));
    assert Live(after, q);
  }

  lemma KeptFloors(before: Yaml, after: Yaml, b: map<string, real>, a: map<string, real>, cap: real, s: string)
    requires Apart(before, after) && Flattened(before, after, b, a) && Kept(before, after, cap)
    requires s in b
    ensures s in a && !TooDeep(b[s], a[s], cap)
  {
    var p := EntryFrom(before, b, s);
    assert Live(before, p) && Live(after, p);
    LiveListed(after, a, p);
    var q := EntryFrom(after, a, s);
    assert Live(after, q);
  }

  // The check passes exactly when every position keeps its share.
  lemma FloorIffKept(before: Yaml, after: Yaml, b: map<string, real>, a: map<string, real>, cap: real)
    requires Apart(before, after) && Flattened(before, after, b, a)
    ensures Floor(b, a, cap) <==> Kept(before, after, cap)
  {
    if Floor(b, a, cap) {
      forall p: Pos | At(before, p) > 0.0
        ensures At(after, p) > 0.0 && !TooDeep(At(before, p), At(after, p), cap)
      {
        assert Live(before, p);
        FloorKeeps(before, after, b, a, cap, p);
      }
    }
    if Kept(before, after, cap) {
      forall s | s in b ensures s in a && !TooDeep(b[s], a[s], cap) {
        KeptFloors(before, after, b, a, cap, s);
      }
    }
  }

  // The floor then decides positions, and nothing is left to the order.
  lemma PassedIsKept(before: Yaml, after: Yaml, cap: real)
    requires Apart(before, after) && FloorKept(before, after, cap)
    ensures Kept(before, after, cap)
  {
    var b, a :| Flattened(before, after, b, a) && Floor(b, a, cap);
    FloorIffKept(before, after, b, a, cap);
  }

  lemma RefusedIsBroken(before: Yaml, after: Yaml, cap: real, s: string)
    requires Apart(before, after) && BrokenAt(before, after, cap, s)
    ensures !Kept(before, after, cap)
  {
    var b, a :| Flattened(before, after, b, a) && s in b && (s in a ==> TooDeep(b[s], a[s], cap));
    if Kept(before, after, cap) {
      KeptFloors(before, after, b, a, cap, s);
    }
  }

  // ------------------------------------------------- shared flat keys

  // Some positions q before and r after share the flat key of p and respect the cap.
  ghost predicate Covered(before: Yaml, after: Yaml, cap: real, p: Pos, q: Pos, r: Pos) {
    && Live(before, q) && Live(after, r) && PosText(q) == PosText(p) && PosText(r) == PosText(p)
    && !TooDeep(At(before, q), At(after, r), cap)
  }

  ghost predicate CanPass(before: Yaml, after: Yaml, cap: real) {
    forall p {:trigger HasCover(before, after, cap, p)} | Live(before, p) :: HasCover(before, after, cap, p)
  }

  ghost predicate HasCover(before: Yaml, after: Yaml, cap: real, p: Pos) {
    exists q, r :: Covered(before, after, cap, p, q, r)
  }

  ghost function Cover(before: Yaml, after: Yaml, cap: real, p: Pos): (qr: (Pos, Pos))
    requires HasCover(before, after, cap, p)
    ensures Covered(before, after, cap, p, qr.0, qr.1)
  {
    var q, r :| Covered(before, after, cap, p, q, r);
    (q, r)
  }

  ghost function PosOf(node: Yaml, m: map<string, real>, s: string): (p: Pos)
    requires Collected(node, "", map[], m) && s in m
    ensures s == PosText(p) && Live(node, p)
  {
    assert Stems(node, "", s, m[s]);
    var q: Pos :| s == "" + PosText(q) && At(node, q) == m[s] > 0.0;
    NoPrefix(PosText(q));
    q
  }

  ghost predicate Offered(node: Yaml, s: string, q: real) {
    exists p: Pos :: PosText(p) == s && At(node, p) == q > 0.0
  }

  // Choosing other positions for some keys is another outcome of the walk.
  lemma Rechosen(node: Yaml, m: map<string, real>, m': map<string, real>)
    requires Collected(node, "", map[], m) && m'.Keys == m.Keys
    requires forall s | s in m' :: m'[s] == m[s] || Offered(node, s, m'[s])
    ensures Collected(node, "", map[], m')
  {
    forall s | s in m' ensures Stems(node, "", s, m'[s]) {
      if m'[s] == m[s] {
        assert Stems(node, "", s, m[s]);
      } else {
        var p: Pos :| PosText(p) == s && At(node, p) == m'[s] > 0.0;
        NoPrefix(s);
        assert s == "" + PosText(p);
      }
    }
  }

  // In general a walk can pass the floor exactly when for the flat key of every
  // quantity some position before and some position after respect the cap: what the
  // check keeps is a share for every flat key, not for every position.
  lemma PassMeans(before: Yaml, after: Yaml, cap: real, b: map<string, real>, a: map<string, real>)
    requires Flattened(before, after, b, a)
    ensures FloorKept(before, after, cap) <==> CanPass(before, after, cap)
  {
    if FloorKept(before, after, cap) {
      var b', a' :| Flattened(before, after, b', a') && Floor(b', a', cap);
      forall p | Live(before, p) ensures HasCover(before, after, cap, p) {
        LiveListed(before, b', p);
        var q := EntryFrom(before, b', PosText(p));
        var r := EntryFrom(after, a', PosText(p));
        assert Covered(before, after, cap, p, q, r);
      }
    }
    if CanPass(before, after, cap) {
      PassChosen(before, after, cap, b, a);
    }
  }

  // The positions chosen for a flat key.
  ghost function Chosen(before: Yaml, after: Yaml, cap: real, b: map<string, real>, s: string): (qr: (Pos, Pos))
    requires Collected(before, "", map[], b) && s in b && CanPass(before, after, cap)
    ensures Live(before, qr.0) && PosText(qr.0) == s && Live(after, qr.1) && PosText(qr.1) == s
    ensures !TooDeep(At(before, qr.0), At(after, qr.1), cap)
  {
    var p := PosOf(before, b, s);
    assert HasCover(before, after, cap, p);
    Cover(before, after, cap, p)
  }

  lemma RechosenBefore(before: Yaml, after: Yaml, cap: real, b: map<string, real>) returns (m: map<string, real>)
    requires Collected(before, "", map[], b) && CanPass(before, after, cap)
    ensures Collected(before, "", map[], m) && m.Keys == b.Keys
    ensures forall s | s in b :: m[s] == At(before, Chosen(before, after, cap, b, s).0)
  {
    m := map s | s in b :: At(before, Chosen(before, after, cap, b, s).0);
    forall s | s in m ensures Offered(before, s, m[s]) {
      var p := Chosen(before, after, cap, b, s).0;
      assert PosText(p) == s && At(before, p) == m[s];
    }
    Rechosen(before, b, m);
  }

  lemma ChosenListed(before: Yaml, after: Yaml, cap: real, b: map<string, real>, a: map<string, real>, s: string)
    requires Collected(before, "", map[], b) && Collected(after, "", map[], a) && CanPass(before, after, cap)
    requires s in b
    ensures s in a && Offered(after, s, At(after, Chosen(before, after, cap, b, s).1))
  {
    var p := Chosen(before, after, cap, b, s).1;
    LiveListed(after, a, p);
    assert PosText(p) == s && At(after, p) > 0.0;
  }

  lemma RechosenAfter(before: Yaml, after: Yaml, cap: real, b: map<string, real>, a: map<string, real>)
      returns (m: map<string, real>)
    requires Collected(before, "", map[], b) && Collected(after, "", map[], a) && CanPass(before, after, cap)
    ensures Collected(after, "", map[], m) && b.Keys <= m.Keys
    ensures forall s | s in b :: m[s] == At(after, Chosen(before, after, cap, b, s).1)
  {
    m := map s | s in a :: if s in b then At(after, Chosen(before, after, cap, b, s).1) else a[s];
    forall s | s in b ensures s in a && Offered(after, s, At(after, Chosen(before, after, cap, b, s).1)) {
      ChosenListed(before, after, cap, b, a, s);
    }
    Rechosen(after, a, m);
  }

  lemma PassChosen(before: Yaml, after: Yaml, cap: real, b: map<string, real>, a: map<string, real>)
    requires Flattened(before, after, b, a) && CanPass(before, after, cap)
    ensures FloorKept(before, after, cap)
  {
    var b' := RechosenBefore(before, after, cap, b);
    var a' := RechosenAfter(before, after, cap, b, a);
    assert Flattened(before, after, b', a') && Floor(b', a', cap);
  }

  // The tree without the quantity at a position.
  function Without(node: Yaml, path: seq<Seg>, kind: string, name: string): Yaml
    requires QuantityAt(node, path, kind, name) > 0.0
    decreases |path|
  {
    if path == [] then
      var res := node.m["resources"].m;
      Map(node.m["resources" := Map(res[kind := Map(res[kind].m - {name})])])
    else
      match path[0]
      case Key(k) => Map(node.m[k := Without(node.m[k], path[1..], kind, name)])
      case Index(i) => Seq(node.items[i := Without(node.items[i], path[1..], kind, name)])
  }

  lemma {:induction false} WithoutAt(node: Yaml, path: seq<Seg>, kind: string, name: string, r: Pos)
    requires QuantityAt(node, path, kind, name) > 0.0
    ensures At(Without(node, path, kind, name), r) == if r == Pos(path, kind, name) then 0.0 else At(node, r)
    decreases |path|
  {
    if path != [] && r.path != [] && r.path[0] == path[0] {
      var child := ChildAt(node, path[0]).value;
      WithoutAt(child, path[1..], kind, name, Pos(r.path[1..], r.kind, r.name));
      assert r.path == [path[0]] + r.path[1..] && path == [path[0]] + path[1..];
    }
  }

  lemma Unchanged(x: real, cap: real)
    requires x > 0.0 && cap >= 0.0
    ensures !TooDeep(x, x, cap)
  {
    assert x * cap >= 0.0;
    assert x * (1.0 - cap) == x - x * cap;
  }

  // Whenever two quantities of a tree share a flat key, removing one of them can go
  // unnoticed.
  lemma SharedKeyHidesRemoval(before: Yaml, p: Pos, q: Pos, cap: real, a: map<string, real>)
    requires Live(before, p) && Live(before, q) && p != q && PosText(p) == PosText(q) && cap >= 0.0
    requires Collected(Without(before, p.path, p.kind, p.name), "", map[], a)
    ensures var after := Without(before, p.path, p.kind, p.name);
            FloorKept(before, after, cap) && !Kept(before, after, cap)
  {
    var after := Without(before, p.path, p.kind, p.name);
    forall r: Pos ensures At(after, r) == if r == p then 0.0 else At(before, r) {
      WithoutAt(before, p.path, p.kind, p.name, r);
    }
    forall s | s in a ensures Stems(before, "", s, a[s]) {
      assert Stems(after, "", s, a[s]);
      var r: Pos :| s == "" + PosText(r) && At(after, r) == a[s] > 0.0;
      assert At(before, r) == a[s];
    }
    forall r: Pos | At(before, r) > 0.0 ensures "" + PosText(r) in a {
      assert At(after, if r == p then q else r) > 0.0;
    }
    assert Collected(before, "", map[], a);
    forall s | s in a ensures !TooDeep(a[s], a[s], cap) {
      assert Stems(after, "", s, a[s]);
      Unchanged(a[s], cap);
    }
    assert Flattened(before, after, a, a) && Floor(a, a, cap);
    assert At(before, p) > 0.0 && At(after, p) == 0.0;
  }

  // ------------------------------------------------- labels

  // The node reached by a path; label walks enter every child, resources too.
  function NodeAt(node: Yaml, path: seq<Seg>): Option<Yaml>
    decreases |path|
  {
    if path == [] then Some(node)
    else
      match ChildAt(node, path[0])
      case None => None
      case Some(child) => NodeAt(child, path[1..])
  }

  predicate OwnLabel(node: Yaml, k: string) {
    node.Map? && "labels" in node.m && node.m["labels"].Map? && k in node.m["labels"].m
  }

  // k is a key of some labels block of the tree.
  ghost predicate HasLabel(node: Yaml, k: string) {
    exists path :: NodeAt(node, path).Some? && OwnLabel(NodeAt(node, path).value, k)
  }

  class LabelSink {
    var keys: seq<string>
    constructor () ensures keys == [] { keys := []; }
  }

  lemma LabelBelow(node: Yaml, seg: Seg, k: string)
    requires ChildAt(node, seg).Some? && HasLabel(ChildAt(node, seg).value, k)
    ensures HasLabel(node, k)
  {
    var child := ChildAt(node, seg).value;
    var path :| NodeAt(child, path).Some? && OwnLabel(NodeAt(child, path).value, k);
    assert ([seg] + path)[1..] == path;
    assert NodeAt(node, [seg] + path) == NodeAt(child, path);
  }

  lemma LabelCases(node: Yaml, k: string)
    requires HasLabel(node, k)
    ensures OwnLabel(node, k) ||
            exists seg :: ChildAt(node, seg).Some? && HasLabel(ChildAt(node, seg).value, k)
  {
    var path :| NodeAt(node, path).Some? && OwnLabel(NodeAt(node, path).value, k);
    if path != [] {
      var child := ChildAt(node, path[0]).value;
      assert NodeAt(child, path[1..]).Some? && OwnLabel(NodeAt(child, path[1..]).value, k);
      assert HasLabel(child, k);
    }
  }

  lemma OwnLabelHas(node: Yaml, k: string)
    requires OwnLabel(node, k)
    ensures HasLabel(node, k)
  {
    assert NodeAt(node, []) == Some(node);
  }

  method WalkLabels(node: Yaml, out: LabelSink)
    modifies out
    ensures forall k :: k in out.keys <==> k in old(out.keys) || HasLabel(node, k)
    decreases node
  {
    ghost var before := out.keys;
    match node
    case Map(n) =>
      if "labels" in n && n["labels"].Map? {
        var labels := n["labels"].m.Keys;
        while labels != {}
          invariant labels <= n["labels"].m.Keys
          invariant forall k :: k in out.keys <==> k in before || k in n["labels"].m.Keys - labels
        {
          var k :| k in labels;
          labels := labels - {k};
          out.keys := out.keys + [k];
        }
      }
      assert forall k :: k in out.keys <==> k in before || OwnLabel(node, k);
      var keys := n.Keys;
      while keys != {}
        invariant keys <= n.Keys
        invariant forall k :: k in out.keys <==>
                    k in before || OwnLabel(node, k) || exists j | j in n.Keys - keys :: HasLabel(n[j], k)
      {
        var j :| j in keys;
        keys := keys - {j};
        WalkLabels(n[j], out);
      }
      forall k ensures k in out.keys <==> k in before || HasLabel(node, k) {
        MapLabels(node, k);
      }
    case Seq(items) =>
      for i := 0 to |items|
        invariant forall k :: k in out.keys <==> k in before || exists j | 0 <= j < i :: HasLabel(items[j], k)
      {
        WalkLabels(items[i], out);
      }
      forall k ensures k in out.keys <==> k in before || HasLabel(node, k) {
        SeqLabels(node, k);
      }
    case _ =>
      forall k ensures !HasLabel(node, k) {
        if HasLabel(node, k) {
          LabelCases(node, k);
        }
      }
  }

  lemma MapLabels(node: Yaml, k: string)
    requires node.Map?
    ensures HasLabel(node, k) <==> OwnLabel(node, k) || exists j | j in node.m :: HasLabel(node.m[j], k)
  {
    if HasLabel(node, k) {
      LabelCases(node, k);
    }
    if OwnLabel(node, k) {
      OwnLabelHas(node, k);
    }
    if j :| j in node.m && HasLabel(node.m[j], k) {
      LabelBelow(node, Key(j), k);
    }
  }

  lemma SeqLabels(node: Yaml, k: string)
    requires node.Seq?
    ensures HasLabel(node, k) <==> exists j | 0 <= j < |node.items| :: HasLabel(node.items[j], k)
  {
    if HasLabel(node, k) {
      LabelCases(node, k);
    }
    if j :| 0 <= j < |node.items| && HasLabel(node.items[j], k) {
      LabelBelow(node, Index(j), k);
    }
  }

  // Passes exactly when every label key of the old tree is one of the new tree.
  method CheckLabelsPreserved(before: Yaml, after: Yaml) returns (missing: Option<string>)
    ensures missing.None? <==> forall k :: HasLabel(before, k) ==> HasLabel(after, k)
    ensures missing.Some? ==> HasLabel(before, missing.value) && !HasLabel(after, missing.value)
  {
    var beforeLabels := new LabelSink();
    WalkLabels(before, beforeLabels);
    var afterLabels := new LabelSink();
    WalkLabels(after, afterLabels);
    var seen: set<string> := {};
    for i := 0 to |afterLabels.keys|
      invariant forall k :: k in seen <==> k in afterLabels.keys[..i]
    {
      seen := seen + {afterLabels.keys[i]};
    }
    assert afterLabels.keys[..|afterLabels.keys|] == afterLabels.keys;
    for i := 0 to |beforeLabels.keys|
      invariant forall j | 0 <= j < i :: beforeLabels.keys[j] in seen
    {
      if beforeLabels.keys[i] !in seen {
        return Some(beforeLabels.keys[i]);
      }
    }
    missing := None;
  }

  // ------------------------------------------------- keys with dots

  const LIMITED: Yaml := Map(map["resources" := Map(map["limits" := Map(map["cpu" := Int(1)])])])
  const NESTED: Yaml := Map(map["b" := LIMITED])
  const DOTTED: Yaml := Map(map["a.b" := LIMITED])
  const BOTH: Yaml := Map(map["a.b" := LIMITED, "a" := NESTED])
  const DOTTED_CPU: Pos := Pos([Key("a.b")], "limits", "cpu")
  const NESTED_CPU: Pos := Pos([Key("a"), Key("b")], "limits", "cpu")

  lemma LimitedAt(p: Pos)
    ensures At(LIMITED, p) == if p == Pos([], "limits", "cpu") then 1.0 else 0.0
  {
    assert QuantityOf(Int(1)) == 1.0;
  }

  lemma NestedAt(p: Pos)
    ensures At(NESTED, p) == if p == Pos([Key("b")], "limits", "cpu") then 1.0 else 0.0
  {
    if p.path != [] {
      LimitedAt(Pos(p.path[1..], p.kind, p.name));
      assert p.path == [p.path[0]] + p.path[1..];
    }
  }

  lemma DottedAt(p: Pos)
    ensures At(DOTTED, p) == if p == DOTTED_CPU then 1.0 else 0.0
  {
    if p.path != [] {
      LimitedAt(Pos(p.path[1..], p.kind, p.name));
      assert p.path == [p.path[0]] + p.path[1..];
    }
  }

  lemma BothAt(p: Pos)
    ensures At(BOTH, p) == if p == DOTTED_CPU || p == NESTED_CPU then 1.0 else 0.0
  {
    if p.path != [] {
      LimitedAt(Pos(p.path[1..], p.kind, p.name));
      NestedAt(Pos(p.path[1..], p.kind, p.name));
      assert p.path == [p.path[0]] + p.path[1..];
      assert NESTED_CPU.path[1..] == [Key("b")];
    }
  }

  lemma SharedKey()
    ensures PosText(DOTTED_CPU) == PosText(NESTED_CPU)
  {
    assert DOTTED_CPU.path[1..] == [] && NESTED_CPU.path[1..] == [Key("b")] && [Key("b")][1..] == [];
    assert PathText([Key("b")]) == ".b";
    assert PathText(DOTTED_CPU.path) == ".a.b" == PathText(NESTED_CPU.path);
  }

  // With a dot in a key two positions share a flat key, and removing one of them
  // goes unnoticed whatever the walk order.
  lemma DottedKeyHidesRemoval(b: map<string, real>, a: map<string, real>)
    requires Collected(BOTH, "", map[], b) && Collected(DOTTED, "", map[], a)
    ensures Floor(b, a, 0.5) && !Kept(BOTH, DOTTED, 0.5)
  {
    var key := PosText(DOTTED_CPU);
    assert "" + key == key;
    SharedKey();
    DottedAt(DOTTED_CPU);
    DottedAt(NESTED_CPU);
    BothAt(NESTED_CPU);
    assert key in a;
    forall s | s in a ensures a[s] == 1.0 {
      assert Stems(DOTTED, "", s, a[s]);
      var r: Pos :| s == "" + PosText(r) && At(DOTTED, r) == a[s] > 0.0;
      DottedAt(r);
    }
    forall s | s in b ensures s == key && b[s] == 1.0 {
      assert Stems(BOTH, "", s, b[s]);
      var r: Pos :| s == "" + PosText(r) && At(BOTH, r) == b[s] > 0.0;
      BothAt(r);
      assert "" + PosText(r) == PosText(r);
    }
  }
}
