// gate/post.go: flattening two value trees and comparing their labels and
// resource quantities.
module SafetyFloor {
  import opened Prelude
  import opened Text
  import opened Quantity

  // ---------------------------------------------------------------- positions

  datatype Seg = Key(key: string) | Index(index: nat)

  // Where a quantity stands: the way to a node, and a kind (requests, limits, ...)
  // and a resource name in that node's resources block.
  datatype Pos = Pos(path: seq<Seg>, kind: string, name: string) {
    function Under(seg: Seg): Pos { Pos([seg] + path, kind, name) }
  }

  function ChildAt(node: Yaml, seg: Seg): Option<Yaml> {
    match (node, seg)
    case (Map(m), Key(k)) => if k in m then Some(m[k]) else None
    case (Seq(items), Index(i)) => if i < |items| then Some(items[i]) else None
    case _ => None
  }

  // The quantity in a node's own resources block; 0 when there is none.
  function OwnQuantity(node: Yaml, kind: string, name: string): real {
    if node.Map? && "resources" in node.m && node.m["resources"].Map? &&
       kind in node.m["resources"].m && node.m["resources"].m[kind].Map? &&
       name in node.m["resources"].m[kind].m
    then QuantityOf(node.m["resources"].m[kind].m[name])
    else 0.0
  }

  // The quantity at a position. The walk does not descend into resources blocks.
  function QuantityAt(node: Yaml, path: seq<Seg>, kind: string, name: string): real
    decreases |path|
  {
    if path == [] then OwnQuantity(node, kind, name)
    else if path[0] == Key("resources") then 0.0
    else
      match ChildAt(node, path[0])
      case None => 0.0
      case Some(child) => QuantityAt(child, path[1..], kind, name)
  }

  function At(node: Yaml, p: Pos): real { QuantityAt(node, p.path, p.kind, p.name) }

  function SegText(seg: Seg): string {
    match seg
    case Key(k) => ['.'] + k
    case Index(i) => ['['] + (Decimal(i) + "]")
  }

  function PathText(path: seq<Seg>): string {
    if path == [] then "" else SegText(path[0]) + PathText(path[1..])
  }

  function TailText(kind: string, name: string): string {
    ".resources" + (['.'] + kind + (['.'] + name))
  }

  // The flat key a position is stored under.
  function PosText(p: Pos): string { PathText(p.path) + TailText(p.kind, p.name) }

  function Tens(n: nat): nat { if n == 0 then 1 else 10 * Tens(n - 1) }

  // The digits still to be written for n.
  function Ahead(n: nat): string { if n == 0 then "" else Decimal(n) }

  lemma LastDigit(n: nat, written: string)
    requires n > 0
    ensures Ahead(n) + written == Ahead(n / 10) + ([DigitChar(n % 10)] + written)
  {
    assert Ahead(n) == Ahead(n / 10) + [DigitChar(n % 10)];
    Assoc(Ahead(n / 10), [DigitChar(n % 10)], written);
  }

  lemma RoomLeft(n: nat, pos: nat)
    requires 0 < n < Tens(pos)
    ensures pos > 0 && n / 10 < Tens(pos - 1)
  {
  }

  // itoa: digits are written from the back of a fixed buffer of 16 bytes, which
  // suffices for every index below ten to the sixteenth.
  method Itoa(i: nat) returns (s: string)
    requires i < Tens(16)
    ensures s == Decimal(i)
  {
    if i == 0 {
      return "0";
    }
    var buf := new char[16];
    var pos: nat, n: nat := 16, i;
    ghost var written := "";
    assert Ahead(n) + written == Decimal(i);
    while n > 0
      invariant pos <= 16 && n < Tens(pos)
      invariant buf[pos..] == written
      invariant Ahead(n) + written == Decimal(i)
      decreases n
    {
      LastDigit(n, written);
      RoomLeft(n, pos);
      pos := pos - 1;
      buf[pos] := DigitChar(n % 10);
      assert buf[pos..] == [buf[pos]] + buf[pos + 1..];
      written := [DigitChar(n % 10)] + written;
      n := n / 10;
    }
    s := buf[pos..];
  }

  // ---------------------------------------------------------------- flattening

  // The flat map being filled; Go passes the map itself to every walker.
  class Sink {
    var m: map<string, real>
    constructor () ensures m == map[] { m := map[]; }
  }

  // s -> q stems from a position of node whose flat key starts with prefix.
  ghost predicate Stems(node: Yaml, prefix: string, s: string, q: real) {
    exists p: Pos :: s == prefix + PosText(p) && At(node, p) == q && q > 0.0
  }

  // after is before with node's quantities collected under prefix. When several
  // positions share a flat key, the walk order decides which of them stays.
  ghost predicate Collected(node: Yaml, prefix: string, before: map<string, real>, after: map<string, real>) {
    before.Keys <= after.Keys &&
    (forall s | s in after :: (s in before && after[s] == before[s]) || Stems(node, prefix, s, after[s])) &&
    (forall p: Pos :: At(node, p) > 0.0 ==> prefix + PosText(p) in after)
  }

  // A node's resources block: kinds to resource names to quantities.
  function BlockQuantity(res: map<string, Yaml>, kind: string, name: string): real {
    if kind in res && res[kind].Map? && name in res[kind].m then QuantityOf(res[kind].m[name]) else 0.0
  }

  ghost predicate BlockStems(res: map<string, Yaml>, prefix: string, s: string, q: real) {
    exists kind, name :: s == prefix + TailText(kind, name) && BlockQuantity(res, kind, name) == q && q > 0.0
  }

  ghost predicate BlockCollected(res: map<string, Yaml>, prefix: string, before: map<string, real>,
                                 after: map<string, real>, kinds: set<string>) {
    before.Keys <= after.Keys &&
    (forall s | s in after :: (s in before && after[s] == before[s]) || BlockStems(res, prefix, s, after[s])) &&
    (forall kind, name | kind in kinds && BlockQuantity(res, kind, name) > 0.0 ::
       prefix + TailText(kind, name) in after)
  }

  method CollectKind(res: map<string, Yaml>, kind: string, path: string, out: Sink)
    requires kind in res && res[kind].Map?
    modifies out
    ensures BlockCollected(res, path, old(out.m), out.m, {kind})
  {
    var m := res[kind].m;
    var names := m.Keys;
    while names != {}
      invariant names <= m.Keys
      invariant BlockCollected(res, path, old(out.m), out.m, {})
      invariant forall name | name in m.Keys - names && QuantityOf(m[name]) > 0.0 ::
                  path + TailText(kind, name) in out.m
    {
      var k :| k in names;
      names := names - {k};
      var q := ParseQuantity(m[k]);
      if q > 0.0 {
        assert BlockStems(res, path, path + TailText(kind, k), q) by {
          assert BlockQuantity(res, kind, k) == q;
        }
        out.m := out.m[path + TailText(kind, k) := q];
      }
    }
  }

  lemma BlockThen(res: map<string, Yaml>, prefix: string, before: map<string, real>, mid: map<string, real>,
                  after: map<string, real>, kinds: set<string>, more: set<string>)
    requires BlockCollected(res, prefix, before, mid, kinds)
    requires BlockCollected(res, prefix, mid, after, more)
    ensures BlockCollected(res, prefix, before, after, kinds + more)
  {
  }

  method CollectBlock(res: map<string, Yaml>, path: string, out: Sink)
    modifies out
    ensures BlockCollected(res, path, old(out.m), out.m, res.Keys)
  {
    var kinds := res.Keys;
    while kinds != {}
      invariant kinds <= res.Keys
      invariant BlockCollected(res, path, old(out.m), out.m, res.Keys - kinds)
    {
      var kind :| kind in kinds;
      ghost var mid := out.m;
      if res[kind].Map? {
        CollectKind(res, kind, path, out);
      }
      assert BlockCollected(res, path, mid, out.m, {kind});
      BlockThen(res, path, old(out.m), mid, out.m, res.Keys - kinds, {kind});
      assert (res.Keys - kinds) + {kind} == res.Keys - (kinds - {kind});
      kinds := kinds - {kind};
    }
    assert res.Keys - kinds == res.Keys;
  }

  // The positions already walked: the node's own block, and the children in segs.
  ghost predicate Covered(p: Pos, own: bool, segs: set<Seg>) {
    if p.path == [] then own else p.path[0] in segs
  }

  ghost predicate Partly(node: Yaml, prefix: string, before: map<string, real>, after: map<string, real>,
                         own: bool, segs: set<Seg>) {
    before.Keys <= after.Keys &&
    (forall s | s in after :: (s in before && after[s] == before[s]) || Stems(node, prefix, s, after[s])) &&
    (forall p: Pos :: At(node, p) > 0.0 && Covered(p, own, segs) ==> prefix + PosText(p) in after)
  }

  lemma OwnBlockWalked(node: Yaml, prefix: string, before: map<string, real>, after: map<string, real>)
    requires node.Map? && "resources" in node.m && node.m["resources"].Map?
    requires BlockCollected(node.m["resources"].m, prefix, before, after, node.m["resources"].m.Keys)
    ensures Partly(node, prefix, before, after, true, {})
  {
    var res := node.m["resources"].m;
    forall s | s in after ensures (s in before && after[s] == before[s]) || Stems(node, prefix, s, after[s]) {
      if BlockStems(res, prefix, s, after[s]) {
        var kind, name :| s == prefix + TailText(kind, name) && BlockQuantity(res, kind, name) == after[s] > 0.0;
        var p := Pos([], kind, name);
        assert PosText(p) == TailText(kind, name);
        assert At(node, p) == after[s];
      }
    }
    forall p: Pos | At(node, p) > 0.0 && Covered(p, true, {}) ensures prefix + PosText(p) in after {
      assert PosText(p) == TailText(p.kind, p.name);
      assert BlockQuantity(res, p.kind, p.name) > 0.0;
    }
  }

  lemma UnderText(p: Pos, seg: Seg, prefix: string)
    ensures prefix + PosText(p.Under(seg)) == (prefix + SegText(seg)) + PosText(p)
  {
    assert p.Under(seg).path[1..] == p.path;
    Assoc(SegText(seg), PathText(p.path), TailText(p.kind, p.name));
    Assoc(prefix, SegText(seg), PosText(p));
  }

  lemma UnderAt(node: Yaml, seg: Seg, p: Pos)
    requires seg != Key("resources") && ChildAt(node, seg).Some?
    ensures At(node, p.Under(seg)) == At(ChildAt(node, seg).value, p)
  {
    assert p.Under(seg).path[1..] == p.path;
  }

  lemma ChildWalked(node: Yaml, seg: Seg, prefix: string, before: map<string, real>, mid: map<string, real>,
                    after: map<string, real>, own: bool, segs: set<Seg>)
    requires seg != Key("resources") && ChildAt(node, seg).Some?
    requires Partly(node, prefix, before, mid, own, segs)
    requires Collected(ChildAt(node, seg).value, prefix + SegText(seg), mid, after)
    ensures Partly(node, prefix, before, after, own, segs + {seg})
  {
    var child := ChildAt(node, seg).value;
    forall s | s in after ensures (s in before && after[s] == before[s]) || Stems(node, prefix, s, after[s]) {
      if !(s in mid && after[s] == mid[s]) {
        var p: Pos :| s == prefix + SegText(seg) + PosText(p) && At(child, p) == after[s] > 0.0;
        UnderText(p, seg, prefix);
        UnderAt(node, seg, p);
        assert s == prefix + PosText(p.Under(seg)) && At(node, p.Under(seg)) == after[s];
      }
    }
    forall p: Pos | At(node, p) > 0.0 && Covered(p, own, segs + {seg}) ensures prefix + PosText(p) in after {
      if !Covered(p, own, segs) {
        var q := Pos(p.path[1..], p.kind, p.name);
        assert p == q.Under(seg);
        UnderText(q, seg, prefix);
        UnderAt(node, seg, q);
      }
    }
  }

  lemma AllWalked(node: Yaml, prefix: string, before: map<string, real>, after: map<string, real>, segs: set<Seg>)
    requires Partly(node, prefix, before, after, true, segs)
    requires forall seg | ChildAt(node, seg).Some? && seg != Key("resources") :: seg in segs
    ensures Collected(node, prefix, before, after)
  {
    forall p: Pos | At(node, p) > 0.0 ensures prefix + PosText(p) in after {
      assert Covered(p, true, segs);
    }
  }

  // Sequences short enough for itoa's buffer.
  ghost predicate Indexable(node: Yaml) {
    match node
    case Map(m) => forall k | k in m :: Indexable(m[k])
    case Seq(items) => |items| <= Tens(16) && forall e | e in items :: Indexable(e)
    case _ => true
  }

  method CollectMap(node: Yaml, path: string, out: Sink)
    requires node.Map? && Indexable(node)
    modifies out
    ensures Collected(node, path, old(out.m), out.m)
    decreases node, 0
  {
    var n := node.m;
    ghost var before, segs: set<Seg> := out.m, {};
    if "resources" in n && n["resources"].Map? {
      CollectBlock(n["resources"].m, path, out);
      OwnBlockWalked(node, path, before, out.m);
    }
    var keys := n.Keys;
    while keys != {}
      invariant keys <= n.Keys
      invariant Partly(node, path, before, out.m, true, segs)
      invariant forall k | k in n.Keys - keys && k != "resources" :: Key(k) in segs
    {
      var k :| k in keys;
      keys := keys - {k};
      if k == "resources" {
        continue;
      }
      ghost var mid := out.m;
      CollectResWalk(n[k], path + (['.'] + k), out);
      ChildWalked(node, Key(k), path, before, mid, out.m, true, segs);
      segs := segs + {Key(k)};
    }
    AllWalked(node, path, before, out.m, segs);
  }

  method CollectItems(node: Yaml, path: string, out: Sink)
    requires node.Seq? && Indexable(node)
    modifies out
    ensures Collected(node, path, old(out.m), out.m)
    decreases node, 0
  {
    ghost var before, segs: set<Seg> := out.m, {};
    for i := 0 to |node.items|
      invariant Partly(node, path, before, out.m, true, segs)
      invariant forall j | 0 <= j < i :: Index(j) in segs
    {
      ghost var mid := out.m;
      var digits := Itoa(i);
      CollectResWalk(node.items[i], path + (['['] + (digits + "]")), out);
      ChildWalked(node, Index(i), path, before, mid, out.m, true, segs);
      segs := segs + {Index(i)};
    }
    AllWalked(node, path, before, out.m, segs);
  }

  method CollectResWalk(node: Yaml, path: string, out: Sink)
    requires Indexable(node)
    modifies out
    ensures Collected(node, path, old(out.m), out.m)
    decreases node, 1
  {
    match node
    case Map(_) => CollectMap(node, path, out);
    case Seq(_) => CollectItems(node, path, out);
    case _ => AllWalked(node, path, out.m, out.m, {});
  }

  method CollectResources(root: Yaml) returns (m: map<string, real>)
    requires Indexable(root)
    ensures Collected(root, "", map[], m)
  {
    var out := new Sink();
    CollectResWalk(root, "", out);
    m := out.m;
  }
}
