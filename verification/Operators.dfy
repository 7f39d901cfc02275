// operators/detector.go: walking a workload's controlling owner chain.
module Operators {
  import opened Prelude
  import opened Text

  datatype OwnerRef = OwnerRef(apiVersion: string, kind: string, name: string, controller: bool)

  datatype Workload = Workload(namespace: string, kind: string, name: string, owners: seq<OwnerRef>)

  datatype Classification = Classification(direct: bool, operator: string)

  const DIRECT: Classification := Classification(true, "")
  const UNKNOWN: Classification := Classification(false, "")
  const MAX_DEPTH := 16

  predicate BuiltIn(kind: string) {
    kind in {"Deployment", "ReplicaSet", "StatefulSet", "DaemonSet", "Job", "CronJob"}
  }

  // The owner marked as controller that comes first, else the first owner.
  ghost predicate Controls(owners: seq<OwnerRef>, r: Option<OwnerRef>) {
    match r
    case None => owners == []
    case Some(o) =>
      exists i | 0 <= i < |owners| && owners[i] == o ::
        if o.controller then forall j | 0 <= j < i :: !owners[j].controller
        else i == 0 && forall j | 0 <= j < |owners| :: !owners[j].controller
  }

  method ControllingOwner(owners: seq<OwnerRef>) returns (r: Option<OwnerRef>)
    ensures Controls(owners, r)
  {
    for i := 0 to |owners|
      invariant forall j | 0 <= j < i :: !owners[j].controller
    {
      if owners[i].controller {
        return Some(owners[i]);
      }
    }
    if |owners| > 0 {
      return Some(owners[0]);
    }
    return None;
  }

  lemma ControlsUnique(owners: seq<OwnerRef>, r: Option<OwnerRef>, s: Option<OwnerRef>)
    requires Controls(owners, r) && Controls(owners, s)
    ensures r == s
  {
  }

  function ApiGroup(apiVersion: string): string {
    var i := IndexOf(apiVersion, '/');
    if i == |apiVersion| then "" else apiVersion[..i]
  }

  function OperatorOf(ref: OwnerRef): (c: Classification)
    ensures !c.direct && c.operator != ""
  {
    Classification(false, ApiGroup(ref.apiVersion) + "/" + ref.kind)
  }

  function KeyOf(ref: OwnerRef): string {
    ref.apiVersion + "/" + ref.kind + "/" + ref.name
  }

  // ------------------------------------------------- the unbounded walk

  type Resolver = OwnerRef -> Option<OwnerRef>

  // The owner of a built-in controller, if there is one; the walk goes no further
  // up from anything else.
  function Above(resolve: Resolver, ref: OwnerRef): Option<OwnerRef> {
    if !BuiltIn(ref.kind) then None
    else
      match resolve(ref)
      case Some(next) => if next.kind == "" then None else Some(next)
      case None => None
  }

  function Climb(resolve: Resolver): Resolver { ref => Above(resolve, ref) }

  // The n-th owner on the chain that step leads along.
  function Nth(step: Resolver, first: OwnerRef, n: nat): Option<OwnerRef> {
    if n == 0 then Some(first)
    else
      match Nth(step, first, n - 1)
      case Some(ref) => step(ref)
      case None => None
  }

  ghost predicate EndsAt(step: Resolver, first: OwnerRef, n: nat) {
    Nth(step, first, n).Some? && step(Nth(step, first, n).value).None?
  }

  lemma {:induction false} ChainIsPrefix(step: Resolver, first: OwnerRef, m: nat, n: nat)
    requires m < n && Nth(step, first, n).Some?
    ensures Nth(step, first, m).Some? && step(Nth(step, first, m).value).Some?
    decreases n
  {
    if m < n - 1 {
      ChainIsPrefix(step, first, m, n - 1);
    }
  }

  lemma EndsOnce(step: Resolver, first: OwnerRef, m: nat, n: nat)
    requires EndsAt(step, first, m) && EndsAt(step, first, n)
    ensures m == n
  {
    if m < n {
      ChainIsPrefix(step, first, m, n);
    } else if n < m {
      ChainIsPrefix(step, first, n, m);
    }
  }

  // What the owner at the end of the chain says about the workload.
  function Verdict(ref: OwnerRef): (c: Classification)
    ensures c != UNKNOWN && (c == DIRECT <==> BuiltIn(ref.kind))
  {
    if BuiltIn(ref.kind) then DIRECT else OperatorOf(ref)
  }

  // The unbounded walk ends at the n-th owner with classification c.
  ghost predicate DecidesAt(resolve: Resolver, first: OwnerRef, n: nat, c: Classification) {
    EndsAt(Climb(resolve), first, n) && c == Verdict(Nth(Climb(resolve), first, n).value)
  }

  ghost predicate DistinctKeys(step: Resolver, first: OwnerRef, n: nat) {
    forall i, j | 0 <= i < j <= n && Nth(step, first, i).Some? && Nth(step, first, j).Some? ::
      KeyOf(Nth(step, first, i).value) != KeyOf(Nth(step, first, j).value)
  }

  // Direct means that every owner on the chain is a built-in and the last has no
  // owner; an operator is the first owner on the chain that is no built-in.
  lemma VerdictMeans(resolve: Resolver, first: OwnerRef, n: nat, c: Classification)
    requires DecidesAt(resolve, first, n, c)
    ensures forall i | 0 <= i < n ::
              Nth(Climb(resolve), first, i).Some? && BuiltIn(Nth(Climb(resolve), first, i).value.kind)
    ensures var last := Nth(Climb(resolve), first, n).value;
            if c == DIRECT then BuiltIn(last.kind) && (resolve(last).None? || resolve(last).value.kind == "")
            else !BuiltIn(last.kind) && c == OperatorOf(last)
  {
    forall i | 0 <= i < n
      ensures Nth(Climb(resolve), first, i).Some? && BuiltIn(Nth(Climb(resolve), first, i).value.kind)
    {
      ChainIsPrefix(Climb(resolve), first, i, n);
    }
  }

  // c is the bounded walk's answer from first.
  ghost predicate Answers(resolve: Resolver, first: OwnerRef, c: Classification) {
    (c != UNKNOWN ==>
       exists n | 0 <= n < MAX_DEPTH :: DecidesAt(resolve, first, n, c) && DistinctKeys(Climb(resolve), first, n)) &&
    (c == UNKNOWN ==>
       forall n | 0 <= n < MAX_DEPTH && EndsAt(Climb(resolve), first, n) :: !DistinctKeys(Climb(resolve), first, n))
  }

  method Classify(w: Workload, resolve: Resolver) returns (c: Classification)
    ensures w.owners == [] ==> c == DIRECT
    ensures w.owners != [] ==> exists first :: Controls(w.owners, Some(first)) && Answers(resolve, first, c)
  {
    var owner := ControllingOwner(w.owners);
    if owner.None? {
      return DIRECT;
    }
    c := WalkOwners(owner.value, resolve);
    assert Controls(w.owners, Some(owner.value));
  }

  method WalkOwners(first: OwnerRef, resolve: Resolver) returns (c: Classification)
    ensures Answers(resolve, first, c)
  {
    var visited: set<string> := {};
    var ref := first;
    ghost var step := Climb(resolve);
    for depth := 0 to MAX_DEPTH
      invariant Nth(step, first, depth) == Some(ref)
      invariant forall k :: k in visited <==>
                  exists i | 0 <= i < depth :: Nth(step, first, i).Some? && KeyOf(Nth(step, first, i).value) == k
      invariant depth > 0 ==> DistinctKeys(step, first, depth - 1)
    {
      var key := KeyOf(ref);
      if key in visited {
        ghost var i :| 0 <= i < depth && Nth(step, first, i).Some? && KeyOf(Nth(step, first, i).value) == key;
        RepeatUndecided(step, first, i, depth);
        return UNKNOWN;
      }
      visited := visited + {key};
      assert DistinctKeys(step, first, depth);
      if BuiltIn(ref.kind) {
        var next := resolve(ref);
        if next.None? || next.value.kind == "" {
          assert DecidesAt(resolve, first, depth, DIRECT);
          return DIRECT;
        }
        ref := next.value;
        continue;
      }
      assert DecidesAt(resolve, first, depth, OperatorOf(ref));
      return OperatorOf(ref);
    }
    RunsOn(step, first);
    return UNKNOWN;
  }

  // A repeated key leaves nothing decided with distinct keys.
  lemma RepeatUndecided(step: Resolver, first: OwnerRef, i: nat, j: nat)
    requires i < j && Nth(step, first, i).Some? && Nth(step, first, j).Some?
    requires KeyOf(Nth(step, first, i).value) == KeyOf(Nth(step, first, j).value)
    ensures forall n | EndsAt(step, first, n) :: !DistinctKeys(step, first, n)
  {
    forall n: nat | EndsAt(step, first, n) ensures !DistinctKeys(step, first, n) {
      if n < j {
        ChainIsPrefix(step, first, n, j);
      }
    }
  }

  lemma RunsOn(step: Resolver, first: OwnerRef)
    requires Nth(step, first, MAX_DEPTH).Some?
    ensures forall n | 0 <= n < MAX_DEPTH :: !EndsAt(step, first, n)
  {
    forall n: nat | n < MAX_DEPTH ensures !EndsAt(step, first, n) {
      ChainIsPrefix(step, first, n, MAX_DEPTH);
    }
  }

  // ------------------------------------------------- against the unbounded walk

  // Kinds and names have no slash, and the resolver looks owners up by API
  // version, kind and name.
  ghost predicate WellFormed(ref: OwnerRef) { '/' !in ref.kind && '/' !in ref.name }

  ghost predicate Lookup(resolve: Resolver) {
    (forall a, b {:trigger SameObject(a, b)} :: SameObject(a, b) ==> resolve(a) == resolve(b)) &&
    (forall ref :: WellFormed(ref) && resolve(ref).Some? ==> WellFormed(resolve(ref).value))
  }

  ghost predicate SameObject(a: OwnerRef, b: OwnerRef) {
    a.apiVersion == b.apiVersion && a.kind == b.kind && a.name == b.name
  }

  lemma KeyIdentifies(a: OwnerRef, b: OwnerRef)
    requires WellFormed(a) && WellFormed(b)
    ensures KeyOf(a) == KeyOf(b) <==> SameObject(a, b)
  {
    if KeyOf(a) == KeyOf(b) {
      LastSeparator(a.apiVersion + "/" + a.kind, b.apiVersion + "/" + b.kind, '/', a.name, b.name);
      LastSeparator(a.apiVersion, b.apiVersion, '/', a.kind, b.kind);
    }
  }

  lemma ClimbLooksUp(resolve: Resolver)
    requires Lookup(resolve)
    ensures Lookup(Climb(resolve))
  {
  }

  lemma {:induction false} ChainWellFormed(step: Resolver, first: OwnerRef, n: nat)
    requires Lookup(step) && WellFormed(first) && Nth(step, first, n).Some?
    ensures WellFormed(Nth(step, first, n).value)
  {
    if n > 0 {
      ChainIsPrefix(step, first, n - 1, n);
      ChainWellFormed(step, first, n - 1);
    }
  }

  // The same object twice on the chain.
  ghost predicate Repeats(step: Resolver, first: OwnerRef, i: nat, j: nat) {
    Nth(step, first, i).Some? && Nth(step, first, j).Some? &&
    SameObject(Nth(step, first, i).value, Nth(step, first, j).value)
  }

  lemma {:induction false} ChainRepeats(step: Resolver, first: OwnerRef, i: nat, j: nat, k: nat)
    requires Lookup(step) && i < j && Repeats(step, first, i, j) && Nth(step, first, j + k).Some?
    ensures Repeats(step, first, i + k, j + k)
    decreases k
  {
    if k > 0 {
      ChainIsPrefix(step, first, j + k - 1, j + k);
      ChainRepeats(step, first, i, j, k - 1);
      assert SameObject(Nth(step, first, i + k - 1).value, Nth(step, first, j + k - 1).value);
    }
  }

  // A cyclic chain never ends: the walk would return to the same owners.
  lemma CycleNeverEnds(step: Resolver, first: OwnerRef, i: nat, j: nat, n: nat)
    requires Lookup(step) && i < j && Repeats(step, first, i, j)
    ensures !EndsAt(step, first, n)
  {
    if Nth(step, first, n).Some? {
      if n < j {
        ChainIsPrefix(step, first, n, j);
      } else {
        var m := i + (n - j);
        ChainRepeats(step, first, i, j, n - j);
        ChainIsPrefix(step, first, m, n);
        assert SameObject(Nth(step, first, m).value, Nth(step, first, n).value);
      }
    }
  }

  lemma EndedChainDistinct(step: Resolver, first: OwnerRef, n: nat)
    requires Lookup(step) && WellFormed(first) && EndsAt(step, first, n)
    ensures DistinctKeys(step, first, n)
  {
    forall i: nat, j: nat | i < j <= n && Nth(step, first, i).Some? && Nth(step, first, j).Some?
      ensures KeyOf(Nth(step, first, i).value) != KeyOf(Nth(step, first, j).value)
    {
      ChainWellFormed(step, first, i);
      ChainWellFormed(step, first, j);
      KeyIdentifies(Nth(step, first, i).value, Nth(step, first, j).value);
      if Repeats(step, first, i, j) {
        CycleNeverEnds(step, first, i, j, n);
      }
    }
  }

  // The bounded walk gives the unbounded answer exactly when that takes fewer than
  // 16 hops, and is unknown otherwise: too long, endless or cyclic.
  lemma BoundedIsExact(resolve: Resolver, first: OwnerRef, c: Classification)
    requires Lookup(resolve) && WellFormed(first) && Answers(resolve, first, c)
    ensures c != UNKNOWN ==> exists n | 0 <= n < MAX_DEPTH :: DecidesAt(resolve, first, n, c)
    ensures forall n, d | 0 <= n < MAX_DEPTH && DecidesAt(resolve, first, n, d) :: c == d
  {
    var step := Climb(resolve);
    ClimbLooksUp(resolve);
    forall n: nat, d | n < MAX_DEPTH && DecidesAt(resolve, first, n, d) ensures c == d {
      EndedChainDistinct(step, first, n);
      assert c != UNKNOWN;
      var m :| 0 <= m < MAX_DEPTH && DecidesAt(resolve, first, m, c);
      EndsOnce(step, first, m, n);
    }
  }

  // The same for a whole workload: whichever owner its classification came from is
  // the controlling one, so the unbounded walk from there decides it.
  lemma ClassifyIsExact(w: Workload, resolve: Resolver, first: OwnerRef, c: Classification)
    requires Lookup(resolve) && WellFormed(first) && Controls(w.owners, Some(first))
    requires exists owner :: Controls(w.owners, Some(owner)) && Answers(resolve, owner, c)
    ensures c != UNKNOWN ==> exists n | 0 <= n < MAX_DEPTH :: DecidesAt(resolve, first, n, c)
    ensures forall n, d | 0 <= n < MAX_DEPTH && DecidesAt(resolve, first, n, d) :: c == d
  {
    var owner :| Controls(w.owners, Some(owner)) && Answers(resolve, owner, c);
    ControlsUnique(w.owners, Some(owner), Some(first));
    BoundedIsExact(resolve, first, c);
  }
}
