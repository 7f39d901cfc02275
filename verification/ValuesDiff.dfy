// internal/analyze/diff.go, pkg/rules/cpu_overprovisioned.go and
// memory_overprovisioned.go: comparing two values files, and the savings that
// the overprovisioning rules promise.
module ValuesDiff {
  import opened Prelude
  import opened Sorting

  datatype Quantity = Quantity(isSet: bool, value: int)

  datatype Resources = Resources(cpu: Quantity, memory: Quantity)

  datatype Workload = Workload(name: string, requests: Resources, limits: Resources)

  datatype Entry = Entry(
    name: string, added: bool, removed: bool,
    cpuRequest: int, cpuLimit: int, memoryRequest: int, memoryLimit: int,
    cents: int)

  datatype Pair = Pair(a: Option<Workload>, b: Option<Workload>)

  const CENTS_PER_CORE_HOUR := 4
  const HOURS := 730
  const CENTS_PER_GIB := 350
  const GIB := 1024 * 1024 * 1024

  // Go's integer division, for a positive divisor.
  function Div(a: int, b: int): (q: int)
    requires b > 0
    ensures a >= 0 ==> q * b <= a < q * b + b
    ensures a <= 0 ==> q * b - b < a <= q * b
  {
    if a >= 0 then a / b else -(-a / b)
  }

  lemma DivNegates(a: int, b: int)
    requires b > 0
    ensures Div(-a, b) == -Div(a, b)
  {
  }

  lemma TruncNegates(x: real)
    ensures Trunc(-x) == -Trunc(x)
  {
  }

  function CpuCents(millicores: int): int {
    Div(millicores * HOURS * CENTS_PER_CORE_HOUR, 1000)
  }

  function MemoryCents(bytes: int): int {
    Trunc(bytes as real / GIB as real * CENTS_PER_GIB as real)
  }

  // The price of the opposite change is the opposite price.
  lemma CentsNegate(millicores: int, bytes: int)
    ensures CpuCents(-millicores) == -CpuCents(millicores)
    ensures MemoryCents(-bytes) == -MemoryCents(bytes)
  {
    DivNegates(millicores * HOURS * CENTS_PER_CORE_HOUR, 1000);
    TruncNegates(bytes as real / GIB as real * CENTS_PER_GIB as real);
  }

  // ------------------------------------------------- one entry

  const UNSET := Resources(Quantity(false, 0), Quantity(false, 0))

  function Requests(w: Option<Workload>): Resources {
    if w.None? then UNSET else w.value.requests
  }

  function Limits(w: Option<Workload>): Resources {
    if w.None? then UNSET else w.value.limits
  }

  function Delta(a: Quantity, b: Quantity): int {
    (if b.isSet then b.value else 0) - if a.isSet then a.value else 0
  }

  function EntryFor(name: string, p: Pair): Entry {
    var cpu := Delta(Requests(p.a).cpu, Requests(p.b).cpu);
    var memory := Delta(Requests(p.a).memory, Requests(p.b).memory);
    Entry(name, p.a.None?, p.a.Some? && p.b.None?,
          cpu, Delta(Limits(p.a).cpu, Limits(p.b).cpu),
          memory, Delta(Limits(p.a).memory, Limits(p.b).memory),
          CpuCents(cpu) + MemoryCents(memory))
  }

  predicate NoChange(e: Entry) {
    !e.added && !e.removed && e.cpuRequest == 0 && e.cpuLimit == 0 && e.memoryRequest == 0 && e.memoryLimit == 0
  }

  // ------------------------------------------------- whole files

  // Of several workloads with one name the last one counts.
  function ByName(ws: seq<Workload>): map<string, Workload> {
    if ws == [] then map[]
    else
      var last := ws[|ws| - 1];
      ByName(ws[..|ws| - 1])[last.name := last]
  }

  function Lookup(m: map<string, Workload>, n: string): Option<Workload> {
    if n in m then Some(m[n]) else None
  }

  // The pair of workloads a name stands for.
  function PairOf(a: seq<Workload>, b: seq<Workload>, n: string): Pair {
    Pair(Lookup(ByName(a), n), Lookup(ByName(b), n))
  }

  // What a diff must contain: one entry for each name in either file that
  // changes, appears or goes.
  ghost predicate Belongs(a: seq<Workload>, b: seq<Workload>, e: Entry) {
    && (e.name in ByName(a) || e.name in ByName(b))
    && e == EntryFor(e.name, PairOf(a, b, e.name))
    && !NoChange(e)
  }

  const NAME: Entry -> seq<string> := (e: Entry) => [e.name]

  ghost predicate IsDiff(a: seq<Workload>, b: seq<Workload>, entries: seq<Entry>) {
    Sorted(entries, NAME) && forall e :: e in entries <==> Belongs(a, b, e)
  }

  method Diff(a: seq<Workload>, b: seq<Workload>) returns (entries: seq<Entry>)
    ensures IsDiff(a, b, entries)
  {
    var byName := Pairs(a, b);
    entries := [];
    var names := byName.Keys;
    while names != {}
      invariant names <= byName.Keys
      invariant forall e :: e in entries <==>
                  e.name in byName.Keys - names && e == EntryFor(e.name, byName[e.name]) && !NoChange(e)
      invariant forall i, j | 0 <= i < j < |entries| :: NAME(entries[i]) != NAME(entries[j])
    {
      var name :| name in names;
      names := names - {name};
      var entry := EntryFor(name, byName[name]);
      if NoChange(entry) {
        continue;
      }
      entries := entries + [entry];
    }
    entries := Sort(entries, NAME);
  }

  method Pairs(a: seq<Workload>, b: seq<Workload>) returns (byName: map<string, Pair>)
    ensures byName.Keys == ByName(a).Keys + ByName(b).Keys
    ensures forall n | n in byName :: byName[n] == PairOf(a, b, n)
  {
    byName := map[];
    for i := 0 to |a|
      invariant byName.Keys == ByName(a[..i]).Keys
      invariant forall n | n in byName :: byName[n] == Pair(Some(ByName(a[..i])[n]), None)
    {
      byName := byName[a[i].name := Pair(Some(a[i]), None)];
      assert a[..i + 1][..i] == a[..i];
    }
    assert a[..|a|] == a;
    for i := 0 to |b|
      invariant byName.Keys == ByName(a).Keys + ByName(b[..i]).Keys
      invariant forall n | n in byName :: byName[n] == Pair(Lookup(ByName(a), n), Lookup(ByName(b[..i]), n))
    {
      var name := b[i].name;
      if name in byName {
        byName := byName[name := byName[name].(b := Some(b[i]))];
      } else {
        byName := byName[name := Pair(None, Some(b[i]))];
      }
      assert b[..i + 1][..i] == b[..i];
    }
    assert b[..|b|] == b;
  }

  function Sum(entries: seq<Entry>): int {
    if entries == [] then 0 else Sum(entries[..|entries| - 1]) + entries[|entries| - 1].cents
  }

  method MonthlyUSDCentsDelta(entries: seq<Entry>) returns (sum: int)
    ensures sum == Sum(entries)
  {
    sum := 0;
    for i := 0 to |entries|
      invariant sum == Sum(entries[..i])
    {
      sum := sum + entries[i].cents;
      assert entries[..i + 1][..i] == entries[..i];
    }
    assert entries[..|entries|] == entries;
  }

  // ------------------------------------------------- swapping the files

  function Flip(e: Entry): Entry {
    Entry(e.name, e.removed, e.added, -e.cpuRequest, -e.cpuLimit, -e.memoryRequest, -e.memoryLimit, -e.cents)
  }

  function FlipAll(entries: seq<Entry>): seq<Entry> {
    seq(|entries|, i requires 0 <= i < |entries| => Flip(entries[i]))
  }

  lemma FlipEntry(name: string, p: Pair)
    requires p.a.Some? || p.b.Some?
    ensures EntryFor(name, Pair(p.b, p.a)) == Flip(EntryFor(name, p))
  {
    var e := EntryFor(name, p);
    CentsNegate(e.cpuRequest, e.memoryRequest);
  }

  lemma BelongsFlipped(a: seq<Workload>, b: seq<Workload>, e: Entry)
    ensures Belongs(a, b, e) <==> Belongs(b, a, Flip(e))
  {
    if e.name in ByName(a) || e.name in ByName(b) {
      FlipEntry(e.name, PairOf(a, b, e.name));
      FlipEntry(e.name, PairOf(b, a, e.name));
    }
  }

  lemma {:induction false} SumFlipped(entries: seq<Entry>)
    ensures Sum(FlipAll(entries)) == -Sum(entries)
  {
    if entries != [] {
      var init := entries[..|entries| - 1];
      assert FlipAll(entries)[..|entries| - 1] == FlipAll(init);
      SumFlipped(init);
    }
  }

  // Swapping the files negates every number and the total, and exchanges the
  // added workloads with the removed ones.
  lemma SwapFlips(a: seq<Workload>, b: seq<Workload>, there: seq<Entry>, back: seq<Entry>)
    requires IsDiff(a, b, there) && IsDiff(b, a, back)
    ensures back == FlipAll(there)
    ensures Sum(back) == -Sum(there)
  {
    forall e ensures e in back <==> e in FlipAll(there) {
      BelongsFlipped(b, a, e);
      assert Flip(Flip(e)) == e;
      if Flip(e) in there {
        var i :| 0 <= i < |there| && there[i] == Flip(e);
        assert FlipAll(there)[i] == e;
      }
    }
    assert forall i | 0 <= i < |there| :: NAME(FlipAll(there)[i]) == NAME(there[i]);
    SortedUnique(back, FlipAll(there), NAME);
    SumFlipped(there);
  }

  lemma SameIsNoChange(n: string, w: Workload)
    ensures NoChange(EntryFor(n, Pair(Some(w), Some(w))))
  {
  }

  lemma SameFileIsEmpty(a: seq<Workload>, entries: seq<Entry>)
    requires IsDiff(a, a, entries)
    ensures entries == []
  {
    assert |entries| > 0 ==> entries[0] in entries;
    forall e ensures !Belongs(a, a, e) {
      if e.name in ByName(a) {
        SameIsNoChange(e.name, ByName(a)[e.name]);
      }
    }
  }

  // ------------------------------------------------- the overprovisioning rules

  predicate Overprovisioned(request: Quantity, limit: Quantity) {
    request.isSet && limit.isSet && limit.value != 0 && request.value as real / limit.value as real > 0.5
  }

  // The MonthlyUSDCents of the finding, if there is one.
  function CpuFinding(w: Workload): Option<int> {
    if Overprovisioned(w.requests.cpu, w.limits.cpu)
    then Some(Div(Div(w.requests.cpu.value, 2) * HOURS * CENTS_PER_CORE_HOUR, 1000))
    else None
  }

  function MemoryFinding(w: Workload): Option<int> {
    if Overprovisioned(w.requests.memory, w.limits.memory)
    then
      var excessGiB := Div(w.requests.memory.value, 2) as real / GIB as real;
      Some(Trunc(excessGiB * CENTS_PER_GIB as real))
    else None
  }

  // The workload with the excess of its finding taken off the request.
  function CpuReduced(w: Workload): Workload {
    w.(requests := w.requests.(cpu := Quantity(true, w.requests.cpu.value - Div(w.requests.cpu.value, 2))))
  }

  function MemoryReduced(w: Workload): Workload {
    w.(requests := w.requests.(memory := Quantity(true, w.requests.memory.value - Div(w.requests.memory.value, 2))))
  }

  // The workload its name stands for.
  predicate Counts(ws: seq<Workload>, i: nat)
    requires i < |ws|
  {
    forall j | i < j < |ws| :: ws[j].name != ws[i].name
  }

  lemma {:induction false} ByNameUpdated(ws: seq<Workload>, i: nat, w: Workload)
    requires i < |ws| && w.name == ws[i].name
    ensures Counts(ws, i) ==> w.name in ByName(ws) && ByName(ws)[w.name] == ws[i]
    ensures ByName(ws[i := w]) == if Counts(ws, i) then ByName(ws)[w.name := w] else ByName(ws)
  {
    var n := |ws| - 1;
    var init := ws[..n];
    if i == n {
      assert ws[i := w][..n] == init;
    } else {
      assert ws[i := w][..n] == init[i := w];
      ByNameUpdated(init, i, w);
      assert Counts(ws, i) <==> Counts(init, i) && ws[n].name != w.name;
    }
  }

  // Changing one workload of a file leads to a diff of exactly that workload,
  // and to none when a later workload has the same name.
  lemma DiffOfOneChange(ws: seq<Workload>, i: nat, w: Workload, entries: seq<Entry>)
    requires i < |ws| && w.name == ws[i].name && IsDiff(ws, ws[i := w], entries)
    ensures var e := EntryFor(w.name, Pair(Some(ws[i]), Some(w)));
            entries == if !Counts(ws, i) || NoChange(e) then [] else [e]
  {
    var changed := ws[i := w];
    var e := EntryFor(w.name, Pair(Some(ws[i]), Some(w)));
    ByNameUpdated(ws, i, w);
    forall x ensures Belongs(ws, changed, x) <==> Counts(ws, i) && x == e && !NoChange(e) {
      if x.name in ByName(ws) && !(Counts(ws, i) && x.name == w.name) {
        SameIsNoChange(x.name, ByName(ws)[x.name]);
      }
    }
    SortedUnique(entries, if !Counts(ws, i) || NoChange(e) then [] else [e], NAME);
  }

  lemma CpuReducedSaves(w: Workload)
    requires CpuFinding(w).Some?
    ensures EntryFor(w.name, Pair(Some(w), Some(CpuReduced(w)))).cents == -CpuFinding(w).value
  {
    CentsNegate(Div(w.requests.cpu.value, 2), 0);
  }

  lemma MemoryReducedSaves(w: Workload)
    requires MemoryFinding(w).Some?
    ensures EntryFor(w.name, Pair(Some(w), Some(MemoryReduced(w)))).cents == -MemoryFinding(w).value
  {
    CentsNegate(0, Div(w.requests.memory.value, 2));
  }

  // Following a finding changes the monthly total by exactly the promised amount,
  // unless the file repeats the name further down.
  lemma CpuFindingIsSaved(ws: seq<Workload>, i: nat, entries: seq<Entry>)
    requires i < |ws| && CpuFinding(ws[i]).Some? && IsDiff(ws, ws[i := CpuReduced(ws[i])], entries)
    ensures Sum(entries) == if Counts(ws, i) then -CpuFinding(ws[i]).value else 0
  {
    DiffOfOneChange(ws, i, CpuReduced(ws[i]), entries);
    CpuReducedSaves(ws[i]);
    if Counts(ws, i) {
      SumOfOne(entries, ws[i].name, Pair(Some(ws[i]), Some(CpuReduced(ws[i]))));
    }
  }

  lemma MemoryFindingIsSaved(ws: seq<Workload>, i: nat, entries: seq<Entry>)
    requires i < |ws| && MemoryFinding(ws[i]).Some? && IsDiff(ws, ws[i := MemoryReduced(ws[i])], entries)
    ensures Sum(entries) == if Counts(ws, i) then -MemoryFinding(ws[i]).value else 0
  {
    DiffOfOneChange(ws, i, MemoryReduced(ws[i]), entries);
    MemoryReducedSaves(ws[i]);
    if Counts(ws, i) {
      SumOfOne(entries, ws[i].name, Pair(Some(ws[i]), Some(MemoryReduced(ws[i]))));
    }
  }

  lemma SumOfOne(entries: seq<Entry>, name: string, p: Pair)
    requires entries == if NoChange(EntryFor(name, p)) then [] else [EntryFor(name, p)]
    ensures Sum(entries) == EntryFor(name, p).cents
  {
    if NoChange(EntryFor(name, p)) {
      CentsNegate(0, 0);
    } else {
      assert entries[..0] == [];
    }
  }

  // The workload with the request halved by integer division instead.
  function CpuHalved(w: Workload): Workload {
    w.(requests := w.requests.(cpu := Quantity(true, Div(w.requests.cpu.value, 2))))
  }

  function MemoryHalved(w: Workload): Workload {
    w.(requests := w.requests.(memory := Quantity(true, Div(w.requests.memory.value, 2))))
  }

  // An odd request loses one millicore more then, which always shows in the price.
  lemma HalvedCpuCents(request: int)
    ensures CpuCents(Div(request, 2) - request) == -CpuCents(Div(request, 2)) <==> request % 2 == 0
  {
    var h := Div(request, 2);
    CentsNegate(request - h, 0);
    if request % 2 != 0 {
      assert request - h == if request > 0 then h + 1 else h - 1;
    } else {
      assert request - h == h;
    }
  }

  lemma WholeGiB(n: int, x: real, q: int)
    requires x * GIB as real == n as real && q * GIB <= n < q * GIB + GIB
    ensures q as real <= x < q as real + 1.0
  {
  }

  lemma WholeCents(bytes: int)
    ensures MemoryCents(bytes) == Div(bytes * CENTS_PER_GIB, GIB)
    decreases if bytes < 0 then 1 else 0
  {
    if bytes >= 0 {
      var n, x := bytes * CENTS_PER_GIB, bytes as real / GIB as real * CENTS_PER_GIB as real;
      assert x * GIB as real == n as real;
      WholeGiB(n, x, Div(n, GIB));
    } else {
      WholeCents(-bytes);
      CentsNegate(0, -bytes);
      DivNegates(-bytes * CENTS_PER_GIB, GIB);
    }
  }

  // No full cent lies between the prices of n bytes and of one byte more.
  predicate SameCent(n: nat) { n * CENTS_PER_GIB % GIB + CENTS_PER_GIB < GIB }

  lemma NextByte(n: nat)
    ensures MemoryCents(n + 1) == MemoryCents(n) <==> SameCent(n)
  {
    WholeCents(n);
    WholeCents(n + 1);
  }

  function Magnitude(n: int): nat { if n < 0 then -n else n }

  // An odd memory request loses one byte more, which shows in the price only at a
  // full cent.
  lemma HalvedMemoryCents(request: int)
    ensures MemoryCents(Div(request, 2) - request) == -MemoryCents(Div(request, 2)) <==>
            request % 2 == 0 || SameCent(Magnitude(request) / 2)
  {
    var h := Div(request, 2);
    CentsNegate(0, request - h);
    if request % 2 == 0 {
      assert request - h == h;
    } else if request > 0 {
      assert request - h == h + 1 && h == request / 2;
      NextByte(h);
    } else {
      assert request - h == h - 1 && -h == Magnitude(request) / 2;
      NextByte(-h);
      CentsNegate(0, -h);
      CentsNegate(0, 1 - h);
    }
  }

  // Halving a CPU request by integer division changes the monthly total by the amount
  // promised exactly when the request is even.
  lemma HalvedCpuSaves(ws: seq<Workload>, i: nat, entries: seq<Entry>)
    requires i < |ws| && CpuFinding(ws[i]).Some? && IsDiff(ws, ws[i := CpuHalved(ws[i])], entries)
    ensures Counts(ws, i) ==>
              (Sum(entries) == -CpuFinding(ws[i]).value <==> ws[i].requests.cpu.value % 2 == 0)
    ensures !Counts(ws, i) ==> Sum(entries) == 0
  {
    var w, v := ws[i], CpuHalved(ws[i]);
    DiffOfOneChange(ws, i, v, entries);
    if Counts(ws, i) {
      SumOfOne(entries, w.name, Pair(Some(w), Some(v)));
      CentsNegate(0, 0);
      HalvedCpuCents(w.requests.cpu.value);
    }
  }

  // Halving a memory request does exactly when the request is even or its two halves
  // cost the same.
  lemma HalvedMemorySaves(ws: seq<Workload>, i: nat, entries: seq<Entry>)
    requires i < |ws| && MemoryFinding(ws[i]).Some? && IsDiff(ws, ws[i := MemoryHalved(ws[i])], entries)
    ensures var request := ws[i].requests.memory.value;
            Counts(ws, i) ==>
              (Sum(entries) == -MemoryFinding(ws[i]).value <==>
               request % 2 == 0 || SameCent(Magnitude(request) / 2))
    ensures !Counts(ws, i) ==> Sum(entries) == 0
  {
    var w, v := ws[i], MemoryHalved(ws[i]);
    DiffOfOneChange(ws, i, v, entries);
    if Counts(ws, i) {
      SumOfOne(entries, w.name, Pair(Some(w), Some(v)));
      CentsNegate(0, 0);
      HalvedMemoryCents(w.requests.memory.value);
    }
  }
}
