// agent/prom/scraper.go: rolling per-pod samples up to workloads.
module Scraper {
  import opened Prelude
  import opened Sorting

  datatype Sample = Sample(labels: map<string, string>, value: real, at: Option<int>)

  datatype PodKey = PodKey(namespace: string, pod: string)

  datatype WorkloadKey = WorkloadKey(namespace: string, kind: string, name: string)

  // `at` is None for the zero time.
  datatype Observation = Observation(
    namespace: string, kind: string, name: string,
    cpu: real, memory: real, oom: int, at: Option<int>)
  {
    function Key(): WorkloadKey { WorkloadKey(namespace, kind, name) }
  }

  datatype Metric = CPU | Memory | OOMKilled

  datatype Tagged = Tagged(metric: Metric, sample: Sample)

  type Owners = map<PodKey, WorkloadKey>

  const FIELDS: Observation -> seq<string> := (o: Observation) => [o.namespace, o.kind, o.name]

  function Label(labels: map<string, string>, name: string): string {
    if name in labels then labels[name] else ""
  }

  function OwnerOf(owners: Owners, s: Sample): Option<WorkloadKey> {
    var pk := PodKey(Label(s.labels, "namespace"), Label(s.labels, "pod"));
    if pk in owners then Some(owners[pk]) else None
  }

  function Add(o: Observation, metric: Metric, v: real): Observation {
    match metric
    case CPU => o.(cpu := o.cpu + v)
    case Memory => o.(memory := o.memory + v)
    case OOMKilled => o.(oom := o.oom + Trunc(v))
  }

  // ------------------------------------------------- what a roll-up should be

  function Value(o: Observation, metric: Metric): real {
    match metric
    case CPU => o.cpu
    case Memory => o.memory
    case OOMKilled => o.oom as real
  }

  function Weight(t: Tagged, metric: Metric): real {
    if t.metric != metric then 0.0 else if metric == OOMKilled then Trunc(t.sample.value) as real else t.sample.value
  }

  // The sum of exactly the samples of one metric whose pod belongs to wk.
  function SumFor(owners: Owners, stream: seq<Tagged>, metric: Metric, wk: WorkloadKey): real {
    if stream == [] then 0.0
    else
      var t := stream[|stream| - 1];
      SumFor(owners, stream[..|stream| - 1], metric, wk)
      + if OwnerOf(owners, t.sample) == Some(wk) then Weight(t, metric) else 0.0
  }

  // The sum of the samples of one metric that have an owner at all.
  function OwnedSum(owners: Owners, stream: seq<Tagged>, metric: Metric): real {
    if stream == [] then 0.0
    else
      var t := stream[|stream| - 1];
      OwnedSum(owners, stream[..|stream| - 1], metric)
      + if OwnerOf(owners, t.sample).Some? then Weight(t, metric) else 0.0
  }

  // The first sample of the workload, whatever its metric.
  function FirstOf(owners: Owners, stream: seq<Tagged>, wk: WorkloadKey): Option<Sample> {
    if stream == [] then None
    else
      var first := FirstOf(owners, stream[..|stream| - 1], wk);
      var t := stream[|stream| - 1];
      if first.None? && OwnerOf(owners, t.sample) == Some(wk) then Some(t.sample) else first
  }

  ghost predicate Rolls(owners: Owners, stream: seq<Tagged>, byWorkload: map<WorkloadKey, Observation>) {
    && (forall wk :: wk in byWorkload <==> FirstOf(owners, stream, wk).Some?)
    && forall wk | wk in byWorkload :: RollsOne(owners, stream, wk, byWorkload[wk])
  }

  ghost predicate RollsOne(owners: Owners, stream: seq<Tagged>, wk: WorkloadKey, o: Observation) {
    && o.Key() == wk
    && (forall metric :: Value(o, metric) == SumFor(owners, stream, metric, wk))
    && FirstOf(owners, stream, wk).Some? && o.at == FirstOf(owners, stream, wk).value.at
  }

  lemma OtherUnchanged(owners: Owners, stream: seq<Tagged>, t: Tagged, wk: WorkloadKey, o: Observation)
    requires RollsOne(owners, stream, wk, o) && OwnerOf(owners, t.sample) != Some(wk)
    ensures RollsOne(owners, stream + [t], wk, o)
  {
    assert (stream + [t])[..|stream|] == stream;
  }

  lemma OneMore(owners: Owners, stream: seq<Tagged>, t: Tagged, wk: WorkloadKey, o: Observation)
    requires RollsOne(owners, stream, wk, o) && OwnerOf(owners, t.sample) == Some(wk)
    ensures RollsOne(owners, stream + [t], wk, Add(o, t.metric, t.sample.value))
  {
    assert (stream + [t])[..|stream|] == stream;
  }

  lemma {:induction false} NoneYet(owners: Owners, stream: seq<Tagged>, metric: Metric, wk: WorkloadKey)
    requires FirstOf(owners, stream, wk).None?
    ensures SumFor(owners, stream, metric, wk) == 0.0
  {
    if stream != [] {
      NoneYet(owners, stream[..|stream| - 1], metric, wk);
    }
  }

  lemma FirstOne(owners: Owners, stream: seq<Tagged>, t: Tagged, wk: WorkloadKey)
    requires FirstOf(owners, stream, wk).None? && OwnerOf(owners, t.sample) == Some(wk)
    ensures RollsOne(owners, stream + [t], wk, Add(Blank(wk, t.sample.at), t.metric, t.sample.value))
  {
    assert (stream + [t])[..|stream|] == stream;
    forall metric ensures SumFor(owners, stream, metric, wk) == 0.0 {
      NoneYet(owners, stream, metric, wk);
    }
  }

  function Blank(wk: WorkloadKey, at: Option<int>): Observation {
    Observation(wk.namespace, wk.kind, wk.name, 0.0, 0.0, 0, at)
  }

  function Tag(samples: seq<Sample>, metric: Metric): seq<Tagged> {
    seq(|samples|, i requires 0 <= i < |samples| => Tagged(metric, samples[i]))
  }

  // What one scrape sees: the samples of the queries that worked, in query order.
  function Stream<E>(
    cpu: Result<seq<Sample>, E>, memory: Result<seq<Sample>, E>, oom: Result<seq<Sample>, E>): seq<Tagged>
  {
    Got(cpu, CPU) + Got(memory, Memory) + Got(oom, OOMKilled)
  }

  function Got<E>(r: Result<seq<Sample>, E>, metric: Metric): seq<Tagged> {
    if r.Ok? then Tag(r.value, metric) else []
  }

  function LastError<E>(
    cpu: Result<seq<Sample>, E>, memory: Result<seq<Sample>, E>, oom: Result<seq<Sample>, E>): Option<E>
  {
    if oom.Err? then Some(oom.error) else if memory.Err? then Some(memory.error)
    else if cpu.Err? then Some(cpu.error) else None
  }

  // ------------------------------------------------- the scraper

  class Scraper {
    var owners: Owners

    constructor (owners: Owners)
      ensures this.owners == owners
    {
      this.owners := owners;
    }

    method SetPodOwners(owners: Owners)
      modifies this
      ensures this.owners == owners
    {
      this.owners := owners;
    }

    method Apply(
      byWorkload: map<WorkloadKey, Observation>, ghost before: seq<Tagged>, samples: seq<Sample>, metric: Metric)
      returns (after: map<WorkloadKey, Observation>)
      requires Rolls(owners, before, byWorkload)
      ensures Rolls(owners, before + Tag(samples, metric), after)
    {
      after := byWorkload;
      ghost var all := Tag(samples, metric);
      assert before + all[..0] == before;
      for i := 0 to |samples|
        invariant Rolls(owners, before + all[..i], after)
      {
        var s := samples[i];
        ghost var seen, t := before + all[..i], Tagged(metric, s);
        assert before + all[..i + 1] == seen + [t];
        assert (seen + [t])[..|seen|] == seen;
        var owner := OwnerOf(owners, s);
        ghost var was := after;
        if owner.Some? {
          var wk := owner.value;
          if wk !in after {
            FirstOne(owners, seen, t, wk);
            after := after[wk := Blank(wk, s.at)];
          } else {
            OneMore(owners, seen, t, wk, after[wk]);
          }
          after := after[wk := Add(after[wk], metric, s.value)];
        }
        forall wk | wk in was && owner != Some(wk) ensures RollsOne(owners, seen + [t], wk, after[wk]) {
          OtherUnchanged(owners, seen, t, wk, was[wk]);
        }
      }
      assert all[..|samples|] == all;
    }

    method Scrape<E>(
      cpu: Result<seq<Sample>, E>, memory: Result<seq<Sample>, E>, oom: Result<seq<Sample>, E>, now: int)
      returns (out: seq<Observation>, lastErr: Option<E>)
      ensures IsScrape(owners, Stream(cpu, memory, oom), now, out)
      ensures lastErr == LastError(cpu, memory, oom)
    {
      lastErr := None;
      var byWorkload: map<WorkloadKey, Observation> := map[];
      ghost var stream := [];
      if cpu.Err? {
        lastErr := Some(cpu.error);
        assert stream + Got(cpu, CPU) == stream;
      } else {
        byWorkload := Apply(byWorkload, stream, cpu.value, CPU);
      }
      stream := stream + Got(cpu, CPU);
      assert Rolls(owners, stream, byWorkload);
      if memory.Err? {
        lastErr := Some(memory.error);
        assert stream + Got(memory, Memory) == stream;
      } else {
        byWorkload := Apply(byWorkload, stream, memory.value, Memory);
      }
      stream := stream + Got(memory, Memory);
      assert Rolls(owners, stream, byWorkload);
      if oom.Err? {
        lastErr := Some(oom.error);
        assert stream + Got(oom, OOMKilled) == stream;
      } else {
        byWorkload := Apply(byWorkload, stream, oom.value, OOMKilled);
      }
      stream := stream + Got(oom, OOMKilled);
      assert Rolls(owners, stream, byWorkload);
      assert [] + Got(cpu, CPU) == Got(cpu, CPU) && stream == Stream(cpu, memory, oom);
      out := Collect(byWorkload, now);
      ScrapeOf(owners, stream, now, byWorkload, out);
    }
  }

  method Collect(byWorkload: map<WorkloadKey, Observation>, now: int) returns (out: seq<Observation>)
    requires forall wk | wk in byWorkload :: byWorkload[wk].Key() == wk
    ensures Sorted(out, FIELDS)
    ensures forall o :: o in out <==> Collected(byWorkload, now, o)
  {
    out := [];
    var keys := byWorkload.Keys;
    while keys != {}
      invariant keys <= byWorkload.Keys
      invariant forall o :: o in out <==> o.Key() !in keys && Collected(byWorkload, now, o)
      invariant forall i, j | 0 <= i < j < |out| :: out[i].Key() != out[j].Key()
    {
      var wk :| wk in keys;
      keys := keys - {wk};
      out := out + [Stamped(byWorkload[wk], now)];
    }
    assert forall i, j | 0 <= i < j < |out| :: FIELDS(out[i])[2] == out[j].name ==> FIELDS(out[i]) != FIELDS(out[j]);
    out := Sort(out, FIELDS);
  }

  predicate Collected(byWorkload: map<WorkloadKey, Observation>, now: int, o: Observation) {
    o.Key() in byWorkload && o == Stamped(byWorkload[o.Key()], now)
  }

  lemma ScrapeOf(
    owners: Owners, stream: seq<Tagged>, now: int, byWorkload: map<WorkloadKey, Observation>, out: seq<Observation>)
    requires Rolls(owners, stream, byWorkload) && Sorted(out, FIELDS)
    requires forall o :: o in out <==> Collected(byWorkload, now, o)
    ensures IsScrape(owners, stream, now, out)
  {
    forall wk | wk in byWorkload ensures exists o | o in out :: o.Key() == wk {
      assert Collected(byWorkload, now, Stamped(byWorkload[wk], now));
    }
    forall o | o in out
      ensures FirstOf(owners, stream, o.Key()).Some?
      ensures forall metric :: Value(o, metric) == SumFor(owners, stream, metric, o.Key())
      ensures o.at == Stamped(Blank(o.Key(), FirstOf(owners, stream, o.Key()).value.at), now).at
    {
      var was := byWorkload[o.Key()];
      assert RollsOne(owners, stream, o.Key(), was);
      assert forall metric :: Value(o, metric) == Value(was, metric);
    }
  }

  function Stamped(o: Observation, now: int): Observation {
    if o.at.None? then o.(at := Some(now)) else o
  }

  // One observation for each workload with a sample, holding the sum of its
  // samples for every metric and the time of the first, in strict key order.
  ghost predicate IsScrape(owners: Owners, stream: seq<Tagged>, now: int, out: seq<Observation>) {
    && Sorted(out, FIELDS)
    && (forall wk | FirstOf(owners, stream, wk).Some? :: exists o | o in out :: o.Key() == wk)
    && forall o | o in out ::
         && FirstOf(owners, stream, o.Key()).Some?
         && (forall metric :: Value(o, metric) == SumFor(owners, stream, metric, o.Key()))
         && o.at == Stamped(Blank(o.Key(), FirstOf(owners, stream, o.Key()).value.at), now).at
  }

  // ------------------------------------------------- conservation

  function Total(out: seq<Observation>, metric: Metric): real {
    if out == [] then 0.0 else Total(out[..|out| - 1], metric) + Value(out[|out| - 1], metric)
  }

  // The share of the stream that belongs to some of the workloads.
  function Share(owners: Owners, stream: seq<Tagged>, metric: Metric, out: seq<Observation>): real {
    if out == [] then 0.0
    else Share(owners, stream, metric, out[..|out| - 1]) + SumFor(owners, stream, metric, out[|out| - 1].Key())
  }

  lemma {:induction false} TotalIsShare(owners: Owners, stream: seq<Tagged>, metric: Metric, out: seq<Observation>)
    requires forall o | o in out :: Value(o, metric) == SumFor(owners, stream, metric, o.Key())
    ensures Total(out, metric) == Share(owners, stream, metric, out)
  {
    if out != [] {
      TotalIsShare(owners, stream, metric, out[..|out| - 1]);
    }
  }

  ghost predicate DistinctKeys(out: seq<Observation>) {
    forall i, j | 0 <= i < j < |out| :: out[i].Key() != out[j].Key()
  }

  // One more sample adds its weight to the share once, if its owner is listed.
  lemma {:induction false} ShareStep(
    owners: Owners, stream: seq<Tagged>, t: Tagged, metric: Metric, out: seq<Observation>)
    requires DistinctKeys(out)
    ensures Share(owners, stream + [t], metric, out) == Share(owners, stream, metric, out)
              + if exists o | o in out :: OwnerOf(owners, t.sample) == Some(o.Key()) then Weight(t, metric) else 0.0
  {
    if out != [] {
      var init, last := out[..|out| - 1], out[|out| - 1];
      ShareStep(owners, stream, t, metric, init);
      assert (stream + [t])[..|stream|] == stream;
      assert forall o :: o in out <==> o in init || o == last;
    }
  }

  lemma {:induction false} ShareOfNothing(owners: Owners, metric: Metric, out: seq<Observation>)
    ensures Share(owners, [], metric, out) == 0.0
  {
    if out != [] {
      ShareOfNothing(owners, metric, out[..|out| - 1]);
    }
  }

  lemma {:induction false} ShareIsAll(owners: Owners, stream: seq<Tagged>, metric: Metric, out: seq<Observation>)
    requires DistinctKeys(out)
    requires forall t | t in stream && OwnerOf(owners, t.sample).Some? ::
               exists o | o in out :: OwnerOf(owners, t.sample) == Some(o.Key())
    ensures Share(owners, stream, metric, out) == OwnedSum(owners, stream, metric)
    decreases |stream|
  {
    if stream == [] {
      ShareOfNothing(owners, metric, out);
    } else {
      var init, t := stream[..|stream| - 1], stream[|stream| - 1];
      assert stream == init + [t];
      ShareIsAll(owners, init, metric, out);
      ShareStep(owners, init, t, metric, out);
    }
  }

  lemma {:induction false} OwnedIsListed(owners: Owners, stream: seq<Tagged>, t: Tagged, wk: WorkloadKey)
    requires t in stream && OwnerOf(owners, t.sample) == Some(wk)
    ensures FirstOf(owners, stream, wk).Some?
  {
    if t != stream[|stream| - 1] {
      OwnedIsListed(owners, stream[..|stream| - 1], t, wk);
    }
  }

  // Nothing is lost and nothing counted twice: the workloads of a scrape add up
  // to the samples that have an owner.
  lemma ScrapeConserves(owners: Owners, stream: seq<Tagged>, now: int, out: seq<Observation>, metric: Metric)
    requires IsScrape(owners, stream, now, out)
    ensures Total(out, metric) == OwnedSum(owners, stream, metric)
  {
    TotalIsShare(owners, stream, metric, out);
    forall i, j | 0 <= i < j < |out| ensures out[i].Key() != out[j].Key() {
      BeforeTotal(FIELDS(out[i]), FIELDS(out[i]));
    }
    forall t | t in stream && OwnerOf(owners, t.sample).Some?
      ensures exists o | o in out :: OwnerOf(owners, t.sample) == Some(o.Key())
    {
      OwnedIsListed(owners, stream, t, OwnerOf(owners, t.sample).value);
    }
    ShareIsAll(owners, stream, metric, out);
  }

  // The result is a function of the samples: the order in which the map of
  // workloads is read back does not matter.
  lemma ScrapeIsUnique(owners: Owners, stream: seq<Tagged>, now: int, out: seq<Observation>, other: seq<Observation>)
    requires IsScrape(owners, stream, now, out) && IsScrape(owners, stream, now, other)
    ensures out == other
  {
    SameMembers(owners, stream, now, out, other);
    SameMembers(owners, stream, now, other, out);
    SortedUnique(out, other, FIELDS);
  }

  lemma SameMembers(owners: Owners, stream: seq<Tagged>, now: int, out: seq<Observation>, other: seq<Observation>)
    requires IsScrape(owners, stream, now, out) && IsScrape(owners, stream, now, other)
    ensures forall o | o in out :: o in other
  {
    forall o | o in out ensures o in other {
      var twin :| twin in other && twin.Key() == o.Key();
      assert forall metric :: Value(o, metric) == Value(twin, metric);
      assert Value(o, CPU) == Value(twin, CPU) && Value(o, Memory) == Value(twin, Memory);
      assert Value(o, OOMKilled) == Value(twin, OOMKilled);
    }
  }
}
