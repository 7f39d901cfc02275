// platform/telemetry/telemetry.go: fixed-boundary histograms and the cumulative
// buckets they are exposed as.
module Telemetry {
  import opened Prelude

  // One exposition line `name_bucket{le=...} count`; None is le="+Inf".
  datatype Bucket = Bucket(le: Option<real>, count: nat)

  ghost predicate StrictlyAscending(xs: seq<real>) {
    forall i, j | 0 <= i < j < |xs| :: xs[i] < xs[j]
  }

  method Ascending(xs: seq<real>) returns (ok: bool)
    ensures ok <==> StrictlyAscending(xs)
  {
    var i := 1;
    while i < |xs|
      invariant 1 <= i <= Max(1, |xs|)
      invariant forall j, k | 0 <= j < k < i && k < |xs| :: xs[j] < xs[k]
    {
      if xs[i] <= xs[i - 1] {
        return false;
      }
      i := i + 1;
    }
    return true;
  }

  // ------------------------------------------------- what the buckets should say

  // Number of observations at or below b.
  function AtMost(observed: seq<real>, b: real): nat {
    if observed == [] then 0
    else AtMost(observed[..|observed| - 1], b) + if observed[|observed| - 1] <= b then 1 else 0
  }

  function Total(observed: seq<real>): real {
    if observed == [] then 0.0 else Total(observed[..|observed| - 1]) + observed[|observed| - 1]
  }

  // The first boundary not below v; the number of boundaries when there is none.
  function BucketOf(boundaries: seq<real>, v: real): (i: nat)
    ensures i <= |boundaries|
    ensures i < |boundaries| ==> v <= boundaries[i]
    ensures forall k | 0 <= k < i :: boundaries[k] < v
  {
    if boundaries == [] || v <= boundaries[0] then 0 else
      var rest := BucketOf(boundaries[1..], v);
      assert forall k | 1 <= k < rest + 1 :: boundaries[k] == boundaries[1..][k - 1];
      rest + 1
  }

  // Per-bucket counts after some observations.
  function Tally(boundaries: seq<real>, observed: seq<real>): (counts: seq<nat>)
    ensures |counts| == |boundaries| + 1
  {
    if observed == [] then seq(|boundaries| + 1, _ => 0)
    else
      var before := Tally(boundaries, observed[..|observed| - 1]);
      var i := BucketOf(boundaries, observed[|observed| - 1]);
      before[i := before[i] + 1]
  }

  function Running(counts: seq<nat>, n: nat): nat
    requires n <= |counts|
  {
    if n == 0 then 0 else Running(counts, n - 1) + counts[n - 1]
  }

  lemma {:induction false} RunningBump(counts: seq<nat>, i: nat, n: nat)
    requires i < |counts| && n <= |counts|
    ensures Running(counts[i := counts[i] + 1], n) == Running(counts, n) + if i < n then 1 else 0
  {
    if n > 0 {
      RunningBump(counts, i, n - 1);
    }
  }

  lemma {:induction false} RunningZeros(counts: seq<nat>, n: nat)
    requires n <= |counts| && forall i | 0 <= i < |counts| :: counts[i] == 0
    ensures Running(counts, n) == 0
  {
    if n > 0 {
      RunningZeros(counts, n - 1);
    }
  }

  // The running sum up to boundary i counts the observations at or below it.
  lemma {:induction false} RunningIsAtMost(boundaries: seq<real>, observed: seq<real>, i: nat)
    requires i < |boundaries|
    requires forall k | 0 <= k < i :: boundaries[k] <= boundaries[i]
    ensures Running(Tally(boundaries, observed), i + 1) == AtMost(observed, boundaries[i])
    decreases |observed|
  {
    if observed == [] {
      RunningZeros(Tally(boundaries, observed), i + 1);
    } else {
      var init, v := observed[..|observed| - 1], observed[|observed| - 1];
      RunningIsAtMost(boundaries, init, i);
      RunningBump(Tally(boundaries, init), BucketOf(boundaries, v), i + 1);
    }
  }

  lemma {:induction false} RunningIsTotal(boundaries: seq<real>, observed: seq<real>)
    ensures Running(Tally(boundaries, observed), |boundaries| + 1) == |observed|
    decreases |observed|
  {
    if observed == [] {
      RunningZeros(Tally(boundaries, observed), |boundaries| + 1);
    } else {
      var init, v := observed[..|observed| - 1], observed[|observed| - 1];
      RunningIsTotal(boundaries, init);
      RunningBump(Tally(boundaries, init), BucketOf(boundaries, v), |boundaries| + 1);
    }
  }

  lemma {:induction false} AtMostGrows(observed: seq<real>, low: real, high: real)
    requires low <= high
    ensures AtMost(observed, low) <= AtMost(observed, high) <= |observed|
    decreases |observed|
  {
    if observed != [] {
      AtMostGrows(observed[..|observed| - 1], low, high);
    }
  }

  ghost predicate Cumulates(boundaries: seq<real>, observed: seq<real>) {
    forall i | 0 <= i < |boundaries| ::
      Running(Tally(boundaries, observed), i + 1) == AtMost(observed, boundaries[i])
  }

  // Why the constructor checks its boundaries: the buckets are right for every
  // history exactly when no boundary is below an earlier one.
  lemma CumulatesIffOrdered(boundaries: seq<real>)
    ensures (forall observed :: Cumulates(boundaries, observed))
       <==> forall i, j | 0 <= i < j < |boundaries| :: boundaries[i] <= boundaries[j]
  {
    if i, j :| 0 <= i < j < |boundaries| && boundaries[i] > boundaries[j] {
      var observed := [boundaries[i]];
      var b := BucketOf(boundaries, boundaries[i]);
      assert observed[..0] == [];
      var zeros := Tally(boundaries, []);
      RunningZeros(zeros, j + 1);
      RunningBump(zeros, b, j + 1);
      assert Tally(boundaries, observed) == zeros[b := zeros[b] + 1];
      assert AtMost(observed, boundaries[j]) == AtMost([], boundaries[j]) + 0;
      assert !Cumulates(boundaries, observed);
    } else {
      forall observed ensures Cumulates(boundaries, observed) {
        forall i | 0 <= i < |boundaries|
          ensures Running(Tally(boundaries, observed), i + 1) == AtMost(observed, boundaries[i])
        {
          RunningIsAtMost(boundaries, observed, i);
        }
      }
    }
  }

  // ------------------------------------------------- the histogram

  class Histogram {
    const boundaries: seq<real>
    const counts: array<nat>
    var sum: real
    var total: nat
    // Every value given to Observe so far.
    ghost var observed: seq<real>

    ghost predicate Valid()
      reads this, counts
    {
      && StrictlyAscending(boundaries)
      && counts[..] == Tally(boundaries, observed)
      && sum == Total(observed)
      && total == |observed|
    }

    constructor (boundaries: seq<real>)
      requires StrictlyAscending(boundaries)
      ensures Valid() && fresh(counts)
      ensures this.boundaries == boundaries && observed == []
    {
      this.boundaries := boundaries;
      counts := new nat[|boundaries| + 1](_ => 0);
      sum, total, observed := 0.0, 0, [];
      new;
      assert counts[..] == Tally(boundaries, []);
    }

    method Observe(v: real)
      requires Valid()
      modifies this, counts
      ensures Valid()
      ensures observed == old(observed) + [v]
    {
      sum := sum + v;
      total := total + 1;
      observed := observed + [v];
      assert observed[..|observed| - 1] == old(observed);
      for i := 0 to |boundaries|
        invariant counts[..] == old(counts[..])
        invariant forall k | 0 <= k < i :: boundaries[k] < v
      {
        if v <= boundaries[i] {
          assert BucketOf(boundaries, v) == i;
          counts[i] := counts[i] + 1;
          assert counts[..] == old(counts[..])[i := old(counts[..])[i] + 1];
          return;
        }
      }
      assert BucketOf(boundaries, v) == |boundaries|;
      var last := counts.Length - 1;
      counts[last] := counts[last] + 1;
      assert counts[..] == old(counts[..])[last := old(counts[..])[last] + 1];
    }

    // The bucket lines WriteText prints, from a snapshot.
    method Buckets() returns (lines: seq<Bucket>)
      requires Valid()
      ensures |lines| == |boundaries| + 1
      ensures forall i | 0 <= i < |boundaries| ::
                lines[i] == Bucket(Some(boundaries[i]), AtMost(observed, boundaries[i]))
      ensures lines[|boundaries|] == Bucket(None, total) && total == |observed|
      ensures forall i, j | 0 <= i < j < |lines| :: lines[i].count <= lines[j].count
    {
      lines := [];
      var cum: nat := 0;
      for i := 0 to |boundaries|
        invariant |lines| == i && cum == Running(counts[..], i)
        invariant forall k | 0 <= k < i ::
                    lines[k] == Bucket(Some(boundaries[k]), AtMost(observed, boundaries[k]))
      {
        cum := cum + counts[i];
        RunningIsAtMost(boundaries, observed, i);
        lines := lines + [Bucket(Some(boundaries[i]), cum)];
      }
      cum := cum + counts[counts.Length - 1];
      RunningIsTotal(boundaries, observed);
      lines := lines + [Bucket(None, cum)];
      forall i, j | 0 <= i < j < |lines| ensures lines[i].count <= lines[j].count {
        AtMostGrows(observed, boundaries[i], if j < |boundaries| then boundaries[j] else boundaries[i]);
      }
    }
  }

  class Registry {
    var histograms: map<string, Histogram>

    constructor ()
      ensures histograms == map[]
    {
      histograms := map[];
    }

    // A second registration under the same key returns the first histogram,
    // whatever boundaries it asks for. None where the source panics.
    method NewHistogram(key: string, boundaries: seq<real>) returns (r: Option<Histogram>)
      modifies this
      ensures r.Some? <==> StrictlyAscending(boundaries)
      ensures r.None? ==> histograms == old(histograms)
      ensures r.Some? ==> histograms == old(histograms)[key := r.value]
      ensures r.Some? && key in old(histograms) ==> r.value == old(histograms)[key]
      ensures r.Some? && key !in old(histograms) ==>
                fresh(r.value) && r.value.Valid() && r.value.boundaries == boundaries && r.value.observed == []
    {
      var ok := Ascending(boundaries);
      if !ok {
        return None;
      }
      if key in histograms {
        return Some(histograms[key]);
      }
      var h := new Histogram(boundaries);
      histograms := histograms[key := h];
      return Some(h);
    }
  }
}
