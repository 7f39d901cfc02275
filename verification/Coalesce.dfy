// ingestion/coalesce/coalesce.go: collapsing pull requests that touch the same
// chart within one window.
module Coalesce {
  import opened Prelude

  datatype Key = Key(tenantID: string, repoOwner: string, repoName: string, chartPath: string) {
    predicate Complete() { tenantID != "" && repoOwner != "" && repoName != "" && chartPath != "" }
  }

  datatype Entry = Entry(prNumber: int, prURL: string, at: int)

  datatype Decision = Dispatch | CoalesceTo(prURL: string, prNumber: int)

  datatype Error = IncompleteKey

  const DAY: int := 24 * 60 * 60 * 1_000_000_000

  class Coalescer {
    const ttl: int
    var seen: map<Key, Entry>

    constructor (ttl: int)
      ensures this.ttl == (if ttl <= 0 then DAY else ttl) && seen == map[]
    {
      this.ttl := if ttl <= 0 then DAY else ttl;
      seen := map[];
    }

    method Observe(k: Key, prNumber: int, prURL: string, now: int) returns (r: Result<Decision, Error>)
      modifies this
      ensures seen == Observed(ttl, old(seen), k, Entry(prNumber, prURL, now)).0
      ensures r == Observed(ttl, old(seen), k, Entry(prNumber, prURL, now)).1
    {
      if !k.Complete() {
        return Err(IncompleteKey);
      }
      if k in seen {
        var e := seen[k];
        if now - e.at < ttl {
          return Ok(CoalesceTo(e.prURL, e.prNumber));
        }
      }
      seen := seen[k := Entry(prNumber, prURL, now)];
      return Ok(Dispatch);
    }

    method Sweep(now: int) returns (dropped: nat)
      modifies this
      ensures seen == Swept(ttl, old(seen), now)
      ensures dropped == |old(seen)| - |seen|
    {
      dropped := 0;
      var keys := seen.Keys;
      while keys != {}
        invariant keys <= old(seen).Keys
        invariant seen == map k | k in old(seen) && (k in keys || now - old(seen)[k].at < ttl) :: old(seen)[k]
        invariant dropped == |old(seen)| - |seen|
      {
        var k :| k in keys;
        keys := keys - {k};
        if now - seen[k].at >= ttl {
          ghost var before := seen;
          seen := seen - {k};
          assert seen.Keys == before.Keys - {k} && |seen.Keys| == |before.Keys| - 1;
          dropped := dropped + 1;
        }
      }
    }
  }

  // ------------------------------------------------- one step

  function Observed(ttl: int, seen: map<Key, Entry>, k: Key, e: Entry): (map<Key, Entry>, Result<Decision, Error>) {
    if !k.Complete() then (seen, Err(IncompleteKey))
    else if k in seen && e.at - seen[k].at < ttl then (seen, Ok(CoalesceTo(seen[k].prURL, seen[k].prNumber)))
    else (seen[k := e], Ok(Dispatch))
  }

  function Swept(ttl: int, seen: map<Key, Entry>, now: int): map<Key, Entry> {
    map k | k in seen && now - seen[k].at < ttl :: seen[k]
  }

  // ------------------------------------------------- histories

  datatype Event = Observe(key: Key, entry: Entry) | Sweep(now: int) {
    function Time(): int { if Observe? then entry.at else now }
  }

  ghost predicate Nondecreasing(events: seq<Event>) {
    forall i, j | 0 <= i < j < |events| :: events[i].Time() <= events[j].Time()
  }

  function After(ttl: int, events: seq<Event>): map<Key, Entry> {
    if events == [] then map[]
    else
      var seen, e := After(ttl, events[..|events| - 1]), events[|events| - 1];
      match e
      case Observe(k, entry) => Observed(ttl, seen, k, entry).0
      case Sweep(now) => Swept(ttl, seen, now)
  }

  // ------------------------------------------------- the rule itself

  // A pull request sent to analysis.
  datatype Dispatched = Dispatched(key: Key, entry: Entry)

  function Latest(log: seq<Dispatched>, k: Key): Option<Entry> {
    if log == [] then None
    else if log[|log| - 1].key == k then Some(log[|log| - 1].entry)
    else Latest(log[..|log| - 1], k)
  }

  // The decision the rule asks for, from the dispatches alone: coalesce with the
  // latest one for the key while it is less than ttl old.
  function Rule(ttl: int, log: seq<Dispatched>, k: Key, now: int): Result<Decision, Error> {
    if !k.Complete() then Err(IncompleteKey)
    else
      match Latest(log, k)
      case Some(e) => if now - e.at < ttl then Ok(CoalesceTo(e.prURL, e.prNumber)) else Ok(Dispatch)
      case None => Ok(Dispatch)
  }

  // The dispatches of a history under the rule. Sweeps play no part.
  function Log(ttl: int, events: seq<Event>): seq<Dispatched> {
    if events == [] then []
    else
      var log, e := Log(ttl, events[..|events| - 1]), events[|events| - 1];
      if e.Observe? && Rule(ttl, log, e.key, e.entry.at) == Ok(Dispatch)
      then log + [Dispatched(e.key, e.entry)] else log
  }

  // The map holds the latest dispatch of every key, except some that have expired.
  ghost predicate Remembers(ttl: int, seen: map<Key, Entry>, log: seq<Dispatched>, now: int) {
    forall k :: match Latest(log, k)
                case None => k !in seen
                case Some(e) => if k in seen then seen[k] == e else now - e.at >= ttl
  }

  lemma LatestAppend(log: seq<Dispatched>, d: Dispatched, k: Key)
    ensures Latest(log + [d], k) == if d.key == k then Some(d.entry) else Latest(log, k)
  {
    assert (log + [d])[..|log|] == log;
  }

  lemma {:induction false} MapRemembers(ttl: int, events: seq<Event>, now: int)
    requires Nondecreasing(events) && (events != [] ==> events[|events| - 1].Time() <= now)
    ensures Remembers(ttl, After(ttl, events), Log(ttl, events), now)
    decreases |events|
  {
    if events != [] {
      var init, e := events[..|events| - 1], events[|events| - 1];
      MapRemembers(ttl, init, e.Time());
      var log := Log(ttl, init);
      if e.Observe? {
        forall k
          ensures Latest(log + [Dispatched(e.key, e.entry)], k) == if e.key == k then Some(e.entry) else Latest(log, k)
        {
          LatestAppend(log, Dispatched(e.key, e.entry), k);
        }
      }
    }
  }

  // Every decision is the rule's, whatever Sweep calls the history contains.
  lemma DecisionsFollowTheRule(ttl: int, events: seq<Event>, k: Key, e: Entry)
    requires Nondecreasing(events + [Observe(k, e)])
    ensures Observed(ttl, After(ttl, events), k, e).1 == Rule(ttl, Log(ttl, events), k, e.at)
  {
    var all := events + [Observe(k, e)];
    assert forall i | 0 <= i < |events| :: all[i] == events[i];
    assert events != [] ==> all[|events| - 1].Time() <= all[|events|].Time();
    MapRemembers(ttl, events, e.at);
  }

  function WithoutSweeps(events: seq<Event>): seq<Event> {
    if events == [] then []
    else
      var init := WithoutSweeps(events[..|events| - 1]);
      if events[|events| - 1].Sweep? then init else init + [events[|events| - 1]]
  }

  lemma {:induction false} SameLog(ttl: int, events: seq<Event>)
    ensures Log(ttl, events) == Log(ttl, WithoutSweeps(events))
    decreases |events|
  {
    if events != [] {
      var init, e := events[..|events| - 1], events[|events| - 1];
      SameLog(ttl, init);
      if e.Observe? {
        assert WithoutSweeps(events)[..|WithoutSweeps(init)|] == WithoutSweeps(init);
      }
    }
  }

  // What is left keeps its order and ends no later.
  lemma {:induction false} StaysOrdered(events: seq<Event>, last: int)
    requires Nondecreasing(events) && (events != [] ==> events[|events| - 1].Time() <= last)
    ensures Nondecreasing(WithoutSweeps(events))
    ensures forall i | 0 <= i < |WithoutSweeps(events)| :: WithoutSweeps(events)[i].Time() <= last
    decreases |events|
  {
    if events != [] {
      StaysOrdered(events[..|events| - 1], events[|events| - 1].Time());
    }
  }

  // The decision of every call is the same without the sweeps before it.
  lemma SweepsDoNotMatter(ttl: int, events: seq<Event>, k: Key, e: Entry)
    requires Nondecreasing(events + [Observe(k, e)])
    ensures Observed(ttl, After(ttl, events), k, e).1 == Observed(ttl, After(ttl, WithoutSweeps(events)), k, e).1
  {
    var all, kept := events + [Observe(k, e)], WithoutSweeps(events);
    assert forall i | 0 <= i < |events| :: all[i] == events[i];
    assert events != [] ==> all[|events| - 1].Time() <= all[|events|].Time();
    DecisionsFollowTheRule(ttl, events, k, e);
    StaysOrdered(events, e.at);
    SameLog(ttl, events);
    assert Nondecreasing(kept + [Observe(k, e)]);
    DecisionsFollowTheRule(ttl, kept, k, e);
  }

  // The dispatches that the calls of a history are answered with.
  function Dispatches(ttl: int, events: seq<Event>): seq<Dispatched> {
    if events == [] then []
    else
      var init, e := events[..|events| - 1], events[|events| - 1];
      Dispatches(ttl, init) +
      if e.Observe? && Observed(ttl, After(ttl, init), e.key, e.entry).1 == Ok(Dispatch)
      then [Dispatched(e.key, e.entry)] else []
  }

  lemma {:induction false} DispatchesAreLogged(ttl: int, events: seq<Event>)
    requires Nondecreasing(events)
    ensures Dispatches(ttl, events) == Log(ttl, events)
    decreases |events|
  {
    if events != [] {
      var init, e := events[..|events| - 1], events[|events| - 1];
      DispatchesAreLogged(ttl, init);
      assert init + [e] == events;
      if e.Observe? {
        DecisionsFollowTheRule(ttl, init, e.key, e.entry);
      }
      assert Log(ttl, init) + [] == Log(ttl, init);
    }
  }

  lemma {:induction false} LatestIsLast(log: seq<Dispatched>, k: Key, i: nat)
    requires i < |log| && log[i].key == k
    ensures Latest(log, k).Some?
    ensures exists j | i <= j < |log| :: log[j] == Dispatched(k, Latest(log, k).value)
    decreases |log|
  {
    var n := |log| - 1;
    if log[n].key != k {
      LatestIsLast(log[..n], k, i);
      var j :| i <= j < n && log[..n][j] == Dispatched(k, Latest(log, k).value);
      assert log[j] == Dispatched(k, Latest(log, k).value);
    } else {
      assert log[n] == Dispatched(k, Latest(log, k).value);
    }
  }

  lemma {:induction false} LogIsSpread(ttl: int, events: seq<Event>)
    requires ttl > 0 && Nondecreasing(events)
    ensures forall i, j | 0 <= i < j < |Log(ttl, events)| && Log(ttl, events)[i].key == Log(ttl, events)[j].key ::
              Log(ttl, events)[j].entry.at - Log(ttl, events)[i].entry.at >= ttl
    decreases |events|
  {
    if events != [] {
      var init, e := events[..|events| - 1], events[|events| - 1];
      LogIsSpread(ttl, init);
      var log, all := Log(ttl, init), Log(ttl, events);
      if |all| > |log| {
        forall i | 0 <= i < |log| && log[i].key == e.key ensures e.entry.at - log[i].entry.at >= ttl {
          LatestIsLast(log, e.key, i);
          var j :| i <= j < |log| && log[j] == Dispatched(e.key, Latest(log, e.key).value);
          assert i < j ==> log[j].entry.at - log[i].entry.at >= ttl;
        }
      }
    }
  }

  // Two dispatches of one key are at least ttl apart.
  lemma DispatchesAreSpread(ttl: int, events: seq<Event>, i: nat, j: nat)
    requires ttl > 0 && Nondecreasing(events) && i < j < |Dispatches(ttl, events)|
    requires Dispatches(ttl, events)[i].key == Dispatches(ttl, events)[j].key
    ensures Dispatches(ttl, events)[j].entry.at - Dispatches(ttl, events)[i].entry.at >= ttl
  {
    DispatchesAreLogged(ttl, events);
    LogIsSpread(ttl, events);
  }
}
