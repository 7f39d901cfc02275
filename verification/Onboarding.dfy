// onboarding/state.go and store.go: the onboarding stages of a tenant and the
// service that stores them.
module Onboarding {
  import opened Prelude

  datatype Stage =
    | SignedUp | VCSConnected | RepoSelected | FirstPRAnalyzed | AgentInstalled | FirstApplyFix | FirstReceipt
    | Unknown(name: string)

  const STAGES: seq<Stage> :=
    [SignedUp, VCSConnected, RepoSelected, FirstPRAnalyzed, AgentInstalled, FirstApplyFix, FirstReceipt]

  datatype Error = IllegalTransition | EmptyTenant | TenantNotFound

  function Index(s: Stage): (i: int)
    ensures -1 <= i < |STAGES|
    ensures i >= 0 ==> STAGES[i] == s
    ensures i < 0 ==> s !in STAGES
  {
    match s
    case SignedUp => 0
    case VCSConnected => 1
    case RepoSelected => 2
    case FirstPRAnalyzed => 3
    case AgentInstalled => 4
    case FirstApplyFix => 5
    case FirstReceipt => 6
    case Unknown(_) => -1
  }

  method FindIndex(s: Stage) returns (i: int)
    ensures i == Index(s)
  {
    i := 0;
    while i < |STAGES|
      invariant 0 <= i <= |STAGES|
      invariant forall k | 0 <= k < i :: STAGES[k] != s
    {
      if STAGES[i] == s {
        return;
      }
      i := i + 1;
    }
    return -1;
  }

  // The value of a State: what the store keeps.
  datatype Record = Record(current: Stage, reached: map<Stage, int>) {
    predicate Activated(window: int) {
      SignedUp in reached && FirstApplyFix in reached && reached[FirstApplyFix] - reached[SignedUp] <= window
    }

    function TimeToFirstReceipt(): Option<int> {
      if AgentInstalled in reached && FirstReceipt in reached
      then Some(reached[FirstReceipt] - reached[AgentInstalled])
      else None
    }

    function ProgressPercent(): int {
      if Index(current) < 0 then 0 else Index(current) * 100 / (|STAGES| - 1)
    }
  }

  function Fresh(t: int): Record {
    Record(SignedUp, map[SignedUp := t])
  }

  function Advanced(r: Record, next: Stage, t: int): Result<Record, Error> {
    if Index(next) < 0 || Index(next) < Index(r.current) then Err(IllegalTransition)
    else Ok(Record(next, if next in r.reached then r.reached else r.reached[next := t]))
  }

  class State {
    var current: Stage
    var reached: map<Stage, int>

    constructor (r: Record)
      ensures Value() == r
    {
      current, reached := r.current, r.reached;
    }

    function Value(): Record
      reads this
    {
      Record(current, reached)
    }

    method Advance(next: Stage, t: int) returns (failed: Option<Error>)
      modifies this
      ensures match Advanced(old(Value()), next, t)
              case Ok(r) => failed.None? && Value() == r
              case Err(e) => failed == Some(e) && Value() == old(Value())
    {
      var curIdx := FindIndex(current);
      var nextIdx := FindIndex(next);
      if nextIdx < 0 {
        return Some(IllegalTransition);
      }
      if nextIdx < curIdx {
        return Some(IllegalTransition);
      }
      current := next;
      if next !in reached {
        reached := reached[next := t];
      }
      return None;
    }
  }

  // ------------------------------------------------- the service

  class InMemoryStore {
    var m: map<string, Record>

    constructor ()
      ensures m == map[]
    {
      m := map[];
    }

    method Get(tenant: string) returns (r: Result<Record, Error>)
      ensures r == if tenant in m then Ok(m[tenant]) else Err(TenantNotFound)
    {
      if tenant !in m {
        return Err(TenantNotFound);
      }
      return Ok(m[tenant]);
    }

    method Put(tenant: string, st: Record) returns (failed: Option<Error>)
      modifies this
      ensures if tenant == "" then failed == Some(EmptyTenant) && m == old(m)
              else failed.None? && m == old(m)[tenant := st]
    {
      if tenant == "" {
        return Some(EmptyTenant);
      }
      m := m[tenant := st];
      return None;
    }
  }

  // One call of the service. `now` is the clock at the lazy creation of the
  // record, `later` the clock at the transition.
  datatype Event =
    | Visit(tenant: string, now: int)
    | Request(tenant: string, now: int, next: Stage, later: int)

  function Visited(m: map<string, Record>, tenant: string, now: int): (map<string, Record>, Result<Record, Error>) {
    if tenant == "" then (m, Err(EmptyTenant))
    else if tenant in m then (m, Ok(m[tenant]))
    else (m[tenant := Fresh(now)], Ok(Fresh(now)))
  }

  function Served(m: map<string, Record>, e: Event): (map<string, Record>, Result<Record, Error>) {
    var (seen, got) := Visited(m, e.tenant, e.now);
    if e.Visit? || got.Err? then (seen, got)
    else
      match Advanced(got.value, e.next, e.later)
      case Ok(r) => (seen[e.tenant := r], Ok(r))
      case Err(error) => (seen, Err(error))
  }

  class Service {
    const store: InMemoryStore

    constructor (store: InMemoryStore)
      ensures this.store == store
    {
      this.store := store;
    }

    method Get(tenant: string, now: int) returns (r: Result<Record, Error>)
      modifies store
      ensures (store.m, r) == Served(old(store.m), Visit(tenant, now))
    {
      if tenant == "" {
        return Err(EmptyTenant);
      }
      r := store.Get(tenant);
      if r == Err(TenantNotFound) {
        var st := Fresh(now);
        var failed := store.Put(tenant, st);
        match failed
        case Some(error) => return Err(error);
        case None => return Ok(st);
      }
    }

    method Transition(tenant: string, now: int, next: Stage, later: int) returns (r: Result<Record, Error>)
      modifies store
      ensures (store.m, r) == Served(old(store.m), Request(tenant, now, next, later))
    {
      var got := Get(tenant, now);
      if got.Err? {
        return got;
      }
      var st := new State(got.value);
      var failed := st.Advance(next, later);
      if failed.Some? {
        return Err(failed.value);
      }
      failed := store.Put(tenant, st.Value());
      match failed
      case Some(error) => return Err(error);
      case None => return Ok(st.Value());
    }
  }

  // ------------------------------------------------- runs

  function After(events: seq<Event>): map<string, Record> {
    if events == [] then map[] else Served(After(events[..|events| - 1]), events[|events| - 1]).0
  }

  // The stage index a call asks for on behalf of a tenant; -1 for other tenants.
  function Target(e: Event, tenant: string): int {
    if e.tenant != tenant then -1 else if e.Visit? then 0 else Max(0, Index(e.next))
  }

  // The first call that asks for stage i or a later one.
  function First(events: seq<Event>, tenant: string, i: nat): (k: nat)
    ensures k <= |events|
    ensures k < |events| ==> Target(events[k], tenant) >= i
    ensures forall j | 0 <= j < k :: Target(events[j], tenant) < i
  {
    if events == [] then 0
    else
      var init := events[..|events| - 1];
      var k := First(init, tenant, i);
      if k < |init| || Target(events[|init|], tenant) >= i then k else |events|
  }

  // Stage i counts as reached when the first call asking for it or a later one
  // asks for exactly it, and then at the time of that call.
  ghost predicate ToldStage(r: Record, events: seq<Event>, tenant: string, i: nat)
    requires 1 <= i < |STAGES|
  {
    var k := First(events, tenant, i);
    && (Index(r.current) >= i <==> k < |events|)
    && (STAGES[i] in r.reached <==> k < |events| && Target(events[k], tenant) == i)
    && (STAGES[i] in r.reached ==> events[k].Request? && r.reached[STAGES[i]] == events[k].later)
  }

  // The whole record is decided by the calls alone.
  ghost predicate Told(r: Record, events: seq<Event>, tenant: string) {
    && Index(r.current) >= 0 && r.current in r.reached
    && (forall s | s in r.reached :: Index(s) >= 0)
    && First(events, tenant, 0) < |events|
    && SignedUp in r.reached && r.reached[SignedUp] == events[First(events, tenant, 0)].now
    && forall i: nat | 1 <= i < |STAGES| :: ToldStage(r, events, tenant, i)
  }

  lemma StageIndex(i: nat)
    requires i < |STAGES|
    ensures Index(STAGES[i]) == i
  {
  }

  // A call either asks for nothing new or advances the record.
  predicate Leads(r: Record, e: Event, tenant: string, after: Record) {
    || (after == r && Target(e, tenant) <= Index(r.current))
    || (e.Request? && e.tenant == tenant && Advanced(r, e.next, e.later) == Ok(after))
  }

  lemma StageStep(r: Record, after: Record, init: seq<Event>, e: Event, tenant: string, i: nat)
    requires 1 <= i < |STAGES| && ToldStage(r, init, tenant, i)
    requires Index(r.current) >= 0 && r.current in r.reached
    requires Leads(r, e, tenant, after)
    ensures ToldStage(after, init + [e], tenant, i)
  {
    assert (init + [e])[..|init|] == init;
    StageIndex(i);
    if e.Request? && Index(e.next) != i {
      assert after == r || (STAGES[i] in after.reached <==> STAGES[i] in r.reached);
    }
  }

  lemma SignupStep(init: seq<Event>, e: Event, tenant: string)
    ensures First(init + [e], tenant, 0) ==
            if First(init, tenant, 0) < |init| || e.tenant == tenant then First(init, tenant, 0) else |init| + 1
  {
    assert (init + [e])[..|init|] == init;
  }

  // Before the first call for a tenant, a fresh record says just as much.
  lemma FreshTold(events: seq<Event>, tenant: string, t: int, i: nat)
    requires 1 <= i < |STAGES| && First(events, tenant, 0) == |events|
    ensures ToldStage(Fresh(t), events, tenant, i)
  {
  }

  lemma ServedLeads(m: map<string, Record>, e: Event, tenant: string)
    requires tenant != "" && tenant in Served(m, e).0
    requires tenant in m ==> Index(m[tenant].current) >= 0
    ensures tenant in m || e.tenant == tenant
    ensures Leads(if tenant in m then m[tenant] else Fresh(e.now), e, tenant, Served(m, e).0[tenant])
  {
  }

  lemma RecordStep(r: Record, after: Record, init: seq<Event>, e: Event, tenant: string)
    requires if First(init, tenant, 0) < |init| then Told(r, init, tenant) else e.tenant == tenant && r == Fresh(e.now)
    requires Leads(r, e, tenant, after)
    ensures Told(after, init + [e], tenant)
  {
    SignupStep(init, e, tenant);
    forall i: nat | 1 <= i < |STAGES| ensures ToldStage(after, init + [e], tenant, i) {
      if First(init, tenant, 0) == |init| {
        FreshTold(init, tenant, e.now, i);
      }
      StageStep(r, after, init, e, tenant, i);
    }
  }

  lemma {:induction false} RecordsTold(events: seq<Event>, tenant: string)
    requires tenant != ""
    ensures tenant in After(events) <==> First(events, tenant, 0) < |events|
    ensures tenant in After(events) ==> Told(After(events)[tenant], events, tenant)
    decreases |events|
  {
    if events != [] {
      var init, e := events[..|events| - 1], events[|events| - 1];
      assert events == init + [e];
      RecordsTold(init, tenant);
      SignupStep(init, e, tenant);
      if tenant in After(events) {
        var m := After(init);
        ServedLeads(m, e, tenant);
        RecordStep(if tenant in m then m[tenant] else Fresh(e.now), After(events)[tenant], init, e, tenant);
      }
    }
  }

  // ------------------------------------------------- what follows for whole runs

  lemma {:induction false} FirstStays(events: seq<Event>, more: seq<Event>, tenant: string, i: nat)
    ensures First(events, tenant, i) < |events| ==> First(events + more, tenant, i) == First(events, tenant, i)
    decreases |more|
  {
    if more == [] {
      assert events + more == events;
    } else {
      assert (events + more)[..|events + more| - 1] == events + more[..|more| - 1];
      FirstStays(events, more[..|more| - 1], tenant, i);
    }
  }

  // No later call moves a tenant back, forgets an arrival or changes its time, or
  // adds an arrival at a stage already passed.
  lemma ProgressIsKept(events: seq<Event>, more: seq<Event>, tenant: string)
    requires tenant != "" && tenant in After(events)
    ensures tenant in After(events + more)
    ensures var r, later := After(events)[tenant], After(events + more)[tenant];
            && Index(r.current) <= Index(later.current)
            && later.reached.Keys >= r.reached.Keys
            && (forall s | s in r.reached :: later.reached[s] == r.reached[s])
            && (forall s | s in later.reached && Index(s) <= Index(r.current) :: s in r.reached)
            && 0 <= r.ProgressPercent() <= later.ProgressPercent() <= 100
            && (later.ProgressPercent() == 100 <==> later.current == FirstReceipt)
  {
    RecordsTold(events, tenant);
    FirstStays(events, more, tenant, 0);
    RecordsTold(events + more, tenant);
    var r, later := After(events)[tenant], After(events + more)[tenant];
    forall i: nat | i < |STAGES|
      ensures i <= Index(r.current) ==> i <= Index(later.current)
      ensures STAGES[i] in r.reached ==> STAGES[i] in later.reached && later.reached[STAGES[i]] == r.reached[STAGES[i]]
      ensures STAGES[i] in later.reached && i <= Index(r.current) ==> STAGES[i] in r.reached
    {
      StageKept(r, later, events, more, tenant, i);
    }
    assert forall s | s in r.reached :: STAGES[Index(s)] == s;
    assert forall s | s in later.reached :: STAGES[Index(s)] == s;
  }

  lemma StageKept(r: Record, later: Record, events: seq<Event>, more: seq<Event>, tenant: string, i: nat)
    requires i < |STAGES| && Told(r, events, tenant) && Told(later, events + more, tenant)
    ensures i <= Index(r.current) ==> i <= Index(later.current)
    ensures STAGES[i] in r.reached ==> STAGES[i] in later.reached && later.reached[STAGES[i]] == r.reached[STAGES[i]]
    ensures STAGES[i] in later.reached && i <= Index(r.current) ==> STAGES[i] in r.reached
  {
    FirstStays(events, more, tenant, i);
    if i > 0 {
      assert ToldStage(r, events, tenant, i) && ToldStage(later, events + more, tenant, i);
    } else {
      assert STAGES[0] == SignedUp;
    }
  }

  // Once first_apply_fix is reached or passed, no later call changes the verdict;
  // a verdict of "activated" is final in any case.
  lemma ActivationIsSettled(events: seq<Event>, more: seq<Event>, tenant: string, window: int)
    requires tenant != "" && tenant in After(events)
    ensures tenant in After(events + more)
    ensures var r, later := After(events)[tenant], After(events + more)[tenant];
            && (Index(r.current) >= 5 ==> later.Activated(window) == r.Activated(window))
            && (r.Activated(window) ==> later.Activated(window))
  {
    ProgressIsKept(events, more, tenant);
    RecordsTold(events, tenant);
  }

  // The clock never runs backwards, within a call or between calls.
  ghost predicate Clocked(events: seq<Event>) {
    && (forall e | e in events && e.Request? :: e.now <= e.later)
    && forall i, j | 0 <= i < j < |events| ::
         (if events[i].Request? then events[i].later else events[i].now) <= events[j].now
  }

  lemma FirstGrows(events: seq<Event>, tenant: string, i: nat, j: nat)
    requires i <= j
    ensures First(events, tenant, i) <= First(events, tenant, j)
  {
  }

  // When the call that leads to stage i is made: the first one for the tenant, or the
  // first one that asks for the stage or more.
  function ArrivalTime(events: seq<Event>, tenant: string, i: nat): int
    requires First(events, tenant, i) < |events|
  {
    var e := events[First(events, tenant, i)];
    if i > 0 && e.Request? then e.later else e.now
  }

  lemma ArrivedAt(events: seq<Event>, tenant: string, i: nat)
    requires tenant != "" && tenant in After(events) && i < |STAGES| && STAGES[i] in After(events)[tenant].reached
    ensures First(events, tenant, i) < |events|
    ensures After(events)[tenant].reached[STAGES[i]] == ArrivalTime(events, tenant, i)
  {
    RecordsTold(events, tenant);
    if i > 0 {
      assert ToldStage(After(events)[tenant], events, tenant, i);
    } else {
      assert STAGES[0] == SignedUp;
    }
  }

  lemma ClockedTimes(events: seq<Event>, tenant: string, i: nat, j: nat)
    requires Clocked(events) && i <= j && First(events, tenant, j) < |events|
    ensures First(events, tenant, i) < |events|
    ensures ArrivalTime(events, tenant, i) <= ArrivalTime(events, tenant, j)
  {
    FirstGrows(events, tenant, i, j);
    assert events[First(events, tenant, i)] in events && events[First(events, tenant, j)] in events;
  }

  // Arrivals are in stage order, so the time from agent to receipt is no negative number.
  lemma ArrivalsInOrder(events: seq<Event>, tenant: string, i: nat, j: nat)
    requires tenant != "" && tenant in After(events) && Clocked(events)
    requires i <= j < |STAGES|
    ensures var r := After(events)[tenant];
            STAGES[i] in r.reached && STAGES[j] in r.reached ==> r.reached[STAGES[i]] <= r.reached[STAGES[j]]
  {
    var r := After(events)[tenant];
    if STAGES[i] in r.reached && STAGES[j] in r.reached {
      ArrivedAt(events, tenant, i);
      ArrivedAt(events, tenant, j);
      ClockedTimes(events, tenant, i, j);
    }
  }

  lemma ReceiptAfterAgent(events: seq<Event>, tenant: string)
    requires tenant != "" && tenant in After(events) && Clocked(events)
    ensures var t := After(events)[tenant].TimeToFirstReceipt(); t.Some? ==> t.value >= 0
  {
    ArrivalsInOrder(events, tenant, 4, 6);
  }

  // The activation verdict read off the calls: some call asks for first_apply_fix
  // before any asks for more, and within the window of the tenant's first call.
  lemma ActivatedMeans(events: seq<Event>, tenant: string, window: int)
    requires tenant != "" && tenant in After(events)
    ensures var signup, k := First(events, tenant, 0), First(events, tenant, 5);
            After(events)[tenant].Activated(window) <==>
            k < |events| && Target(events[k], tenant) == 5 && events[k].Request?
            && events[k].later - events[signup].now <= window
  {
    RecordsTold(events, tenant);
    assert STAGES[5] == FirstApplyFix;
    assert ToldStage(After(events)[tenant], events, tenant, 5);
  }
}
