// The caching client under concurrent callers: every interleaving of the atomic
// steps of Query and QueryRange, with a clock that never goes back.
module PromRuns {
  import opened Prelude
  import opened PromCache

  // What the protocol needs of a client: how requests are keyed, how long their
  // answers live, how many entries are kept.
  datatype Client = Client(key: Request -> string, ttl: Request -> int, maxEntries: int)

  ghost predicate KeyFixesTTL(cfg: Client) {
    forall r, q :: cfg.key(r) == cfg.key(q) ==> cfg.ttl(r) == cfg.ttl(q)
  }

  // The history of one inner call. req is what the inner client was asked; times
  // are when the key was claimed and when the entry was stored.
  datatype CallRecord = CallRecord(
    req: Request, leader: nat, startedAt: int,
    answer: Option<Answer>, releasedAt: Option<int>, done: bool)

  // Where a caller stands. A leader passes through the four phases in order:
  // waiting for the inner client, reading the clock for the entry, entering the
  // release section, waking the waiters.
  datatype Phase = Calling | Filled | Stamped(expiresAt: int) | Unlocked

  datatype Caller =
    | Leading(call: nat, phase: Phase)
    | Waiting(req: Request, call: nat, since: int)

  datatype How = Led | Waited(since: int) | Cached(at: int)

  // An answer handed to a caller, and the inner call it came from.
  datatype Served = Served(req: Request, answer: Answer, source: nat, how: How)

  // What happens to a key.
  datatype Event =
    | Started(key: string, call: nat)
    | Kept(key: string, expiresAt: int)
    | Evicted(key: string)
    | Expired(key: string, at: int)

  datatype State = State(
    now: int,
    table: Table<nat>,
    sources: map<string, nat>,     // the call each entry came from
    calls: seq<CallRecord>,
    callers: map<nat, Caller>,
    served: seq<Served>,
    log: seq<Event>)

  datatype Action =
    | Tick(now: int)
    | Begin(tid: nat, req: Request)
    | Inner(tid: nat, answer: Answer)
    | Stamp(tid: nat)
    | Unlock(tid: nat, victim: Option<string>)
    | Finish(tid: nat)
    | Wake(tid: nat)

  // Whose step an action is.
  function Actor(a: Action): Option<nat> { if a.Tick? then None else Some(a.tid) }

  function Init(now: int): State {
    State(now, Table(map[], map[]), map[], [], map[], [], [])
  }

  function PhaseOf(s: State, tid: nat): Option<Phase> {
    if tid in s.callers && s.callers[tid].Leading? then Some(s.callers[tid].phase) else None
  }

  function Key(cfg: Client, s: State, call: nat): string
    requires call < |s.calls|
  {
    cfg.key(s.calls[call].req)
  }

  ghost predicate Enabled(cfg: Client, s: State, a: Action)
  {
    match a
    case Tick(now) => s.now <= now
    case Begin(tid, _) => tid !in s.callers
    case Inner(tid, _) => PhaseOf(s, tid) == Some(Calling)
    case Stamp(tid) => PhaseOf(s, tid) == Some(Filled)
    case Unlock(tid, victim) =>
      PhaseOf(s, tid).Some? && PhaseOf(s, tid).value.Stamped? &&
      Evictable(s.table.entries, cfg.maxEntries, victim)
    case Finish(tid) => PhaseOf(s, tid) == Some(Unlocked)
    case Wake(tid) => tid in s.callers && s.callers[tid].Waiting? &&
                      s.callers[tid].call < |s.calls| && s.calls[s.callers[tid].call].done
  }

  // ---------------------------------------------------------------- invariant

  // A call that is not done has a leader that is still working on it, and holds
  // its key in the in-flight table until that leader unlocks.
  ghost predicate CallOk(cfg: Client, s: State, c: nat)
    requires c < |s.calls|
  {
    var r := s.calls[c];
    r.startedAt <= s.now &&
    (r.releasedAt.Some? ==> r.answer.Some? && r.startedAt <= r.releasedAt.value <= s.now) &&
    (r.done ==> r.releasedAt.Some?) &&
    (r.releasedAt.None? ==> Key(cfg, s, c) in s.table.inflight && s.table.inflight[Key(cfg, s, c)] == c) &&
    (!r.done ==> r.leader in s.callers && s.callers[r.leader].Leading? && s.callers[r.leader].call == c)
  }

  ghost predicate CallerOk(cfg: Client, s: State, tid: nat)
    requires tid in s.callers
  {
    match s.callers[tid]
    case Leading(c, phase) =>
      c < |s.calls| && s.calls[c].leader == tid && !s.calls[c].done &&
      (phase.Calling? <==> s.calls[c].answer.None?) &&
      (phase.Unlocked? <==> s.calls[c].releasedAt.Some?) &&
      (phase.Stamped? ==> phase.expiresAt <= s.now + cfg.ttl(s.calls[c].req))
    case Waiting(req, c, since) =>
      c < |s.calls| && Key(cfg, s, c) == cfg.key(req) && s.calls[c].startedAt <= since <= s.now &&
      (s.calls[c].releasedAt.Some? ==> since <= s.calls[c].releasedAt.value)
  }

  ghost predicate EntryOk(cfg: Client, s: State, key: string)
    requires key in s.table.entries && key in s.sources
  {
    var c := s.sources[key];
    c < |s.calls| && Key(cfg, s, c) == key && s.calls[c].answer == Some(s.table.entries[key].answer) &&
    s.calls[c].releasedAt.Some? &&
    s.table.entries[key].expiresAt <= s.calls[c].releasedAt.value + cfg.ttl(s.calls[c].req)
  }

  // The answer is exactly what one inner call for the same key returned. A waiter
  // gets a call in flight when it arrived, a cache hit a call released at most
  // one TTL earlier.
  ghost predicate ServedOk(cfg: Client, s: State, v: Served)
  {
    v.source < |s.calls| &&
    var c := s.calls[v.source];
    cfg.key(c.req) == cfg.key(v.req) && c.answer == Some(v.answer) && c.releasedAt.Some? &&
    match v.how
    case Led => c.req == v.req
    case Waited(since) => c.startedAt <= since <= c.releasedAt.value
    case Cached(at) => c.releasedAt.value <= at <= c.releasedAt.value + cfg.ttl(v.req)
  }

  datatype Mode = Cold | Flying | Warm(expiresAt: int) | Broken

  // The life of a key: started, kept, then evicted or found expired.
  function Move(m: Mode, e: Event, key: string): Mode {
    if e.key != key then m
    else
      match (m, e)
      case (Cold, Started(_, _)) => Flying
      case (Flying, Kept(_, expiresAt)) => Warm(expiresAt)
      case (Warm(_), Evicted(_)) => Cold
      case (Warm(expiresAt), Expired(_, at)) => if expiresAt < at then Cold else Broken
      case _ => Broken
  }

  function ModeOf(log: seq<Event>, key: string): Mode {
    if log == [] then Cold else Move(ModeOf(log[..|log| - 1], key), log[|log| - 1], key)
  }

  function TableMode(t: Table<nat>, key: string): Mode {
    if key in t.inflight then Flying
    else if key in t.entries then Warm(t.entries[key].expiresAt)
    else Cold
  }

  ghost predicate TableOk(cfg: Client, s: State)
  {
    s.table.entries.Keys !! s.table.inflight.Keys &&
    s.sources.Keys == s.table.entries.Keys &&
    |s.table.entries| <= Max(1, cfg.maxEntries) &&
    (forall k | k in s.table.inflight ::
       s.table.inflight[k] < |s.calls| && Key(cfg, s, s.table.inflight[k]) == k &&
       s.calls[s.table.inflight[k]].releasedAt.None?)
  }

  ghost predicate Inv(cfg: Client, s: State)
  {
    TableOk(cfg, s) && CallsOk(cfg, s) && CallersOk(cfg, s) && EntriesOk(cfg, s) &&
    (forall v | v in s.served :: ServedOk(cfg, s, v)) && LogOk(s)
  }

  ghost predicate CallsOk(cfg: Client, s: State) {
    forall c | 0 <= c < |s.calls| :: CallOk(cfg, s, c)
  }

  ghost predicate CallersOk(cfg: Client, s: State) {
    forall tid | tid in s.callers :: CallerOk(cfg, s, tid)
  }

  ghost predicate EntriesOk(cfg: Client, s: State) {
    forall k | k in s.table.entries :: k in s.sources && EntryOk(cfg, s, k)
  }

  ghost predicate LogOk(s: State) {
    forall k: string :: ModeOf(s.log, k) == TableMode(s.table, k)
  }

  // ---------------------------------------------------------------- steps

  // The lookup section, and what the caller does with its outcome.
  function BeginStep(cfg: Client, s: State, tid: nat, req: Request): State
    requires cfg.key(req) in s.table.entries ==> cfg.key(req) in s.sources
  {
    var key, call := cfg.key(req), |s.calls|;
    var (table, lookup) := Acquired(s.table, key, s.now, call);
    match lookup
    case Hit(answer) =>
      s.(served := s.served + [Served(req, answer, s.sources[key], Cached(s.now))])
    case Join(c) =>
      s.(table := table, callers := s.callers[tid := Waiting(req, c, s.now)])
    case Lead =>
      LeadStep(s, table, key, tid, req)
  }

  function LeadStep(s: State, table: Table<nat>, key: string, tid: nat, req: Request): State {
    var expired := if key in s.table.entries then [Expired(key, s.now)] else [];
    s.(table := table, sources := s.sources - {key}, log := s.log + expired + [Started(key, |s.calls|)],
       calls := s.calls + [CallRecord(req, tid, s.now, None, None, false)],
       callers := s.callers[tid := Leading(|s.calls|, Calling)])
  }

  function UnlockStep(cfg: Client, s: State, tid: nat, victim: Option<string>): State
    requires tid in s.callers && s.callers[tid].Leading? && s.callers[tid].phase.Stamped?
    requires s.callers[tid].call < |s.calls| && s.calls[s.callers[tid].call].answer.Some?
  {
    var c := s.callers[tid].call;
    var e := Entry(s.callers[tid].phase.expiresAt, s.calls[c].answer.value);
    var key := Key(cfg, s, c);
    var dropped := if victim.Some? then [Evicted(victim.value)] else [];
    s.(table := Released(s.table, key, e, victim),
       sources := (if victim.Some? then s.sources - {victim.value} else s.sources)[key := c],
       calls := s.calls[c := s.calls[c].(releasedAt := Some(s.now))],
       callers := s.callers[tid := Leading(c, Unlocked)],
       log := s.log + dropped + [Kept(key, e.expiresAt)])
  }

  // What a step refers to is there: the call of the caller, its answer when that is
  // used, the source of a cached entry.
  predicate Defined(cfg: Client, s: State, a: Action) {
    match a
    case Tick(_) => true
    case Begin(_, req) => cfg.key(req) in s.table.entries ==> cfg.key(req) in s.sources
    case Inner(tid, _) => Refers(s, tid)
    case Stamp(tid) => Refers(s, tid)
    case Unlock(tid, _) => Refers(s, tid) && s.callers[tid].phase.Stamped? && s.calls[s.callers[tid].call].answer.Some?
    case Finish(tid) => Refers(s, tid) && s.calls[s.callers[tid].call].answer.Some?
    case Wake(tid) =>
      tid in s.callers && s.callers[tid].Waiting? && s.callers[tid].call < |s.calls| &&
      s.calls[s.callers[tid].call].answer.Some?
  }

  predicate Refers(s: State, tid: nat) {
    tid in s.callers && s.callers[tid].Leading? && s.callers[tid].call < |s.calls|
  }

  function Perform(cfg: Client, s: State, a: Action): State
    requires Defined(cfg, s, a)
  {
    match a
    case Tick(now) => s.(now := now)
    case Begin(tid, req) => BeginStep(cfg, s, tid, req)
    case Inner(tid, answer) =>
      var c := s.callers[tid].call;
      s.(calls := s.calls[c := s.calls[c].(answer := Some(answer))],
         callers := s.callers[tid := Leading(c, Filled)])
    case Stamp(tid) =>
      var c := s.callers[tid].call;
      s.(callers := s.callers[tid := Leading(c, Stamped(s.now + cfg.ttl(s.calls[c].req)))])
    case Unlock(tid, victim) => UnlockStep(cfg, s, tid, victim)
    case Finish(tid) =>
      var c := s.callers[tid].call;
      s.(calls := s.calls[c := s.calls[c].(done := true)],
         callers := s.callers - {tid},
         served := s.served + [Served(s.calls[c].req, s.calls[c].answer.value, c, Led)])
    case Wake(tid) =>
      var w := s.callers[tid];
      s.(callers := s.callers - {tid},
         served := s.served + [Served(w.req, s.calls[w.call].answer.value, w.call, Waited(w.since))])
  }

  // Total: a step that refers to nothing leaves the state alone. No run comes to one.
  function Next(cfg: Client, s: State, a: Action): State {
    if Defined(cfg, s, a) then Perform(cfg, s, a) else s
  }

  lemma EnabledIsDefined(cfg: Client, s: State, a: Action)
    requires Inv(cfg, s) && Enabled(cfg, s, a)
    ensures Defined(cfg, s, a)
  {
    match a
    case Tick(_) =>
    case Begin(_, _) =>
    case Inner(tid, _) => assert CallerOk(cfg, s, tid);
    case Stamp(tid) => assert CallerOk(cfg, s, tid);
    case Unlock(tid, _) => assert CallerOk(cfg, s, tid);
    case Finish(tid) => assert CallerOk(cfg, s, tid);
    case Wake(tid) => assert CallerOk(cfg, s, tid) && CallOk(cfg, s, s.callers[tid].call);
  }

  // ---------------------------------------------------------------- preservation

  lemma TickKeeps(cfg: Client, s: State, now: int)
    requires Inv(cfg, s) && s.now <= now
    ensures Inv(cfg, s.(now := now))
  {
    var t := s.(now := now);
    forall c | 0 <= c < |t.calls| ensures CallOk(cfg, t, c) { assert CallOk(cfg, s, c); }
    forall tid | tid in t.callers ensures CallerOk(cfg, t, tid) { assert CallerOk(cfg, s, tid); }
    forall k | k in t.table.entries ensures k in t.sources && EntryOk(cfg, t, k) { assert EntryOk(cfg, s, k); }
    forall v | v in t.served ensures ServedOk(cfg, t, v) { assert ServedOk(cfg, s, v); }
  }

  // A step of caller tid changes no other caller and no call but the given one,
  // whose record only gains.
  ghost predicate Frame(s: State, t: State, tid: nat, call: nat) {
    t.now == s.now && |s.calls| <= |t.calls| &&
    (forall c | 0 <= c < |s.calls| && c != call :: t.calls[c] == s.calls[c]) &&
    (call < |s.calls| ==> Gains(s.calls[call], t.calls[call], s.now)) &&
    (forall i | i != tid :: i in s.callers <==> i in t.callers) &&
    (forall i | i != tid && i in s.callers :: s.callers[i] == t.callers[i])
  }

  ghost predicate Gains(r: CallRecord, q: CallRecord, now: int) {
    q.req == r.req && q.leader == r.leader && q.startedAt == r.startedAt &&
    (r.answer.Some? ==> q.answer == r.answer) &&
    (r.releasedAt.Some? ==> q.releasedAt == r.releasedAt) &&
    (r.releasedAt.None? && q.releasedAt.Some? ==> q.releasedAt.value == now)
  }

  lemma OthersStay(cfg: Client, s: State, t: State, tid: nat, call: nat)
    requires CallersOk(cfg, s) && Frame(s, t, tid, call)
    requires call < |s.calls| ==> s.calls[call].leader == tid
    ensures forall i | i in t.callers && i != tid :: CallerOk(cfg, t, i)
  {
    forall i | i in t.callers && i != tid ensures CallerOk(cfg, t, i) {
      assert i in s.callers && CallerOk(cfg, s, i);
    }
  }

  lemma OtherCallsStay(cfg: Client, s: State, t: State, tid: nat, call: nat)
    requires CallsOk(cfg, s) && Frame(s, t, tid, call)
    requires tid in s.callers && s.callers[tid].Leading? ==> s.callers[tid].call == call
    requires forall k | k in s.table.inflight && s.table.inflight[k] != call ::
               k in t.table.inflight && t.table.inflight[k] == s.table.inflight[k]
    ensures forall c | 0 <= c < |s.calls| && c != call :: CallOk(cfg, t, c)
  {
    forall c | 0 <= c < |s.calls| && c != call ensures CallOk(cfg, t, c) {
      assert CallOk(cfg, s, c);
    }
  }

  lemma EntriesStay(cfg: Client, s: State, t: State, tid: nat, call: nat)
    requires EntriesOk(cfg, s) && Frame(s, t, tid, call)
    ensures forall k | k in t.table.entries && k in s.table.entries && k in t.sources &&
                       t.sources[k] == s.sources[k] && t.table.entries[k] == s.table.entries[k] ::
              EntryOk(cfg, t, k)
  {
    forall k | k in t.table.entries && k in s.table.entries && k in t.sources &&
               t.sources[k] == s.sources[k] && t.table.entries[k] == s.table.entries[k]
      ensures EntryOk(cfg, t, k)
    {
      assert EntryOk(cfg, s, k);
    }
  }

  lemma ServedStays(cfg: Client, s: State, t: State, tid: nat, call: nat)
    requires Frame(s, t, tid, call)
    requires forall v | v in s.served :: ServedOk(cfg, s, v)
    ensures forall v | v in s.served :: ServedOk(cfg, t, v)
  {
  }

  // What every step of a caller keeps of the others.
  lemma Rest(cfg: Client, s: State, t: State, tid: nat, call: nat)
    requires Inv(cfg, s) && Frame(s, t, tid, call)
    requires call < |s.calls| ==> s.calls[call].leader == tid
    requires tid in s.callers && s.callers[tid].Leading? ==> s.callers[tid].call == call
    requires forall k | k in s.table.inflight && s.table.inflight[k] != call ::
               k in t.table.inflight && t.table.inflight[k] == s.table.inflight[k]
    ensures forall i | i in t.callers && i != tid :: CallerOk(cfg, t, i)
    ensures forall c | 0 <= c < |s.calls| && c != call :: CallOk(cfg, t, c)
    ensures forall v | v in s.served :: ServedOk(cfg, t, v)
    ensures forall k | k in t.table.entries && k in s.table.entries && k in t.sources &&
                       t.sources[k] == s.sources[k] && t.table.entries[k] == s.table.entries[k] ::
              EntryOk(cfg, t, k)
  {
    OthersStay(cfg, s, t, tid, call);
    OtherCallsStay(cfg, s, t, tid, call);
    EntriesStay(cfg, s, t, tid, call);
    ServedStays(cfg, s, t, tid, call);
  }

  // Steps that leave the table and the log alone.
  lemma QuietKeeps(cfg: Client, s: State, t: State, tid: nat, call: nat)
    requires Inv(cfg, s) && Frame(s, t, tid, call)
    requires call < |s.calls| ==> s.calls[call].leader == tid
    requires tid in s.callers && s.callers[tid].Leading? ==> s.callers[tid].call == call
    requires t.table == s.table && t.sources == s.sources && t.log == s.log && |t.calls| == |s.calls|
    requires call < |s.calls| ==> t.calls[call].releasedAt == s.calls[call].releasedAt
    requires call < |s.calls| ==> CallOk(cfg, t, call)
    requires tid in t.callers ==> CallerOk(cfg, t, tid)
    requires s.served <= t.served && forall v | v in t.served[|s.served|..] :: ServedOk(cfg, t, v)
    ensures Inv(cfg, t)
  {
    Rest(cfg, s, t, tid, call);
    assert t.served == s.served + t.served[|s.served|..];
    assert forall c | 0 <= c < |t.calls| :: t.calls[c].releasedAt == s.calls[c].releasedAt &&
                                             t.calls[c].req == s.calls[c].req;
    assert TableOk(cfg, t) by {
      assert TableOk(cfg, s);
    }
  }

  lemma InnerKeeps(cfg: Client, s: State, tid: nat, answer: Answer)
    requires Inv(cfg, s) && Enabled(cfg, s, Inner(tid, answer))
    ensures Inv(cfg, Next(cfg, s, Inner(tid, answer)))
  {
    assert CallerOk(cfg, s, tid) && CallOk(cfg, s, s.callers[tid].call);
    QuietKeeps(cfg, s, Next(cfg, s, Inner(tid, answer)), tid, s.callers[tid].call);
  }

  lemma StampKeeps(cfg: Client, s: State, tid: nat)
    requires Inv(cfg, s) && Enabled(cfg, s, Stamp(tid))
    ensures Inv(cfg, Next(cfg, s, Stamp(tid)))
  {
    assert CallerOk(cfg, s, tid) && CallOk(cfg, s, s.callers[tid].call);
    QuietKeeps(cfg, s, Next(cfg, s, Stamp(tid)), tid, s.callers[tid].call);
  }

  lemma FinishKeeps(cfg: Client, s: State, tid: nat)
    requires Inv(cfg, s) && Enabled(cfg, s, Finish(tid))
    ensures Inv(cfg, Next(cfg, s, Finish(tid)))
  {
    assert CallerOk(cfg, s, tid) && CallOk(cfg, s, s.callers[tid].call);
    var t := Next(cfg, s, Finish(tid));
    assert t.served[|s.served|..] == [t.served[|s.served|]];
    QuietKeeps(cfg, s, t, tid, s.callers[tid].call);
  }

  lemma WakeKeeps(cfg: Client, s: State, tid: nat)
    requires Inv(cfg, s) && Enabled(cfg, s, Wake(tid))
    ensures Inv(cfg, Next(cfg, s, Wake(tid)))
  {
    assert CallerOk(cfg, s, tid) && CallOk(cfg, s, s.callers[tid].call);
    var t := Next(cfg, s, Wake(tid));
    assert t.served[|s.served|..] == [t.served[|s.served|]];
    QuietKeeps(cfg, s, t, tid, |s.calls|);
  }

  lemma LogStep(log: seq<Event>, e: Event, key: string)
    ensures ModeOf(log + [e], key) == Move(ModeOf(log, key), e, key)
  {
    assert (log + [e])[..|log|] == log;
  }

  lemma HitServes(cfg: Client, s: State, req: Request)
    requires KeyFixesTTL(cfg) && CallsOk(cfg, s) && EntriesOk(cfg, s)
    requires cfg.key(req) in s.table.entries && s.now <= s.table.entries[cfg.key(req)].expiresAt
    ensures cfg.key(req) in s.sources
    ensures ServedOk(cfg, s, Served(req, s.table.entries[cfg.key(req)].answer, s.sources[cfg.key(req)], Cached(s.now)))
  {
    var key := cfg.key(req);
    assert EntryOk(cfg, s, key) && CallOk(cfg, s, s.sources[key]);
  }

  lemma HitKeeps(cfg: Client, s: State, tid: nat, req: Request)
    requires KeyFixesTTL(cfg) && Inv(cfg, s) && tid !in s.callers
    requires cfg.key(req) in s.table.entries && s.now <= s.table.entries[cfg.key(req)].expiresAt
    ensures Inv(cfg, s.(served := s.served + [Served(req, s.table.entries[cfg.key(req)].answer,
                                                     s.sources[cfg.key(req)], Cached(s.now))]))
  {
    HitServes(cfg, s, req);
    var v := Served(req, s.table.entries[cfg.key(req)].answer, s.sources[cfg.key(req)], Cached(s.now));
    var t := s.(served := s.served + [v]);
    assert t.served[|s.served|..] == [v];
    QuietKeeps(cfg, s, t, tid, |s.calls|);
  }

  lemma JoinKeeps(cfg: Client, s: State, tid: nat, req: Request, c: nat)
    requires Inv(cfg, s) && tid !in s.callers
    requires cfg.key(req) in s.table.inflight && s.table.inflight[cfg.key(req)] == c
    ensures Inv(cfg, s.(callers := s.callers[tid := Waiting(req, c, s.now)]))
  {
    assert CallOk(cfg, s, c);
    QuietKeeps(cfg, s, s.(callers := s.callers[tid := Waiting(req, c, s.now)]), tid, |s.calls|);
  }

  // A key in flight has no entry to expire.
  lemma JoinedAs(t: Table<nat>, key: string, now: int, call: nat)
    requires t.entries.Keys !! t.inflight.Keys && key in t.inflight
    ensures Acquired(t, key, now, call) == (t, Join(t.inflight[key]))
  {
    assert key !in t.entries;
    assert t.entries - {key} == t.entries;
  }

  // So a join leaves the table alone.
  lemma JoinIsPlain(cfg: Client, s: State, tid: nat, req: Request)
    requires TableOk(cfg, s) && Acquired(s.table, cfg.key(req), s.now, |s.calls|).1.Join?
    ensures var key := cfg.key(req);
            key in s.table.inflight &&
            BeginStep(cfg, s, tid, req) == s.(callers := s.callers[tid := Waiting(req, s.table.inflight[key], s.now)])
  {
    JoinedAs(s.table, cfg.key(req), s.now, |s.calls|);
  }

  lemma LeadLogAt(log: seq<Event>, table: Table<nat>, key: string, now: int, call: nat, k: string)
    requires ModeOf(log, k) == TableMode(table, k)
    requires key !in table.inflight
    requires key in table.entries ==> table.entries[key].expiresAt < now
    ensures var expired := if key in table.entries then [Expired(key, now)] else [];
            ModeOf(log + expired + [Started(key, call)], k) ==
            TableMode(Table(table.entries - {key}, table.inflight[key := call]), k)
  {
    var expired := if key in table.entries then [Expired(key, now)] else [];
    LogStep(log + expired, Started(key, call), k);
    if key in table.entries {
      LogStep(log, Expired(key, now), k);
    } else {
      assert log + expired == log;
    }
  }

  lemma LeadLog(log: seq<Event>, table: Table<nat>, key: string, now: int, call: nat)
    requires forall k: string :: ModeOf(log, k) == TableMode(table, k)
    requires key !in table.inflight
    requires key in table.entries ==> table.entries[key].expiresAt < now
    ensures var expired := if key in table.entries then [Expired(key, now)] else [];
            forall k: string :: ModeOf(log + expired + [Started(key, call)], k) ==
                                TableMode(Table(table.entries - {key}, table.inflight[key := call]), k)
  {
    var expired := if key in table.entries then [Expired(key, now)] else [];
    forall k: string
      ensures ModeOf(log + expired + [Started(key, call)], k) ==
              TableMode(Table(table.entries - {key}, table.inflight[key := call]), k)
    {
      LeadLogAt(log, table, key, now, call, k);
    }
  }

  lemma LeadSelf(cfg: Client, s: State, table: Table<nat>, tid: nat, req: Request)
    requires table.inflight == s.table.inflight[cfg.key(req) := |s.calls|]
    ensures var t := LeadStep(s, table, cfg.key(req), tid, req);
            CallOk(cfg, t, |s.calls|) && CallerOk(cfg, t, tid)
  {
  }

  lemma LeadKeeps(cfg: Client, s: State, tid: nat, req: Request)
    requires Inv(cfg, s) && tid !in s.callers && cfg.key(req) !in s.table.inflight
    requires cfg.key(req) in s.table.entries ==> s.table.entries[cfg.key(req)].expiresAt < s.now
    ensures var key := cfg.key(req);
            var table := Table(s.table.entries - {key}, s.table.inflight[key := |s.calls|]);
            Inv(cfg, LeadStep(s, table, key, tid, req))
  {
    var key, call := cfg.key(req), |s.calls|;
    var table := Table(s.table.entries - {key}, s.table.inflight[key := call]);
    var t := LeadStep(s, table, key, tid, req);
    LeadLog(s.log, s.table, key, s.now, call);
    LeadKeepsTable(cfg, s, t, key);
    Rest(cfg, s, t, tid, call);
    LeadSelf(cfg, s, table, tid, req);
  }

  lemma LeadKeepsTable(cfg: Client, s: State, t: State, key: string)
    requires TableOk(cfg, s)
    requires t.table == Table(s.table.entries - {key}, s.table.inflight[key := |s.calls|])
    requires t.sources == s.sources - {key}
    requires |t.calls| == |s.calls| + 1 && t.calls[..|s.calls|] == s.calls
    requires cfg.key(t.calls[|s.calls|].req) == key && t.calls[|s.calls|].releasedAt.None?
    ensures TableOk(cfg, t)
  {
    FewerKeys(t.table.entries, s.table.entries);
    forall k | k in t.table.inflight && k != key
      ensures t.table.inflight[k] < |t.calls| && Key(cfg, t, t.table.inflight[k]) == k &&
              t.calls[t.table.inflight[k]].releasedAt.None?
    {
      assert k in s.table.inflight;
      assert t.calls[t.table.inflight[k]] == s.calls[s.table.inflight[k]];
    }
  }

  lemma FewerKeys(a: map<string, Entry>, b: map<string, Entry>)
    requires a.Keys <= b.Keys
    ensures |a| <= |b|
  {
    assert a.Keys + (b.Keys - a.Keys) == b.Keys;
    assert |a.Keys| + |b.Keys - a.Keys| == |b.Keys|;
  }

  // A store adds its entry, and drops another one when max(1, maxEntries) are there.
  lemma StoreCounts(entries: map<string, Entry>, key: string, e: Entry, maxEntries: int, victim: Option<string>)
    requires key !in entries && |entries| <= Max(1, maxEntries) && Evictable(entries, maxEntries, victim)
    ensures var after := Stored(entries, key, e, victim);
            key in after && after[key] == e &&
            |after| == if |entries| < Max(1, maxEntries) then |entries| + 1 else |entries|
  {
    var kept := if victim.Some? then entries - {victim.value} else entries;
    assert Stored(entries, key, e, victim).Keys == kept.Keys + {key};
    if victim.Some? {
      assert kept.Keys == entries.Keys - {victim.value};
    }
  }

  lemma UnlockLog(log: seq<Event>, table: Table<nat>, key: string, e: Entry, victim: Option<string>)
    requires forall k: string :: ModeOf(log, k) == TableMode(table, k)
    requires key in table.inflight && table.entries.Keys !! table.inflight.Keys
    requires victim.Some? ==> victim.value in table.entries
    ensures var dropped := if victim.Some? then [Evicted(victim.value)] else [];
            forall k: string :: ModeOf(log + dropped + [Kept(key, e.expiresAt)], k) ==
                                TableMode(Released(table, key, e, victim), k)
  {
    var dropped := if victim.Some? then [Evicted(victim.value)] else [];
    forall k: string
      ensures ModeOf(log + dropped + [Kept(key, e.expiresAt)], k) == TableMode(Released(table, key, e, victim), k)
    {
      LogStep(log + dropped, Kept(key, e.expiresAt), k);
      if victim.Some? {
        LogStep(log, Evicted(victim.value), k);
      } else {
        assert log + dropped == log;
      }
    }
  }

  lemma UnlockKeepsTable(cfg: Client, s: State, t: State, call: nat, e: Entry, victim: Option<string>)
    requires TableOk(cfg, s) && call < |s.calls| && |t.calls| == |s.calls|
    requires Key(cfg, s, call) in s.table.inflight && s.table.inflight[Key(cfg, s, call)] == call
    requires Evictable(s.table.entries, cfg.maxEntries, victim)
    requires t.table == Released(s.table, Key(cfg, s, call), e, victim)
    requires t.sources.Keys == t.table.entries.Keys
    requires forall c | 0 <= c < |s.calls| && c != call :: t.calls[c] == s.calls[c]
    ensures TableOk(cfg, t)
  {
    StoreCounts(s.table.entries, Key(cfg, s, call), e, cfg.maxEntries, victim);
    forall k | k in t.table.inflight
      ensures t.table.inflight[k] < |t.calls| && Key(cfg, t, t.table.inflight[k]) == k &&
              t.calls[t.table.inflight[k]].releasedAt.None?
    {
      assert k in s.table.inflight && t.table.inflight[k] != call;
    }
  }

  lemma UnlockFacts(cfg: Client, s: State, tid: nat, victim: Option<string>)
    requires Inv(cfg, s) && Enabled(cfg, s, Unlock(tid, victim))
    ensures var call := s.callers[tid].call;
            CallerOk(cfg, s, tid) && CallOk(cfg, s, call) &&
            Key(cfg, s, call) in s.table.inflight && s.table.inflight[Key(cfg, s, call)] == call
  {
    assert CallerOk(cfg, s, tid) && CallOk(cfg, s, s.callers[tid].call);
  }

  lemma UnlockFrame(cfg: Client, s: State, tid: nat, victim: Option<string>)
    requires Defined(cfg, s, Unlock(tid, victim)) && s.calls[s.callers[tid].call].releasedAt.None?
    ensures Frame(s, UnlockStep(cfg, s, tid, victim), tid, s.callers[tid].call)
  {
  }

  lemma UnlockInflight(cfg: Client, s: State, tid: nat, victim: Option<string>)
    requires Defined(cfg, s, Unlock(tid, victim))
    requires var call := s.callers[tid].call;
             Key(cfg, s, call) in s.table.inflight && s.table.inflight[Key(cfg, s, call)] == call
    ensures var inflight := UnlockStep(cfg, s, tid, victim).table.inflight;
            forall k | k in s.table.inflight && s.table.inflight[k] != s.callers[tid].call ::
              k in inflight && inflight[k] == s.table.inflight[k]
  {
  }

  lemma UnlockCalls(cfg: Client, s: State, t: State, tid: nat, victim: Option<string>)
    requires Inv(cfg, s) && Enabled(cfg, s, Unlock(tid, victim)) && CallerOk(cfg, s, tid)
    requires t == UnlockStep(cfg, s, tid, victim) && Frame(s, t, tid, s.callers[tid].call)
    ensures CallsOk(cfg, t)
  {
    UnlockFacts(cfg, s, tid, victim);
    UnlockInflight(cfg, s, tid, victim);
    OtherCallsStay(cfg, s, t, tid, s.callers[tid].call);
    UnlockSelf(cfg, s, t, tid, victim);
  }

  lemma UnlockCallers(cfg: Client, s: State, t: State, tid: nat, victim: Option<string>)
    requires Inv(cfg, s) && Enabled(cfg, s, Unlock(tid, victim)) && CallerOk(cfg, s, tid)
    requires t == UnlockStep(cfg, s, tid, victim) && Frame(s, t, tid, s.callers[tid].call)
    ensures CallersOk(cfg, t)
  {
    OthersStay(cfg, s, t, tid, s.callers[tid].call);
    UnlockSelf(cfg, s, t, tid, victim);
  }

  lemma UnlockSelf(cfg: Client, s: State, t: State, tid: nat, victim: Option<string>)
    requires Inv(cfg, s) && Enabled(cfg, s, Unlock(tid, victim)) && CallerOk(cfg, s, tid)
    requires t == UnlockStep(cfg, s, tid, victim)
    ensures CallOk(cfg, t, s.callers[tid].call) && CallerOk(cfg, t, tid)
  {
    assert CallOk(cfg, s, s.callers[tid].call);
  }

  lemma UnlockEntries(cfg: Client, s: State, t: State, tid: nat, call: nat, e: Entry, victim: Option<string>)
    requires EntriesOk(cfg, s) && Frame(s, t, tid, call) && call < |s.calls|
    requires t.table.entries == Stored(s.table.entries, Key(cfg, s, call), e, victim)
    requires t.sources == (if victim.Some? then s.sources - {victim.value} else s.sources)[Key(cfg, s, call) := call]
    requires t.calls[call].answer == Some(e.answer) && t.calls[call].releasedAt == Some(s.now)
    requires e.expiresAt <= s.now + cfg.ttl(s.calls[call].req)
    ensures EntriesOk(cfg, t)
  {
    EntriesStay(cfg, s, t, tid, call);
    assert EntryOk(cfg, t, Key(cfg, s, call));
  }

  lemma StoredKeys(entries: map<string, Entry>, sources: map<string, nat>, key: string, e: Entry, c: nat,
                   victim: Option<string>)
    requires sources.Keys == entries.Keys
    ensures (if victim.Some? then sources - {victim.value} else sources)[key := c].Keys ==
            Stored(entries, key, e, victim).Keys
  {
  }

  lemma UnlockTable(cfg: Client, s: State, tid: nat, victim: Option<string>)
    requires TableOk(cfg, s) && Defined(cfg, s, Unlock(tid, victim))
    requires Evictable(s.table.entries, cfg.maxEntries, victim)
    requires var call := s.callers[tid].call;
             Key(cfg, s, call) in s.table.inflight && s.table.inflight[Key(cfg, s, call)] == call
    ensures TableOk(cfg, UnlockStep(cfg, s, tid, victim))
  {
    var t, call := UnlockStep(cfg, s, tid, victim), s.callers[tid].call;
    var key, e := Key(cfg, s, call), Entry(s.callers[tid].phase.expiresAt, s.calls[call].answer.value);
    StoredKeys(s.table.entries, s.sources, key, e, call, victim);
    UnlockKeepsTable(cfg, s, t, call, e, victim);
  }

  lemma UnlockLogs(cfg: Client, s: State, tid: nat, victim: Option<string>)
    requires Inv(cfg, s) && Enabled(cfg, s, Unlock(tid, victim)) && CallerOk(cfg, s, tid)
    ensures LogOk(UnlockStep(cfg, s, tid, victim))
  {
    var call := s.callers[tid].call;
    var key, e := Key(cfg, s, call), Entry(s.callers[tid].phase.expiresAt, s.calls[call].answer.value);
    UnlockFacts(cfg, s, tid, victim);
    UnlockLog(s.log, s.table, key, e, victim);
  }

  lemma UnlockKeeps(cfg: Client, s: State, tid: nat, victim: Option<string>)
    requires Inv(cfg, s) && Enabled(cfg, s, Unlock(tid, victim)) && CallerOk(cfg, s, tid)
    ensures Inv(cfg, UnlockStep(cfg, s, tid, victim))
  {
    var t, call := UnlockStep(cfg, s, tid, victim), s.callers[tid].call;
    UnlockFacts(cfg, s, tid, victim);
    UnlockFrame(cfg, s, tid, victim);
    UnlockTable(cfg, s, tid, victim);
    UnlockLogs(cfg, s, tid, victim);
    UnlockCalls(cfg, s, t, tid, victim);
    UnlockCallers(cfg, s, t, tid, victim);
    ServedStays(cfg, s, t, tid, call);
    UnlockEntries(cfg, s, t, tid, call, Entry(s.callers[tid].phase.expiresAt, s.calls[call].answer.value), victim);
  }

  lemma BeginKeeps(cfg: Client, s: State, tid: nat, req: Request)
    requires KeyFixesTTL(cfg) && Inv(cfg, s) && Enabled(cfg, s, Begin(tid, req))
    ensures Inv(cfg, BeginStep(cfg, s, tid, req))
  {
    match Acquired(s.table, cfg.key(req), s.now, |s.calls|).1
    case Hit(_) => HitKeeps(cfg, s, tid, req);
    case Join(c) =>
      JoinIsPlain(cfg, s, tid, req);
      JoinKeeps(cfg, s, tid, req, c);
    case Lead => LeadKeeps(cfg, s, tid, req);
  }

  lemma NextKeeps(cfg: Client, s: State, a: Action)
    requires KeyFixesTTL(cfg) && Inv(cfg, s) && Enabled(cfg, s, a)
    ensures Inv(cfg, Next(cfg, s, a))
  {
    match a
    case Tick(now) => TickKeeps(cfg, s, now);
    case Begin(tid, req) => BeginKeeps(cfg, s, tid, req);
    case Inner(tid, answer) => InnerKeeps(cfg, s, tid, answer);
    case Stamp(tid) => StampKeeps(cfg, s, tid);
    case Unlock(tid, victim) => UnlockFacts(cfg, s, tid, victim); UnlockKeeps(cfg, s, tid, victim);
    case Finish(tid) => FinishKeeps(cfg, s, tid);
    case Wake(tid) => WakeKeeps(cfg, s, tid);
  }
}
