// What the caching client guarantees over every run of its concurrent callers.
module PromTheorems {
  import opened Prelude
  import opened PromCache
  import opened PromRuns

  function ClientOf(c: Config): Client
    requires c.instantTTL >= SECOND
  {
    Client(r => KeyOf(c, r), r => TTL(c, r), c.maxEntries)
  }

  lemma ClientKeysFixTTL(c: Config)
    requires c.instantTTL >= SECOND
    ensures KeyFixesTTL(ClientOf(c))
  {
    forall r, q | KeyOf(c, r) == KeyOf(c, q) ensures TTL(c, r) == TTL(c, q) {
      KeyKind(c, r);
      KeyKind(c, q);
    }
  }

  // s' is reached from s by performing acts, each one enabled when it happens.
  ghost predicate Reaches(cfg: Client, s: State, acts: seq<Action>, s': State)
    decreases |acts|
  {
    if acts == [] then s == s'
    else Enabled(cfg, s, acts[0]) && Reaches(cfg, Next(cfg, s, acts[0]), acts[1..], s')
  }

  lemma InitOk(cfg: Client, now: int)
    ensures Inv(cfg, Init(now))
  {
  }

  lemma {:induction false} RunKeeps(cfg: Client, s: State, acts: seq<Action>, s': State)
    requires KeyFixesTTL(cfg) && Inv(cfg, s) && Reaches(cfg, s, acts, s')
    ensures Inv(cfg, s')
    decreases |acts|
  {
    if acts != [] {
      NextKeeps(cfg, s, acts[0]);
      RunKeeps(cfg, Next(cfg, s, acts[0]), acts[1..], s');
    }
  }

  // No run comes to a step that refers to nothing.
  lemma RunsAreDefined(c: Config, now: int, acts: seq<Action>, s: State, a: Action)
    requires c.instantTTL >= SECOND && Reaches(ClientOf(c), Init(now), acts, s) && Enabled(ClientOf(c), s, a)
    ensures Defined(ClientOf(c), s, a)
  {
    ClientKeysFixTTL(c);
    InitOk(ClientOf(c), now);
    RunKeeps(ClientOf(c), Init(now), acts, s);
    EnabledIsDefined(ClientOf(c), s, a);
  }

  // In every interleaving, each answer is exactly what one inner call for the
  // same query returned: the caller's own, one in flight when it arrived, or one
  // released at most one TTL before it asked.
  lemma AnswersComeFromInnerCalls(c: Config, now: int, acts: seq<Action>, s: State)
    requires c.instantTTL >= SECOND && Faithful(c)
    requires Reaches(ClientOf(c), Init(now), acts, s)
    ensures forall v | v in s.served ::
              v.source < |s.calls| &&
              var call := s.calls[v.source];
              call.answer == Some(v.answer) && call.releasedAt.Some? &&
              (match v.how
               case Led => call.req == v.req
               case Waited(since) => call.startedAt <= since <= call.releasedAt.value
               case Cached(at) => call.releasedAt.value <= at <= call.releasedAt.value + TTL(c, v.req)) &&
              SameQuery(c, call.req, v.req)
  {
    var cfg := ClientOf(c);
    ClientKeysFixTTL(c);
    InitOk(cfg, now);
    RunKeeps(cfg, Init(now), acts, s);
    forall v | v in s.served ensures ServedOk(cfg, s, v) && SameQuery(c, s.calls[v.source].req, v.req) {
      SameKeySameQuery(c, s.calls[v.source].req, v.req);
    }
  }

  // The same question, asked of the same time up to the width of a bucket.
  ghost predicate SameQuery(c: Config, r: Request, q: Request) {
    match (r, q)
    case (Instant(p, a), Instant(q, b)) =>
      var ttl := c.instantTTL;
      p == q && -2 * ttl < a - b < 2 * ttl && ((a >= 0 <==> b >= 0) ==> -ttl < a - b < ttl)
    case (Ranged(p, a, b, d), Ranged(q, e, f, g)) => p == q && Unix(a) == Unix(e) && Unix(b) == Unix(f) && d == g
    case _ => false
  }

  lemma SameKeySameQuery(c: Config, r: Request, q: Request)
    requires c.instantTTL >= SECOND && Faithful(c) && KeyOf(c, r) == KeyOf(c, q)
    ensures SameQuery(c, r, q)
  {
    SameKeyIff(c, r, q);
    if r.Instant? && q.Instant? {
      SameBucketWithinTTL(r.at, q.at, c.instantTTL);
    }
  }

  // In every reachable state no key is both cached and in flight, at most
  // max(1, MaxEntries) entries are kept, and no two inner calls for one key are
  // running.
  lemma TableIsSafe(c: Config, now: int, acts: seq<Action>, s: State)
    requires c.instantTTL >= SECOND && Reaches(ClientOf(c), Init(now), acts, s)
    ensures s.table.entries.Keys !! s.table.inflight.Keys
    ensures |s.table.entries| <= Max(1, c.maxEntries)
    ensures forall i, j | 0 <= i < j < |s.calls| && s.calls[i].releasedAt.None? && s.calls[j].releasedAt.None? ::
              KeyOf(c, s.calls[i].req) != KeyOf(c, s.calls[j].req)
  {
    var cfg := ClientOf(c);
    ClientKeysFixTTL(c);
    InitOk(cfg, now);
    RunKeeps(cfg, Init(now), acts, s);
    forall i, j | 0 <= i < j < |s.calls| && s.calls[i].releasedAt.None? && s.calls[j].releasedAt.None?
      ensures KeyOf(c, s.calls[i].req) != KeyOf(c, s.calls[j].req)
    {
      assert CallOk(cfg, s, i) && CallOk(cfg, s, j);
      assert Key(cfg, s, i) == KeyOf(c, s.calls[i].req) && Key(cfg, s, j) == KeyOf(c, s.calls[j].req);
    }
  }

  // Whoever stores an answer, it is kept, whatever MaxEntries is: one entry more, or
  // as many as before when max(1, MaxEntries) are there.
  lemma AnswerIsKept(c: Config, now: int, acts: seq<Action>, s: State, tid: nat, victim: Option<string>)
    requires c.instantTTL >= SECOND && Reaches(ClientOf(c), Init(now), acts, s)
    requires Enabled(ClientOf(c), s, Unlock(tid, victim))
    ensures Defined(ClientOf(c), s, Unlock(tid, victim))
    ensures var call := s.calls[s.callers[tid].call];
            var key, entries := KeyOf(c, call.req), Next(ClientOf(c), s, Unlock(tid, victim)).table.entries;
            key in entries && entries[key] == Entry(s.callers[tid].phase.expiresAt, call.answer.value) &&
            |entries| == if |s.table.entries| < Max(1, c.maxEntries) then |s.table.entries| + 1 else |s.table.entries|
  {
    var cfg, a := ClientOf(c), Unlock(tid, victim);
    ClientKeysFixTTL(c);
    InitOk(cfg, now);
    RunKeeps(cfg, Init(now), acts, s);
    EnabledIsDefined(cfg, s, a);
    UnlockFacts(cfg, s, tid, victim);
    var i := s.callers[tid].call;
    var e := Entry(s.callers[tid].phase.expiresAt, s.calls[i].answer.value);
    StoreCounts(s.table.entries, Key(cfg, s, i), e, c.maxEntries, victim);
  }

  // ---------------------------------------------------------------- no stranding

  lemma ReachesOne(cfg: Client, s: State, a: Action, acts: seq<Action>, s': State)
    requires Enabled(cfg, s, a) && Reaches(cfg, Next(cfg, s, a), acts, s')
    ensures Reaches(cfg, s, [a] + acts, s')
  {
    assert ([a] + acts)[1..] == acts;
  }

  function PhaseRank(p: Phase): nat {
    match p
    case Calling => 4
    case Filled => 3
    case Stamped(_) => 2
    case Unlocked => 1
  }

  lemma OldestExists(entries: map<string, Entry>)
    requires entries != map[]
    ensures exists k :: k in entries && forall j | j in entries :: entries[k].expiresAt <= entries[j].expiresAt
    decreases |entries|
  {
    var k :| k in entries;
    var rest := entries - {k};
    assert rest.Keys == entries.Keys - {k};
    if rest != map[] {
      OldestExists(rest);
      var m :| m in rest && forall j | j in rest :: rest[m].expiresAt <= rest[j].expiresAt;
      var best := if entries[k].expiresAt <= entries[m].expiresAt then k else m;
      assert forall j | j in entries :: j == k || j in rest;
      assert best in entries && forall j | j in entries :: entries[best].expiresAt <= entries[j].expiresAt;
    } else {
      assert forall j | j in entries :: j == k by {
        assert forall j | j in entries && j != k :: j in rest;
      }
    }
  }

  lemma VictimExists(entries: map<string, Entry>, maxEntries: int)
    ensures exists victim :: Evictable(entries, maxEntries, victim)
  {
    if |entries| >= maxEntries && entries != map[] {
      OldestExists(entries);
      var k :| k in entries && forall j | j in entries :: entries[k].expiresAt <= entries[j].expiresAt;
      assert Evictable(entries, maxEntries, Some(k));
    } else {
      assert Evictable(entries, maxEntries, None);
    }
  }

  // What a step of a leading caller does: no other caller and no other call change,
  // and its own call is one phase further on, or done after the last.
  ghost predicate Advances(s: State, t: State, tid: nat) {
    tid in s.callers && s.callers[tid].Leading? &&
    var call := s.callers[tid].call;
    call < |s.calls| == |t.calls| &&
    (forall c | 0 <= c < |s.calls| && c != call :: t.calls[c] == s.calls[c]) &&
    t.calls[call].leader == s.calls[call].leader &&
    (forall i | i in s.callers && i != tid :: i in t.callers && t.callers[i] == s.callers[i]) &&
    if t.calls[call].done then tid !in t.callers && PhaseRank(s.callers[tid].phase) == 1
    else tid in t.callers && t.callers[tid].Leading? && t.callers[tid].call == call &&
         PhaseRank(t.callers[tid].phase) + 1 == PhaseRank(s.callers[tid].phase)
  }

  lemma InnerAdvances(cfg: Client, s: State, tid: nat, answer: Answer)
    requires Refers(s, tid) && PhaseOf(s, tid) == Some(Calling) && !s.calls[s.callers[tid].call].done
    ensures Advances(s, Next(cfg, s, Inner(tid, answer)), tid)
  {
  }

  lemma StampAdvances(cfg: Client, s: State, tid: nat)
    requires Refers(s, tid) && PhaseOf(s, tid) == Some(Filled) && !s.calls[s.callers[tid].call].done
    ensures Advances(s, Next(cfg, s, Stamp(tid)), tid)
  {
  }

  lemma UnlockAdvances(cfg: Client, s: State, tid: nat, victim: Option<string>)
    requires Defined(cfg, s, Unlock(tid, victim)) && !s.calls[s.callers[tid].call].done
    ensures Advances(s, Next(cfg, s, Unlock(tid, victim)), tid)
  {
  }

  lemma FinishAdvances(cfg: Client, s: State, tid: nat)
    requires Defined(cfg, s, Finish(tid)) && PhaseOf(s, tid) == Some(Unlocked)
    ensures Advances(s, Next(cfg, s, Finish(tid)), tid)
  {
  }

  predicate LeaderAct(a: Action) { a.Inner? || a.Stamp? || a.Unlock? || a.Finish? }

  lemma LeaderAdvances(cfg: Client, s: State, a: Action)
    requires Inv(cfg, s) && Enabled(cfg, s, a) && LeaderAct(a)
    ensures Advances(s, Next(cfg, s, a), a.tid)
  {
    EnabledIsDefined(cfg, s, a);
    assert CallerOk(cfg, s, a.tid);
    match a
    case Inner(tid, answer) => InnerAdvances(cfg, s, tid, answer);
    case Stamp(tid) => StampAdvances(cfg, s, tid);
    case Unlock(tid, victim) => UnlockAdvances(cfg, s, tid, victim);
    case Finish(tid) => FinishAdvances(cfg, s, tid);
  }

  // A leader always has a next step.
  lemma LeaderStep(cfg: Client, s: State, tid: nat, answer: Answer) returns (a: Action)
    requires tid in s.callers && s.callers[tid].Leading?
    ensures Enabled(cfg, s, a) && LeaderAct(a) && a.tid == tid
  {
    match s.callers[tid].phase
    case Calling => a := Inner(tid, answer);
    case Filled => a := Stamp(tid);
    case Stamped(_) =>
      VictimExists(s.table.entries, cfg.maxEntries);
      var victim :| Evictable(s.table.entries, cfg.maxEntries, victim);
      a := Unlock(tid, victim);
    case Unlocked => a := Finish(tid);
  }

  // Every action is a step of one of the callers.
  predicate AllBy(acts: seq<Action>, tids: set<nat>) {
    forall i | 0 <= i < |acts| :: Actor(acts[i]).Some? && Actor(acts[i]).value in tids
  }

  lemma StepBy(a: Action, acts: seq<Action>, tids: set<nat>, all: set<nat>)
    requires AllBy(acts, tids) && tids <= all && Actor(a).Some? && Actor(a).value in all
    ensures AllBy([a] + acts, all) && AllBy(acts + [a], all)
  {
  }

  // A leader can always finish its call by its own steps, once the inner client
  // answers.
  lemma {:induction false} LeaderFinishes(cfg: Client, s: State, tid: nat, answer: Answer)
      returns (acts: seq<Action>, t: State)
    requires KeyFixesTTL(cfg) && Inv(cfg, s) && tid in s.callers && s.callers[tid].Leading?
    ensures Inv(cfg, t) && Reaches(cfg, s, acts, t) && |acts| <= PhaseRank(s.callers[tid].phase)
    ensures AllBy(acts, {tid})
    ensures s.callers[tid].call < |t.calls| && t.calls[s.callers[tid].call].done
    ensures forall i | i in s.callers && i != tid :: i in t.callers && t.callers[i] == s.callers[i]
    decreases PhaseRank(s.callers[tid].phase)
  {
    var a := LeaderStep(cfg, s, tid, answer);
    var next := Next(cfg, s, a);
    NextKeeps(cfg, s, a);
    LeaderAdvances(cfg, s, a);
    if tid in next.callers {
      acts, t := LeaderFinishes(cfg, next, tid, answer);
    } else {
      acts, t := [], next;
    }
    ReachesOne(cfg, s, a, acts, t);
    StepBy(a, acts, {tid}, {tid});
    acts := [a] + acts;
  }

  lemma {:induction false} ReachesThen(cfg: Client, s: State, acts: seq<Action>, t: State, a: Action)
    requires Reaches(cfg, s, acts, t) && Enabled(cfg, t, a)
    ensures Reaches(cfg, s, acts + [a], Next(cfg, t, a))
    decreases |acts|
  {
    if acts == [] {
      assert (acts + [a])[1..] == [];
    } else {
      ReachesThen(cfg, Next(cfg, s, acts[0]), acts[1..], t, a);
      assert (acts + [a])[0] == acts[0] && (acts + [a])[1..] == acts[1..] + [a];
    }
  }

  lemma WakeServes(cfg: Client, s: State, tid: nat)
    requires Inv(cfg, s) && tid in s.callers && s.callers[tid].Waiting?
    requires s.callers[tid].call < |s.calls| && s.calls[s.callers[tid].call].done
    ensures Enabled(cfg, s, Wake(tid))
    ensures var t := Next(cfg, s, Wake(tid));
            tid !in t.callers && t.served != [] &&
            var v := t.served[|t.served| - 1];
            v.req == s.callers[tid].req && v.source == s.callers[tid].call && v.how == Waited(s.callers[tid].since)
  {
    EnabledIsDefined(cfg, s, Wake(tid));
  }

  // The call a caller waits for can be finished by its leader.
  lemma CallFinishes(cfg: Client, s: State, tid: nat, answer: Answer) returns (acts: seq<Action>, t: State)
    requires KeyFixesTTL(cfg) && Inv(cfg, s) && tid in s.callers && s.callers[tid].Waiting?
    ensures Inv(cfg, t) && Reaches(cfg, s, acts, t) && |acts| <= 4 && s.callers[tid].call < |s.calls|
    ensures AllBy(acts, {s.calls[s.callers[tid].call].leader})
    ensures tid in t.callers && t.callers[tid] == s.callers[tid]
    ensures s.callers[tid].call < |t.calls| && t.calls[s.callers[tid].call].done
  {
    assert CallerOk(cfg, s, tid) && CallOk(cfg, s, s.callers[tid].call);
    if s.calls[s.callers[tid].call].done {
      acts, t := [], s;
    } else {
      acts, t := LeaderFinishes(cfg, s, s.calls[s.callers[tid].call].leader, answer);
    }
  }

  // No waiter is stranded: from every reachable state in which a caller waits, at
  // most five steps of the call's leader and of the waiter bring it its answer.
  lemma WaiterIsServed(cfg: Client, s: State, tid: nat, answer: Answer)
      returns (acts: seq<Action>, t: State)
    requires KeyFixesTTL(cfg) && Inv(cfg, s) && tid in s.callers && s.callers[tid].Waiting?
    ensures Reaches(cfg, s, acts, t) && |acts| <= 5 && s.callers[tid].call < |s.calls|
    ensures AllBy(acts, {tid, s.calls[s.callers[tid].call].leader})
    ensures tid !in t.callers && t.served != []
    ensures var v := t.served[|t.served| - 1];
            v.req == s.callers[tid].req && v.source == s.callers[tid].call && v.how == Waited(s.callers[tid].since)
  {
    var before, mid := CallFinishes(cfg, s, tid, answer);
    var leader := s.calls[s.callers[tid].call].leader;
    WakeServes(cfg, mid, tid);
    ReachesThen(cfg, s, before, mid, Wake(tid));
    StepBy(Wake(tid), before, {leader}, {tid, leader});
    acts, t := before + [Wake(tid)], Next(cfg, mid, Wake(tid));
  }

  // How many steps of its leader a call is away from being done.
  function Left(s: State, c: nat): nat
    requires c < |s.calls|
  {
    var phase := PhaseOf(s, s.calls[c].leader);
    if s.calls[c].done || phase.None? then 0 else PhaseRank(phase.value)
  }

  function CountBy(acts: seq<Action>, tid: nat): nat {
    if acts == [] then 0 else (if Actor(acts[0]) == Some(tid) then 1 else 0) + CountBy(acts[1..], tid)
  }

  lemma LeftMeans(cfg: Client, s: State, c: nat)
    requires CallsOk(cfg, s) && c < |s.calls|
    ensures Left(s, c) == 0 <==> s.calls[c].done
    ensures !s.calls[c].done ==> var l := s.calls[c].leader; PhaseOf(s, l).Some? && s.callers[l].call == c
  {
    assert CallOk(cfg, s, c);
  }

  // A step that brings no call further: no call and no leading caller change.
  lemma QuietLeft(cfg: Client, s: State, t: State, c: nat)
    requires CallsOk(cfg, s) && c < |s.calls| <= |t.calls| && t.calls[c] == s.calls[c]
    requires forall i | i in s.callers && s.callers[i].Leading? :: i in t.callers && t.callers[i] == s.callers[i]
    ensures Left(t, c) == Left(s, c)
  {
    LeftMeans(cfg, s, c);
  }

  lemma AdvancesLeft(cfg: Client, s: State, t: State, tid: nat, c: nat)
    requires CallsOk(cfg, s) && CallersOk(cfg, s) && Advances(s, t, tid) && c < |s.calls|
    ensures t.calls[c].leader == s.calls[c].leader
    ensures Left(t, c) == if tid == s.calls[c].leader && Left(s, c) > 0 then Left(s, c) - 1 else Left(s, c)
  {
    LeftMeans(cfg, s, c);
    assert CallerOk(cfg, s, tid);
  }

  lemma BeginFrame(cfg: Client, s: State, tid: nat, req: Request)
    requires cfg.key(req) in s.table.entries ==> cfg.key(req) in s.sources
    ensures var t := BeginStep(cfg, s, tid, req);
            |s.calls| <= |t.calls| && (forall c | 0 <= c < |s.calls| :: t.calls[c] == s.calls[c]) &&
            forall i | i in s.callers && i != tid :: i in t.callers && t.callers[i] == s.callers[i]
  {
  }

  // Every step of its leader brings a call one step closer, and nothing else does.
  lemma StepLeft(cfg: Client, s: State, a: Action, c: nat)
    requires Inv(cfg, s) && Enabled(cfg, s, a) && c < |s.calls|
    ensures var t, leader := Next(cfg, s, a), s.calls[c].leader;
            c < |t.calls| && t.calls[c].leader == leader &&
            Left(t, c) == if Actor(a) == Some(leader) && Left(s, c) > 0 then Left(s, c) - 1 else Left(s, c)
  {
    EnabledIsDefined(cfg, s, a);
    if LeaderAct(a) {
      LeaderAdvances(cfg, s, a);
      AdvancesLeft(cfg, s, Next(cfg, s, a), a.tid, c);
    } else {
      LeftMeans(cfg, s, c);
      if a.Begin? {
        BeginFrame(cfg, s, a.tid, a.req);
      }
      QuietLeft(cfg, s, Next(cfg, s, a), c);
    }
  }

  // From s the call c has n steps left and was led by leader.
  ghost predicate LeftIs(cfg: Client, s: State, c: nat, leader: nat, n: nat) {
    Inv(cfg, s) && c < |s.calls| && s.calls[c].leader == leader && Left(s, c) == n
  }

  function Less(n: nat, acts: seq<Action>, leader: nat): nat { Max(0, n - CountBy(acts, leader)) }

  lemma LessThen(n: nat, acts: seq<Action>, leader: nat)
    ensures acts == [] ==> Less(n, acts, leader) == n
    ensures acts != [] ==>
              Less(n, acts, leader) ==
              Less(if Actor(acts[0]) == Some(leader) && n > 0 then n - 1 else n, acts[1..], leader)
  {
  }

  lemma LeftThen(cfg: Client, s: State, a: Action, c: nat, leader: nat, n: nat)
    requires KeyFixesTTL(cfg) && LeftIs(cfg, s, c, leader, n) && Enabled(cfg, s, a)
    ensures LeftIs(cfg, Next(cfg, s, a), c, leader, if Actor(a) == Some(leader) && n > 0 then n - 1 else n)
  {
    NextKeeps(cfg, s, a);
    StepLeft(cfg, s, a, c);
  }

  lemma {:induction false} RunLeft(cfg: Client, s: State, acts: seq<Action>, t: State, c: nat, leader: nat, n: nat)
    requires KeyFixesTTL(cfg) && LeftIs(cfg, s, c, leader, n) && Reaches(cfg, s, acts, t)
    ensures LeftIs(cfg, t, c, leader, Less(n, acts, leader))
    decreases |acts|
  {
    LessThen(n, acts, leader);
    if acts != [] {
      var a := acts[0];
      LeftThen(cfg, s, a, c, leader, n);
      RunLeft(cfg, Next(cfg, s, a), acts[1..], t, c, leader, if Actor(a) == Some(leader) && n > 0 then n - 1 else n);
    }
  }

  lemma DoneIsNothingLeft(cfg: Client, s: State, c: nat, leader: nat, n: nat)
    requires LeftIs(cfg, s, c, leader, n)
    ensures c < |s.calls| && (s.calls[c].done <==> n == 0) && n <= 4
  {
    LeftMeans(cfg, s, c);
  }

  // In every run, a call is done exactly when its leader has taken the steps that were
  // left, whatever the other callers do and however the steps are interleaved.
  lemma DoneIffLeaderWent(cfg: Client, s: State, acts: seq<Action>, t: State, c: nat)
    requires KeyFixesTTL(cfg) && Inv(cfg, s) && Reaches(cfg, s, acts, t) && c < |s.calls|
    ensures c < |t.calls| && (t.calls[c].done <==> CountBy(acts, s.calls[c].leader) >= Left(s, c))
  {
    var leader, n := s.calls[c].leader, Left(s, c);
    RunLeft(cfg, s, acts, t, c, leader, n);
    DoneIsNothingLeft(cfg, t, c, leader, Less(n, acts, leader));
  }

  lemma StepWaits(cfg: Client, s: State, a: Action, tid: nat)
    requires Inv(cfg, s) && Enabled(cfg, s, a) && tid in s.callers && s.callers[tid].Waiting? && a != Wake(tid)
    ensures var t := Next(cfg, s, a); tid in t.callers && t.callers[tid] == s.callers[tid]
  {
    EnabledIsDefined(cfg, s, a);
    if LeaderAct(a) {
      LeaderAdvances(cfg, s, a);
    } else if a.Begin? {
      BeginFrame(cfg, s, a.tid, a.req);
    }
  }

  lemma {:induction false} RunWaits(cfg: Client, s: State, acts: seq<Action>, t: State, tid: nat)
    requires KeyFixesTTL(cfg) && Inv(cfg, s) && Reaches(cfg, s, acts, t)
    requires tid in s.callers && s.callers[tid].Waiting? && Wake(tid) !in acts
    ensures tid in t.callers && t.callers[tid] == s.callers[tid]
    decreases |acts|
  {
    if acts != [] {
      NextKeeps(cfg, s, acts[0]);
      StepWaits(cfg, s, acts[0], tid);
      RunWaits(cfg, Next(cfg, s, acts[0]), acts[1..], t, tid);
    }
  }

  // A waiter that has not been woken yet still waits for the same call, and can be
  // woken exactly when that call's leader has taken the steps that were left.
  lemma WaiterWakesIff(cfg: Client, s: State, acts: seq<Action>, t: State, tid: nat)
    requires KeyFixesTTL(cfg) && Inv(cfg, s) && Reaches(cfg, s, acts, t)
    requires tid in s.callers && s.callers[tid].Waiting? && Wake(tid) !in acts
    ensures tid in t.callers && t.callers[tid] == s.callers[tid] && s.callers[tid].call < |s.calls|
    ensures var c := s.callers[tid].call;
            Left(s, c) <= 4 && (Enabled(cfg, t, Wake(tid)) <==> CountBy(acts, s.calls[c].leader) >= Left(s, c))
  {
    assert CallerOk(cfg, s, tid);
    RunWaits(cfg, s, acts, t, tid);
    DoneIffLeaderWent(cfg, s, acts, t, s.callers[tid].call);
  }

  // ---------------------------------------------------------------- separation

  lemma {:induction false} BrokenStays(log: seq<Event>, n: nat, key: string)
    requires n <= |log| && ModeOf(log[..n], key) == Broken
    ensures ModeOf(log, key) == Broken
    decreases |log|
  {
    if n == |log| {
      assert log[..n] == log;
    } else {
      assert log[..|log| - 1][..n] == log[..n];
      BrokenStays(log[..|log| - 1], n, key);
    }
  }

  lemma PrefixMode(log: seq<Event>, i: nat, key: string)
    requires i < |log|
    ensures ModeOf(log[..i + 1], key) == Move(ModeOf(log[..i], key), log[i], key)
  {
    assert log[..i + 1][..i] == log[..i];
  }

  // The key's entry was stored at m and evicted or found expired at n.
  ghost predicate KeptThenLost(log: seq<Event>, key: string, m: nat, n: nat) {
    m < n < |log| && log[m].Kept? && log[m].key == key && log[n].key == key &&
    (log[n].Evicted? || (log[n].Expired? && log[m].expiresAt < log[n].at))
  }

  lemma {:induction false} ColdAfterFlying(log: seq<Event>, key: string, i: nat, j: nat)
    requires i < j <= |log| && ModeOf(log, key) != Broken
    requires log[i].Started? && log[i].key == key && ModeOf(log[..i + 1], key) == Flying
    ensures match ModeOf(log[..j], key)
            case Cold => exists m, n | i < m < n < j :: KeptThenLost(log, key, m, n)
            case Warm(expiresAt) => exists m | i < m < j :: log[m] == Kept(key, expiresAt)
            case _ => true
    decreases j
  {
    if j > i + 1 {
      ColdAfterFlying(log, key, i, j - 1);
      PrefixMode(log, j - 1, key);
      var was, e := ModeOf(log[..j - 1], key), log[j - 1];
      if was == Broken {
        BrokenStays(log, j - 1, key);
      } else if ModeOf(log[..j], key) == Broken {
        BrokenStays(log, j, key);
      } else if was.Warm? && e.key == key {
        var m :| i < m < j - 1 && log[m] == Kept(key, was.expiresAt);
        assert KeptThenLost(log, key, m, j - 1);
      } else if was.Cold? && e.key != key {
        var m, n :| i < m < n < j - 1 && KeptThenLost(log, key, m, n);
        assert i < m < n < j;
      } else if was.Flying? && e.key == key {
        assert log[j - 1] == Kept(key, e.expiresAt);
      }
    }
  }

  lemma StartsAreSeparated(log: seq<Event>, key: string, i: nat, j: nat)
    requires ModeOf(log, key) != Broken
    requires i < j < |log| && log[i].Started? && log[i].key == key && log[j].Started? && log[j].key == key
    ensures exists m, n | i < m < n < j :: KeptThenLost(log, key, m, n)
  {
    PrefixMode(log, i, key);
    if ModeOf(log[..i + 1], key) == Broken {
      BrokenStays(log, i + 1, key);
    }
    PrefixMode(log, j, key);
    if ModeOf(log[..j + 1], key) == Broken {
      BrokenStays(log, j + 1, key);
    }
    ColdAfterFlying(log, key, i, j);
  }

  ghost predicate StartLogged(cfg: Client, s: State, c: nat)
    requires c < |s.calls|
  {
    exists i | 0 <= i < |s.log| :: s.log[i] == Started(Key(cfg, s, c), c)
  }

  // The log records every start, in the order of the calls.
  ghost predicate StartsLogged(cfg: Client, s: State) {
    (forall c | 0 <= c < |s.calls| :: StartLogged(cfg, s, c)) &&
    (forall i | 0 <= i < |s.log| && s.log[i].Started? :: s.log[i].call < |s.calls|) &&
    (forall i, j | 0 <= i < j < |s.log| && s.log[i].Started? && s.log[j].Started? :: s.log[i].call < s.log[j].call)
  }

  // A call starts only after every earlier call for its key was released.
  ghost predicate OneAfterAnother(cfg: Client, s: State) {
    forall c, d | 0 <= c < d < |s.calls| && Key(cfg, s, c) == Key(cfg, s, d) ::
      s.calls[c].releasedAt.Some? && s.calls[c].releasedAt.value <= s.calls[d].startedAt
  }

  // What a step does to the calls and the log: records only gain, and at most one
  // call is added, for a key not in flight, its start logged last.
  ghost predicate StepShape(cfg: Client, s: State, t: State) {
    |s.calls| <= |t.calls| <= |s.calls| + 1 && s.log <= t.log &&
    (forall c | 0 <= c < |s.calls| ::
       t.calls[c].req == s.calls[c].req && t.calls[c].startedAt == s.calls[c].startedAt &&
       (s.calls[c].releasedAt.Some? ==> t.calls[c].releasedAt == s.calls[c].releasedAt)) &&
    (forall i | |s.log| <= i < |t.log| && t.log[i].Started? :: i == |t.log| - 1 && |t.calls| == |s.calls| + 1) &&
    (|t.calls| == |s.calls| + 1 ==>
       Key(cfg, t, |s.calls|) !in s.table.inflight && t.calls[|s.calls|].startedAt == s.now &&
       |s.log| < |t.log| && t.log[|t.log| - 1] == Started(Key(cfg, t, |s.calls|), |s.calls|))
  }

  lemma QuietShape(cfg: Client, s: State, t: State)
    requires t.calls == s.calls && t.log == s.log
    ensures StepShape(cfg, s, t)
  {
  }

  lemma LeadShape(cfg: Client, s: State, table: Table<nat>, tid: nat, req: Request)
    requires cfg.key(req) !in s.table.inflight
    ensures StepShape(cfg, s, LeadStep(s, table, cfg.key(req), tid, req))
  {
  }

  lemma BeginIsQuiet(cfg: Client, s: State, tid: nat, req: Request)
    requires cfg.key(req) in s.table.entries ==> cfg.key(req) in s.sources
    requires !Acquired(s.table, cfg.key(req), s.now, |s.calls|).1.Lead?
    ensures BeginStep(cfg, s, tid, req).calls == s.calls && BeginStep(cfg, s, tid, req).log == s.log
  {
  }

  lemma BeginLeads(cfg: Client, s: State, tid: nat, req: Request)
    requires cfg.key(req) in s.table.entries ==> cfg.key(req) in s.sources
    requires Acquired(s.table, cfg.key(req), s.now, |s.calls|).1.Lead?
    ensures cfg.key(req) !in s.table.inflight
    ensures BeginStep(cfg, s, tid, req) ==
            LeadStep(s, Acquired(s.table, cfg.key(req), s.now, |s.calls|).0, cfg.key(req), tid, req)
  {
  }

  lemma BeginShape(cfg: Client, s: State, tid: nat, req: Request)
    requires cfg.key(req) in s.table.entries ==> cfg.key(req) in s.sources
    ensures StepShape(cfg, s, BeginStep(cfg, s, tid, req))
  {
    var (table, lookup) := Acquired(s.table, cfg.key(req), s.now, |s.calls|);
    if lookup.Lead? {
      BeginLeads(cfg, s, tid, req);
      LeadShape(cfg, s, table, tid, req);
    } else {
      BeginIsQuiet(cfg, s, tid, req);
      QuietShape(cfg, s, BeginStep(cfg, s, tid, req));
    }
  }

  lemma UnlockShape(cfg: Client, s: State, tid: nat, victim: Option<string>)
    requires Defined(cfg, s, Unlock(tid, victim)) && s.calls[s.callers[tid].call].releasedAt.None?
    ensures StepShape(cfg, s, UnlockStep(cfg, s, tid, victim))
  {
  }

  lemma InnerShape(cfg: Client, s: State, tid: nat, answer: Answer)
    requires Refers(s, tid)
    ensures StepShape(cfg, s, Next(cfg, s, Inner(tid, answer)))
  {
  }

  lemma FinishShape(cfg: Client, s: State, tid: nat)
    requires Defined(cfg, s, Finish(tid))
    ensures StepShape(cfg, s, Next(cfg, s, Finish(tid)))
  {
  }

  lemma NextShape(cfg: Client, s: State, a: Action)
    requires Inv(cfg, s) && Enabled(cfg, s, a)
    ensures StepShape(cfg, s, Next(cfg, s, a))
  {
    EnabledIsDefined(cfg, s, a);
    match a
    case Begin(tid, req) => BeginShape(cfg, s, tid, req);
    case Unlock(tid, victim) =>
      assert CallerOk(cfg, s, tid);
      UnlockShape(cfg, s, tid, victim);
    case Inner(tid, answer) => InnerShape(cfg, s, tid, answer);
    case Finish(tid) => FinishShape(cfg, s, tid);
    case _ => QuietShape(cfg, s, Next(cfg, s, a));
  }

  lemma ShapeOrders(cfg: Client, s: State, t: State)
    requires CallsOk(cfg, s) && OneAfterAnother(cfg, s) && StepShape(cfg, s, t)
    ensures OneAfterAnother(cfg, t)
  {
    forall c, d | 0 <= c < d < |t.calls| && Key(cfg, t, c) == Key(cfg, t, d)
      ensures t.calls[c].releasedAt.Some? && t.calls[c].releasedAt.value <= t.calls[d].startedAt
    {
      assert CallOk(cfg, s, c);
      assert d < |s.calls| ==> Key(cfg, s, c) == Key(cfg, s, d);
    }
  }

  lemma ShapeLogs(cfg: Client, s: State, t: State)
    requires StartsLogged(cfg, s) && StepShape(cfg, s, t)
    ensures StartsLogged(cfg, t)
  {
    forall c | 0 <= c < |t.calls| ensures StartLogged(cfg, t, c) {
      if c < |s.calls| {
        assert StartLogged(cfg, s, c);
        var i :| 0 <= i < |s.log| && s.log[i] == Started(Key(cfg, s, c), c);
        assert t.log[i] == Started(Key(cfg, t, c), c);
      } else {
        assert t.log[|t.log| - 1] == Started(Key(cfg, t, c), c);
      }
    }
    assert forall i | 0 <= i < |s.log| :: t.log[i] == s.log[i];
  }

  lemma {:induction false} RunHistory(cfg: Client, s: State, acts: seq<Action>, t: State)
    requires KeyFixesTTL(cfg) && Inv(cfg, s) && StartsLogged(cfg, s) && OneAfterAnother(cfg, s)
    requires Reaches(cfg, s, acts, t)
    ensures StartsLogged(cfg, t) && OneAfterAnother(cfg, t)
    decreases |acts|
  {
    if acts != [] {
      NextKeeps(cfg, s, acts[0]);
      NextShape(cfg, s, acts[0]);
      ShapeOrders(cfg, s, Next(cfg, s, acts[0]));
      ShapeLogs(cfg, s, Next(cfg, s, acts[0]));
      RunHistory(cfg, Next(cfg, s, acts[0]), acts[1..], t);
    }
  }

  lemma LoggedApart(cfg: Client, s: State, c: nat, d: nat) returns (i: nat, j: nat)
    requires StartsLogged(cfg, s) && c < d < |s.calls|
    ensures i < j < |s.log|
    ensures s.log[i] == Started(Key(cfg, s, c), c) && s.log[j] == Started(Key(cfg, s, d), d)
  {
    assert StartLogged(cfg, s, c) && StartLogged(cfg, s, d);
    i :| 0 <= i < |s.log| && s.log[i] == Started(Key(cfg, s, c), c);
    j :| 0 <= j < |s.log| && s.log[j] == Started(Key(cfg, s, d), d);
  }

  lemma Separated(cfg: Client, s: State, first: nat, second: nat) returns (i: nat, j: nat, m: nat, n: nat)
    requires LogOk(s) && StartsLogged(cfg, s) && OneAfterAnother(cfg, s)
    requires first < second < |s.calls| && Key(cfg, s, first) == Key(cfg, s, second)
    ensures s.calls[first].releasedAt.Some? && s.calls[first].releasedAt.value <= s.calls[second].startedAt
    ensures i < m < n < j < |s.log|
    ensures s.log[i] == Started(Key(cfg, s, first), first) && s.log[j] == Started(Key(cfg, s, second), second)
    ensures KeptThenLost(s.log, Key(cfg, s, first), m, n)
  {
    var key := Key(cfg, s, first);
    i, j := LoggedApart(cfg, s, first, second);
    assert ModeOf(s.log, key) == TableMode(s.table, key) != Broken;
    StartsAreSeparated(s.log, key, i, j);
    m, n :| i < m < n < j && KeptThenLost(s.log, key, m, n);
  }

  // Two inner calls for one key never overlap, and between their starts an entry
  // stored for the key was evicted or found expired.
  lemma CallsAreSeparated(c: Config, now: int, acts: seq<Action>, s: State, first: nat, second: nat)
      returns (i: nat, j: nat, m: nat, n: nat)
    requires c.instantTTL >= SECOND && Reaches(ClientOf(c), Init(now), acts, s)
    requires first < second < |s.calls| && KeyOf(c, s.calls[first].req) == KeyOf(c, s.calls[second].req)
    ensures s.calls[first].releasedAt.Some? && s.calls[first].releasedAt.value <= s.calls[second].startedAt
    ensures i < m < n < j < |s.log|
    ensures s.log[i] == Started(KeyOf(c, s.calls[first].req), first)
    ensures s.log[j] == Started(KeyOf(c, s.calls[second].req), second)
    ensures KeptThenLost(s.log, KeyOf(c, s.calls[first].req), m, n)
  {
    var cfg := ClientOf(c);
    ClientKeysFixTTL(c);
    InitOk(cfg, now);
    RunKeeps(cfg, Init(now), acts, s);
    RunHistory(cfg, Init(now), acts, s);
    i, j, m, n := Separated(cfg, s, first, second);
  }
}
