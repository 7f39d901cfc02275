// agent/prom/cache.go: the table behind the caching Prometheus client, and the
// critical sections that lookup, release and store run under its mutex.
module PromCache {
  import opened Prelude
  import opened Text

  datatype Sample = Sample(labels: map<string, string>, value: real, at: int)
  datatype Point = Point(at: int, value: real)
  datatype Series = Series(labels: map<string, string>, points: seq<Point>)

  // What an inner call returned: samples for an instant query, series for a
  // range query, or an error. Errors are cached like answers.
  datatype Answer = Answer(samples: seq<Sample>, series: seq<Series>, err: Option<string>)

  datatype Entry = Entry(expiresAt: int, answer: Answer)

  // The mutex-protected state; C identifies an in-flight call.
  datatype Table<C> = Table(entries: map<string, Entry>, inflight: map<string, C>)

  datatype Lookup<C> = Hit(answer: Answer) | Join(call: C) | Lead

  // The table after a lookup at time now, and what the caller is to do. A caller
  // told to lead has registered call under the key.
  function Acquired<C>(t: Table<C>, key: string, now: int, call: C): (Table<C>, Lookup<C>) {
    if key in t.entries && now <= t.entries[key].expiresAt then (t, Hit(t.entries[key].answer))
    else
      var entries := t.entries - {key};
      if key in t.inflight then (Table(entries, t.inflight), Join(t.inflight[key]))
      else (Table(entries, t.inflight[key := call]), Lead)
  }

  // victim is a legitimate choice of the entry to drop before a store.
  ghost predicate Evictable(entries: map<string, Entry>, maxEntries: int, victim: Option<string>) {
    if |entries| >= maxEntries && entries != map[] then
      victim.Some? && victim.value in entries &&
      forall k | k in entries :: entries[victim.value].expiresAt <= entries[k].expiresAt
    else victim.None?
  }

  function Stored(entries: map<string, Entry>, key: string, e: Entry, victim: Option<string>): map<string, Entry> {
    (if victim.Some? then entries - {victim.value} else entries)[key := e]
  }

  function Released<C>(t: Table<C>, key: string, e: Entry, victim: Option<string>): Table<C> {
    Table(Stored(t.entries, key, e, victim), t.inflight - {key})
  }

  const MINUTE: int := 60 * 1_000_000_000
  const DAY: int := 24 * 60 * MINUTE

  // An in-flight call. done is the wait group: no waiter gets past it before.
  class Call {
    var answer: Answer
    var done: bool

    constructor (answer: Answer, done: bool)
      ensures this.answer == answer && this.done == done
    {
      this.answer, this.done := answer, done;
    }
  }

  class CachingClient {
    var instantTTL: int
    var rangeTTL: int
    var maxEntries: int
    var entries: map<string, Entry>
    var inflight: map<string, Call>

    ghost function View(): Table<Call>
      reads this
    {
      Table(entries, inflight)
    }

    // Keys start with "q:" or "qr:", so the loop in StoreLocked may take the
    // empty string for "none chosen yet".
    ghost predicate Valid()
      reads this
    {
      "" !in entries && "" !in inflight
    }

    constructor (instantTTL: int, rangeTTL: int)
      ensures Valid() && View() == Table(map[], map[])
      ensures this.instantTTL == (if instantTTL <= 0 then MINUTE else instantTTL)
      ensures this.rangeTTL == (if rangeTTL <= 0 then DAY else rangeTTL)
      ensures maxEntries == 1024
    {
      this.instantTTL := if instantTTL <= 0 then MINUTE else instantTTL;
      this.rangeTTL := if rangeTTL <= 0 then DAY else rangeTTL;
      maxEntries, entries, inflight := 1024, map[], map[];
    }

    method Acquire(key: string, now: int) returns (call: Call, leader: bool)
      requires Valid() && key != ""
      modifies this`entries, this`inflight
      ensures Valid()
      ensures View() == Acquired(old(View()), key, now, call).0
      ensures match Acquired(old(View()), key, now, call).1
              case Hit(answer) => !leader && fresh(call) && call.done && call.answer == answer
              case Join(c) => !leader && call == c
              case Lead => leader && fresh(call) && !call.done
    {
      if key in entries {
        var e := entries[key];
        if now <= e.expiresAt {
          call := new Call(e.answer, true);
          return call, false;
        }
        entries := entries - {key};
      }
      assert entries == old(entries) - {key};
      if key in inflight {
        return inflight[key], false;
      }
      call := new Call(Answer([], [], None), false);
      inflight := inflight[key := call];
      return call, true;
    }

    method StoreLocked(key: string, e: Entry) returns (ghost victim: Option<string>)
      requires Valid() && key != ""
      modifies this`entries
      ensures Valid()
      ensures Evictable(old(entries), maxEntries, victim)
      ensures entries == Stored(old(entries), key, e, victim)
    {
      victim := None;
      if |entries| >= maxEntries {
        var oldestKey, oldest := "", 0;
        var rest := entries.Keys;
        while rest != {}
          invariant rest <= entries.Keys
          invariant oldestKey == "" <==> rest == entries.Keys
          invariant oldestKey != "" ==> oldestKey in entries && oldest == entries[oldestKey].expiresAt
          invariant oldestKey != "" ==> forall k | k in entries.Keys - rest :: oldest <= entries[k].expiresAt
        {
          var k :| k in rest;
          var v := entries[k];
          if oldestKey == "" || v.expiresAt < oldest {
            oldestKey, oldest := k, v.expiresAt;
          }
          rest := rest - {k};
        }
        if oldestKey != "" {
          victim := Some(oldestKey);
          entries := entries - {oldestKey};
        }
      }
      entries := entries[key := e];
    }

    method Release(key: string, call: Call, e: Entry) returns (ghost victim: Option<string>)
      requires Valid() && key != ""
      modifies this`entries, this`inflight, call`done
      ensures Valid() && call.done
      ensures Evictable(old(entries), maxEntries, victim)
      ensures View() == Released(old(View()), key, e, victim)
    {
      inflight := inflight - {key};
      victim := StoreLocked(key, e);
      call.done := true;
    }

    // What Query and QueryRange share, for a caller that nobody interrupts: now and
    // later are the clock at the lookup and after the inner call, which returns
    // inner. None when the caller has to wait for a call in flight.
    method Serve(key: string, ttl: int, inner: Answer, now: int, later: int)
        returns (answer: Option<Answer>, ghost call: Call, ghost victim: Option<string>)
      requires Valid() && key != "" && forall k | k in inflight :: !inflight[k].done
      modifies this`entries, this`inflight
      ensures Valid()
      ensures Result(old(View()), View(), key, Entry(later + ttl, inner), now, answer, call, victim)
    {
      victim := None;
      var acquired, leader := Acquire(key, now);
      call := acquired;
      if !leader {
        return if acquired.done then Some(acquired.answer) else None, call, victim;
      }
      acquired.answer := inner;
      victim := Release(key, acquired, Entry(later + ttl, inner));
      return Some(inner), call, victim;
    }

    ghost predicate Result(before: Table<Call>, after: Table<Call>, key: string, e: Entry, now: int,
                           answer: Option<Answer>, call: Call, victim: Option<string>)
      reads this
    {
      var (t, lookup) := Acquired(before, key, now, call);
      match lookup
      case Hit(cached) => answer == Some(cached) && after == t
      case Join(c) => answer.None? && call == c && after == t
      case Lead =>
        answer == Some(e.answer) && Evictable(t.entries, maxEntries, victim) && after == Released(t, key, e, victim)
    }

    method Query(cfg: Config, promql: string, at: int, inner: Answer, now: int, later: int)
        returns (answer: Option<Answer>, ghost call: Call, ghost victim: Option<string>)
      requires Valid() && cfg.instantTTL == instantTTL >= SECOND && forall k | k in inflight :: !inflight[k].done
      modifies this`entries, this`inflight
      ensures Valid()
      ensures Result(old(View()), View(), KeyOf(cfg, Instant(promql, at)), Entry(later + instantTTL, inner), now,
                     answer, call, victim)
    {
      KeyKind(cfg, Instant(promql, at));
      answer, call, victim := Serve(KeyOf(cfg, Instant(promql, at)), instantTTL, inner, now, later);
    }

    method QueryRange(cfg: Config, promql: string, start: int, end: int, step: int, inner: Answer, now: int, later: int)
        returns (answer: Option<Answer>, ghost call: Call, ghost victim: Option<string>)
      requires Valid() && forall k | k in inflight :: !inflight[k].done
      modifies this`entries, this`inflight
      ensures Valid()
      ensures Result(old(View()), View(), KeyOf(cfg, Ranged(promql, start, end, step)), Entry(later + rangeTTL, inner),
                     now, answer, call, victim)
    {
      KeyKind(cfg, Ranged(promql, start, end, step));
      answer, call, victim := Serve(KeyOf(cfg, Ranged(promql, start, end, step)), rangeTTL, inner, now, later);
    }
  }

  // ---------------------------------------------------------------- keys

  datatype Request =
    | Instant(promql: string, at: int)
    | Ranged(promql: string, start: int, end: int, step: int)

  // Times and durations are nanoseconds. The two formatters stand for Go's
  // RFC 3339 rendering of a second and its rendering of a duration.
  datatype Config = Config(instantTTL: int, rangeTTL: int, maxEntries: int,
                           second: int -> string, duration: int -> string)

  const SECOND: int := 1_000_000_000

  // Go's % and / on int64, which truncate toward zero.
  function TruncMod(a: int, b: int): int
    requires b > 0
  {
    if a >= 0 then a % b else -((-a) % b)
  }

  // time.Time.Unix: whole seconds, rounded down.
  function Unix(t: int): int { t / SECOND }

  // The second an instant query's key is made from.
  function Bucket(at: int, ttl: int): int
    requires ttl >= SECOND
  {
    Unix(at) - TruncMod(Unix(at), ttl / SECOND)
  }

  function KeyOf(cfg: Config, r: Request): string
    requires r.Instant? ==> cfg.instantTTL >= SECOND
  {
    match r
    case Instant(promql, at) => "q:" + promql + "@" + cfg.second(Bucket(at, cfg.instantTTL))
    case Ranged(promql, start, end, step) =>
      "qr:" + promql + "|" + cfg.second(Unix(start)) + "|" + cfg.second(Unix(end)) + "|" + cfg.duration(step)
  }

  function TTL(cfg: Config, r: Request): int {
    if r.Instant? then cfg.instantTTL else cfg.rangeTTL
  }

  // What is assumed of the two formatters: distinct values print differently and
  // neither separator occurs in them.
  ghost predicate Faithful(cfg: Config) {
    (forall a, b :: cfg.second(a) == cfg.second(b) ==> a == b) &&
    (forall a, b :: cfg.duration(a) == cfg.duration(b) ==> a == b) &&
    (forall a :: '@' !in cfg.second(a) && '|' !in cfg.second(a)) &&
    (forall a :: '|' !in cfg.duration(a))
  }

  lemma KeyKind(cfg: Config, r: Request)
    requires r.Instant? ==> cfg.instantTTL >= SECOND
    ensures KeyOf(cfg, r) != ""
    ensures |KeyOf(cfg, r)| > 1 && KeyOf(cfg, r)[1] == if r.Instant? then ':' else 'r'
  {
  }

  // Requests share a key exactly when they are the same query: instant queries
  // whose times fall into one bucket, range queries whose bounds agree to the
  // second. The two kinds never share one.
  lemma SameKeyIff(cfg: Config, r: Request, s: Request)
    requires cfg.instantTTL >= SECOND && Faithful(cfg)
    ensures KeyOf(cfg, r) == KeyOf(cfg, s) <==>
            match (r, s)
            case (Instant(p, a), Instant(q, b)) => p == q && Bucket(a, cfg.instantTTL) == Bucket(b, cfg.instantTTL)
            case (Ranged(p, a, b, c), Ranged(q, d, e, f)) =>
              p == q && Unix(a) == Unix(d) && Unix(b) == Unix(e) && c == f
            case _ => false
  {
    KeyKind(cfg, r);
    KeyKind(cfg, s);
    if KeyOf(cfg, r) == KeyOf(cfg, s) {
      match (r, s)
      case (Instant(p, a), Instant(q, b)) =>
        var x, y := cfg.second(Bucket(a, cfg.instantTTL)), cfg.second(Bucket(b, cfg.instantTTL));
        LastSeparator("q:" + p, "q:" + q, '@', x, y);
        assert ("q:" + p)[2..] == p && ("q:" + q)[2..] == q;
      case (Ranged(p, a, b, c), Ranged(q, d, e, f)) =>
        var x, y := "qr:" + p + "|" + cfg.second(Unix(a)), "qr:" + q + "|" + cfg.second(Unix(d));
        LastSeparator(x + "|" + cfg.second(Unix(b)), y + "|" + cfg.second(Unix(e)), '|',
                      cfg.duration(c), cfg.duration(f));
        LastSeparator(x, y, '|', cfg.second(Unix(b)), cfg.second(Unix(e)));
        LastSeparator("qr:" + p, "qr:" + q, '|', cfg.second(Unix(a)), cfg.second(Unix(d)));
        assert ("qr:" + p)[3..] == p && ("qr:" + q)[3..] == q;
      case _ =>
    }
  }

  lemma Grows(d: int, w: int)
    requires w > 0
    ensures d >= 1 ==> d * w >= w
    ensures d <= -1 ==> d * w <= -w
  {
  }

  lemma Remainder(q: int, r: int, w: int)
    requires 0 <= r < w
    ensures (q * w + r) % w == r
  {
    var t := q * w + r;
    assert (q - t / w) * w == t % w - r;
    Grows(q - t / w, w);
  }

  lemma RoundedDown(t: int, w: int, k: int)
    requires w > 0
    ensures t - t % w == k <==> k % w == 0 && k <= t < k + w
  {
    if t - t % w == k {
      assert k == (t / w) * w;
      Remainder(t / w, 0, w);
    } else if k % w == 0 && k <= t < k + w {
      assert t == (k / w) * w + (t - k);
      Remainder(k / w, t - k, w);
    }
  }

  lemma MultipleNegates(k: int, w: int)
    requires w > 0
    ensures k % w == 0 <==> (-k) % w == 0
  {
    if k % w == 0 {
      assert -k == (-(k / w)) * w;
      Remainder(-(k / w), 0, w);
    } else if (-k) % w == 0 {
      assert k == (-((-k) / w)) * w;
      Remainder(-((-k) / w), 0, w);
    }
  }

  // The first second of bucket k and the one behind its last, for buckets of w seconds.
  function First(k: int, w: int): int { if k > 0 then k else k - w + 1 }

  function Behind(k: int, w: int): int { if k < 0 then k + 1 else k + w }

  lemma SecondsIn(t: int, w: int, k: int)
    requires w > 0
    ensures t - TruncMod(t, w) == k <==> k % w == 0 && First(k, w) <= t < Behind(k, w)
  {
    MultipleNegates(k, w);
    if t >= 0 {
      RoundedDown(t, w, k);
      Between(t, w, k);
    } else {
      RoundedDown(-t, w, -k);
      Between(-t, w, -k);
    }
  }

  // A multiple of w above -w is not below 0.
  lemma Between(t: int, w: int, k: int)
    requires w > 0 && t >= 0
    ensures k % w == 0 && k <= t < k + w ==> k >= 0
  {
    if k % w == 0 && -w < k < 0 {
      Remainder(-1, k + w, w);
    }
  }

  // The instants that fall into bucket k: none unless it is a multiple of the width.
  // Buckets reach forward behind the epoch, backward before it, and both ways at it.
  lemma BucketIs(at: int, ttl: int, k: int)
    requires ttl >= SECOND
    ensures var w := ttl / SECOND;
            Bucket(at, ttl) == k <==> k % w == 0 && First(k, w) * SECOND <= at < Behind(k, w) * SECOND
  {
    SecondsIn(Unix(at), ttl / SECOND, k);
  }

  // The bucket of the epoch is nearly two TTLs wide: its first and its last instant.
  lemma BucketStraddlesEpoch(ttl: int)
    requires ttl >= SECOND
    ensures var w := ttl / SECOND;
            Bucket((1 - w) * SECOND, ttl) == 0 && Bucket(w * SECOND - 1, ttl) == 0 &&
            forall at :: Bucket(at, ttl) == 0 ==> (1 - w) * SECOND <= at <= w * SECOND - 1
  {
    var w := ttl / SECOND;
    BucketIs((1 - w) * SECOND, ttl, 0);
    BucketIs(w * SECOND - 1, ttl, 0);
    forall at | Bucket(at, ttl) == 0 ensures (1 - w) * SECOND <= at <= w * SECOND - 1 {
      BucketIs(at, ttl, 0);
    }
  }

  // Instant queries in one bucket are evaluated at times less than one TTL apart,
  // except in the bucket of the epoch when it is two seconds wide or more.
  lemma BucketWithinTTLIff(ttl: int, k: int)
    requires ttl >= SECOND
    ensures (forall a, b :: Bucket(a, ttl) == k && Bucket(b, ttl) == k ==> a - b < ttl) <==>
            k != 0 || ttl < 2 * SECOND
  {
    var w := ttl / SECOND;
    BucketStraddlesEpoch(ttl);
    if k != 0 || ttl < 2 * SECOND {
      forall a, b | Bucket(a, ttl) == k && Bucket(b, ttl) == k ensures a - b < ttl {
        BucketIs(a, ttl, k);
        BucketIs(b, ttl, k);
      }
    } else {
      assert w * SECOND - 1 - (1 - w) * SECOND >= ttl;
    }
  }

  // Two TTLs bound them in every bucket, and one does on either side of the epoch.
  lemma SameBucketWithinTTL(a: int, b: int, ttl: int)
    requires ttl >= SECOND && Bucket(a, ttl) == Bucket(b, ttl)
    ensures -2 * ttl < a - b < 2 * ttl
    ensures (a >= 0 <==> b >= 0) ==> -ttl < a - b < ttl
  {
    BucketIs(a, ttl, Bucket(a, ttl));
    BucketIs(b, ttl, Bucket(a, ttl));
  }
}
