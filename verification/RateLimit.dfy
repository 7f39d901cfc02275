// platform/ratelimit/memory.go: a fixed-window limiter with lazy sweeping. Times
// and durations are integers (nanoseconds since Go's zero time).
module RateLimit {
  import opened Prelude

  datatype Bucket = Bucket(count: nat, expiresAt: int)

  // What a call to Allow answers: admitted, and for a denial how long to wait.
  datatype Answer = Answer(admitted: bool, retryAfter: int)

  datatype Limits = Limits(limit: int, window: int) {
    ghost predicate Valid() { limit > 0 && window > 0 }
  }

  // One Allow on the buckets of a limiter that never sweeps.
  function Decide(l: Limits, buckets: map<string, Bucket>, key: string, now: int): (map<string, Bucket>, Answer) {
    if key !in buckets || now > buckets[key].expiresAt then
      (buckets[key := Bucket(1, now + l.window)], Answer(true, 0))
    else if buckets[key].count >= l.limit then (buckets, Answer(false, buckets[key].expiresAt - now))
    else (buckets[key := buckets[key].(count := buckets[key].count + 1)], Answer(true, 0))
  }

  datatype Quota = Quota(limit: int, remaining: int, resetAt: int)

  // now and reset are the two readings of the clock that Quota may take.
  function QuotaOf(l: Limits, buckets: map<string, Bucket>, key: string, now: int, reset: int): Quota {
    if key !in buckets || now > buckets[key].expiresAt then Quota(l.limit, l.limit, reset + l.window)
    else
      var remaining := l.limit - buckets[key].count;
      Quota(l.limit, if remaining < 0 then 0 else remaining, buckets[key].expiresAt)
  }

  // The entries a sweep at time now keeps.
  function Swept(buckets: map<string, Bucket>, now: int): map<string, Bucket> {
    map k | k in buckets && now <= buckets[k].expiresAt :: buckets[k]
  }

  datatype Request = Request(key: string, at: int)

  datatype State = State(buckets: map<string, Bucket>, lastSwept: int)

  // Sweeping happens at most once per window.
  function SweepStep(l: Limits, s: State, now: int): State {
    if now - s.lastSwept < l.window then s else State(Swept(s.buckets, now), now)
  }

  // One Allow of the sweeping limiter.
  function Step(l: Limits, s: State, r: Request): State {
    var t := SweepStep(l, s, r.at);
    State(Decide(l, t.buckets, r.key, r.at).0, t.lastSwept)
  }

  class Memory {
    const limits: Limits
    var buckets: map<string, Bucket>
    var lastSwept: int

    ghost function View(): State
      reads this
    {
      State(buckets, lastSwept)
    }

    // NewMemory panics on limits that are not positive.
    constructor (limit: int, window: int)
      requires limit > 0 && window > 0
      ensures limits == Limits(limit, window) && View() == After(limits, [])
    {
      limits, buckets, lastSwept := Limits(limit, window), map[], 0;
    }

    method MaybeSweep(now: int)
      modifies this`buckets, this`lastSwept
      ensures View() == SweepStep(limits, old(View()), now)
    {
      if now - lastSwept < limits.window {
        return;
      }
      var keys := buckets.Keys;
      while keys != {}
        invariant keys <= old(buckets).Keys
        invariant buckets ==
                    map k | k in old(buckets) && (k in keys || now <= old(buckets)[k].expiresAt) :: old(buckets)[k]
      {
        var k :| k in keys;
        keys := keys - {k};
        if now > buckets[k].expiresAt {
          buckets := buckets - {k};
        }
      }
      lastSwept := now;
    }

    method Allow(key: string, now: int) returns (answer: Answer)
      modifies this`buckets, this`lastSwept
      ensures View() == Step(limits, old(View()), Request(key, now))
      ensures answer == Decide(limits, SweepStep(limits, old(View()), now).buckets, key, now).1
    {
      MaybeSweep(now);
      if key !in buckets || now > buckets[key].expiresAt {
        buckets := buckets[key := Bucket(1, now + limits.window)];
        return Answer(true, 0);
      }
      var b := buckets[key];
      if b.count >= limits.limit {
        return Answer(false, b.expiresAt - now);
      }
      buckets := buckets[key := b.(count := b.count + 1)];
      return Answer(true, 0);
    }

    method GetQuota(key: string, now: int, reset: int) returns (q: Quota)
      ensures q == QuotaOf(limits, buckets, key, now, reset)
    {
      if key !in buckets || now > buckets[key].expiresAt {
        return Quota(limits.limit, limits.limit, reset + limits.window);
      }
      var rem := limits.limit - buckets[key].count;
      if rem < 0 {
        rem := 0;
      }
      return Quota(limits.limit, rem, buckets[key].expiresAt);
    }
  }

  // ------------------------------------------------- histories

  ghost predicate Nondecreasing(reqs: seq<Request>) {
    forall i, j | 0 <= i < j < |reqs| :: reqs[i].at <= reqs[j].at
  }

  // The limiter's state after a history of requests.
  function After(l: Limits, reqs: seq<Request>): State {
    if reqs == [] then State(map[], 0)
    else Step(l, After(l, reqs[..|reqs| - 1]), reqs[|reqs| - 1])
  }

  // The answer to request r after the history reqs.
  function AnswerTo(l: Limits, reqs: seq<Request>, r: Request): Answer {
    Decide(l, SweepStep(l, After(l, reqs), r.at).buckets, r.key, r.at).1
  }

  // The same without sweeping.
  function Unswept(l: Limits, reqs: seq<Request>): map<string, Bucket> {
    if reqs == [] then map[]
    else Decide(l, Unswept(l, reqs[..|reqs| - 1]), reqs[|reqs| - 1].key, reqs[|reqs| - 1].at).0
  }

  // swept holds the buckets of whole, except that some expired ones are missing.
  ghost predicate SameButExpired(swept: map<string, Bucket>, whole: map<string, Bucket>, now: int) {
    (forall k | k in swept :: k in whole && swept[k] == whole[k]) &&
    (forall k | k in whole && k !in swept :: whole[k].expiresAt < now)
  }

  lemma DecideAgrees(l: Limits, swept: map<string, Bucket>, whole: map<string, Bucket>, r: Request)
    requires SameButExpired(swept, whole, r.at)
    ensures Decide(l, swept, r.key, r.at).1 == Decide(l, whole, r.key, r.at).1
    ensures SameButExpired(Decide(l, swept, r.key, r.at).0, Decide(l, whole, r.key, r.at).0, r.at)
  {
  }

  lemma {:induction false} SweepingIsInvisible(l: Limits, reqs: seq<Request>, now: int)
    requires Nondecreasing(reqs) && (reqs != [] ==> reqs[|reqs| - 1].at <= now)
    ensures SameButExpired(SweepStep(l, After(l, reqs), now).buckets, Unswept(l, reqs), now)
    ensures SameButExpired(After(l, reqs).buckets, Unswept(l, reqs), now)
    decreases |reqs|
  {
    if reqs != [] {
      var n := |reqs| - 1;
      var init, r := reqs[..n], reqs[n];
      SweepingIsInvisible(l, init, r.at);
      DecideAgrees(l, SweepStep(l, After(l, init), r.at).buckets, Unswept(l, init), r);
    }
  }

  // Sweeping changes no answer to Allow and no Quota.
  lemma SweepRefines(l: Limits, reqs: seq<Request>, r: Request, reset: int)
    requires Nondecreasing(reqs + [r])
    ensures AnswerTo(l, reqs, r) == Decide(l, Unswept(l, reqs), r.key, r.at).1
    ensures QuotaOf(l, After(l, reqs).buckets, r.key, r.at, reset) == QuotaOf(l, Unswept(l, reqs), r.key, r.at, reset)
  {
    var all := reqs + [r];
    assert forall i | 0 <= i < |reqs| :: all[i] == reqs[i];
    assert reqs != [] ==> all[|reqs| - 1].at <= all[|reqs|].at;
    SweepingIsInvisible(l, reqs, r.at);
    DecideAgrees(l, SweepStep(l, After(l, reqs), r.at).buckets, Unswept(l, reqs), r);
  }

  // ------------------------------------------------- keys are independent

  function OfKey(reqs: seq<Request>, key: string): seq<Request> {
    if reqs == [] then []
    else
      var init := OfKey(reqs[..|reqs| - 1], key);
      if reqs[|reqs| - 1].key == key then init + [reqs[|reqs| - 1]] else init
  }

  lemma {:induction false} KeysIndependent(l: Limits, reqs: seq<Request>, key: string)
    ensures key in Unswept(l, reqs) <==> key in Unswept(l, OfKey(reqs, key))
    ensures key in Unswept(l, reqs) ==> Unswept(l, reqs)[key] == Unswept(l, OfKey(reqs, key))[key]
    decreases |reqs|
  {
    if reqs != [] {
      var n := |reqs| - 1;
      KeysIndependent(l, reqs[..n], key);
      if reqs[n].key == key {
        var mine := OfKey(reqs, key);
        assert mine[..|mine| - 1] == OfKey(reqs[..n], key);
      }
    }
  }

  lemma {:induction false} OfKeyOrdered(reqs: seq<Request>, key: string, last: int)
    requires Nondecreasing(reqs) && (reqs != [] ==> reqs[|reqs| - 1].at <= last)
    ensures Nondecreasing(OfKey(reqs, key)) && forall i | 0 <= i < |OfKey(reqs, key)| :: OfKey(reqs, key)[i].at <= last
    decreases |reqs|
  {
    if reqs != [] {
      OfKeyOrdered(reqs[..|reqs| - 1], key, reqs[|reqs| - 1].at);
    }
  }

  // What a caller is told depends on its own requests alone.
  lemma AnswersIndependent(l: Limits, reqs: seq<Request>, r: Request)
    requires Nondecreasing(reqs + [r])
    ensures AnswerTo(l, reqs, r) == AnswerTo(l, OfKey(reqs, r.key), r)
  {
    var all := reqs + [r];
    assert forall i | 0 <= i < |reqs| :: all[i] == reqs[i];
    assert reqs != [] ==> all[|reqs| - 1].at <= all[|reqs|].at;
    OfKeyOrdered(reqs, r.key, r.at);
    SweepRefines(l, reqs, r, 0);
    SweepRefines(l, OfKey(reqs, r.key), r, 0);
    KeysIndependent(l, reqs, r.key);
  }

  // ------------------------------------------------- how many are admitted

  // The times at which requests for the key were admitted.
  function AdmittedAt(l: Limits, reqs: seq<Request>, key: string): seq<int> {
    if reqs == [] then []
    else
      var init, r := reqs[..|reqs| - 1], reqs[|reqs| - 1];
      AdmittedAt(l, init, key) + if r.key == key && AnswerTo(l, init, r).admitted then [r.at] else []
  }

  // How many of the times lie in [low, high], and from low on.
  function Between(times: seq<int>, low: int, high: int): nat {
    if times == [] then 0
    else Between(times[..|times| - 1], low, high) + if low <= times[|times| - 1] <= high then 1 else 0
  }

  function From(times: seq<int>, low: int): nat {
    if times == [] then 0
    else From(times[..|times| - 1], low) + if low <= times[|times| - 1] then 1 else 0
  }

  lemma FromStep(times: seq<int>, t: int, low: int)
    ensures From(times + [t], low) == From(times, low) + if low <= t then 1 else 0
  {
    assert (times + [t])[..|times|] == times;
  }

  lemma BetweenStep(times: seq<int>, t: int, low: int, high: int)
    ensures Between(times + [t], low, high) == Between(times, low, high) + if low <= t <= high then 1 else 0
  {
    assert (times + [t])[..|times|] == times;
  }

  lemma {:induction false} FromBounds(times: seq<int>, low: int, lower: int, high: int)
    requires lower <= low
    ensures From(times, low) <= From(times, lower)
    ensures Between(times, low, high) <= From(times, low)
  {
    if times != [] {
      FromBounds(times[..|times| - 1], low, lower, high);
    }
  }

  // What a bucket says about the admissions for its key: its count is their number
  // since it was started, one of them at the very start, and never exceeds the
  // limit; none is later than its expiry; and at most one bucket before it, less
  // its first admission, reaches into the last window.
  ghost predicate Accounts(l: Limits, times: seq<int>, b: Bucket) {
    var start := b.expiresAt - l.window;
    1 <= b.count <= l.limit &&
    From(times, start) == b.count &&
    (forall low | low > b.expiresAt :: From(times, low) == 0) &&
    (forall low | low > start :: From(times, low) <= b.count - 1) &&
    (forall low | low >= start - l.window :: From(times, low) <= l.limit - 1 + b.count)
  }

  // No closed interval of one window's length holds twice the limit.
  ghost predicate Spread(l: Limits, times: seq<int>) {
    forall low, high :: high == low + l.window ==> Between(times, low, high) <= 2 * l.limit - 1
  }

  lemma FreshBucket(l: Limits, times: seq<int>, now: int)
    requires l.Valid() && forall low :: From(times, low) == 0
    ensures Accounts(l, times + [now], Bucket(1, now + l.window))
  {
    forall low ensures From(times + [now], low) == if low <= now then 1 else 0 {
      FromStep(times, now, low);
    }
  }

  lemma NextBucket(l: Limits, times: seq<int>, b: Bucket, now: int)
    requires l.Valid() && Accounts(l, times, b) && now > b.expiresAt
    ensures Accounts(l, times + [now], Bucket(1, now + l.window))
  {
    forall low ensures From(times + [now], low) == From(times, low) + if low <= now then 1 else 0 {
      FromStep(times, now, low);
    }
    forall low | low >= now - l.window ensures From(times, low) <= l.limit - 1 {
      assert low > b.expiresAt - l.window;
    }
  }

  lemma FullerBucket(l: Limits, times: seq<int>, b: Bucket, now: int)
    requires l.Valid() && Accounts(l, times, b) && b.expiresAt - l.window <= now <= b.expiresAt && b.count < l.limit
    ensures Accounts(l, times + [now], b.(count := b.count + 1))
  {
    forall low ensures From(times + [now], low) == From(times, low) + if low <= now then 1 else 0 {
      FromStep(times, now, low);
    }
  }

  // A bucket is started no later than the last request.
  lemma {:induction false} StartedBefore(l: Limits, reqs: seq<Request>, key: string, now: int)
    requires l.Valid() && Nondecreasing(reqs) && (reqs != [] ==> reqs[|reqs| - 1].at <= now)
    ensures key in Unswept(l, reqs) ==> Unswept(l, reqs)[key].expiresAt - l.window <= now
    decreases |reqs|
  {
    if reqs != [] {
      StartedBefore(l, reqs[..|reqs| - 1], key, reqs[|reqs| - 1].at);
    }
  }

  // One more request for the key keeps its bucket's account.
  lemma BucketAccounts(l: Limits, buckets: map<string, Bucket>, key: string, times: seq<int>, now: int)
    requires l.Valid()
    requires if key in buckets then Accounts(l, times, buckets[key]) && buckets[key].expiresAt - l.window <= now
             else times == []
    ensures var (next, answer) := Decide(l, buckets, key, now);
            key in next && Accounts(l, times + if answer.admitted then [now] else [], next[key])
  {
    assert times + [] == times;
    if key !in buckets {
      FreshBucket(l, times, now);
    } else if now > buckets[key].expiresAt {
      NextBucket(l, times, buckets[key], now);
    } else if buckets[key].count < l.limit {
      FullerBucket(l, times, buckets[key], now);
    }
  }

  // What is known of a key after some history.
  ghost predicate Accounted(l: Limits, reqs: seq<Request>, key: string) {
    if key in Unswept(l, reqs) then Accounts(l, AdmittedAt(l, reqs, key), Unswept(l, reqs)[key])
    else AdmittedAt(l, reqs, key) == []
  }

  lemma OwnRequest(l: Limits, init: seq<Request>, r: Request)
    requires l.Valid() && Nondecreasing(init + [r]) && Accounted(l, init, r.key)
    ensures Accounted(l, init + [r], r.key)
  {
    assert forall i | 0 <= i < |init| :: (init + [r])[i] == init[i];
    assert init != [] ==> (init + [r])[|init| - 1].at <= (init + [r])[|init|].at;
    StartedBefore(l, init, r.key, r.at);
    BucketAccounts(l, Unswept(l, init), r.key, AdmittedAt(l, init, r.key), r.at);
    Extended(l, init, r);
  }

  lemma OtherRequest(l: Limits, init: seq<Request>, r: Request, key: string)
    requires r.key != key && Accounted(l, init, key)
    ensures Accounted(l, init + [r], key)
  {
    assert (init + [r])[..|init|] == init;
    assert AdmittedAt(l, init + [r], key) == AdmittedAt(l, init, key) + [] == AdmittedAt(l, init, key);
    OtherKept(l, Unswept(l, init), r, key);
  }

  lemma OtherKept(l: Limits, buckets: map<string, Bucket>, r: Request, key: string)
    requires r.key != key
    ensures var next := Decide(l, buckets, r.key, r.at).0;
            (key in next <==> key in buckets) && (key in buckets ==> next[key] == buckets[key])
  {
  }

  lemma {:induction false} BucketsAccount(l: Limits, reqs: seq<Request>, key: string)
    requires l.Valid() && Nondecreasing(reqs)
    ensures Accounted(l, reqs, key)
    decreases |reqs|
  {
    if reqs != [] {
      var init, r := reqs[..|reqs| - 1], reqs[|reqs| - 1];
      assert reqs == init + [r];
      BucketsAccount(l, init, key);
      if r.key == key {
        OwnRequest(l, init, r);
      } else {
        OtherRequest(l, init, r, key);
      }
    }
  }

  lemma AdmissionSpread(l: Limits, times: seq<int>, b: Bucket, now: int)
    requires l.Valid() && Spread(l, times) && Accounts(l, times + [now], b) && b.expiresAt - l.window <= now
    ensures Spread(l, times + [now])
  {
    forall low, high | high == low + l.window ensures Between(times + [now], low, high) <= 2 * l.limit - 1 {
      BetweenStep(times, now, low, high);
      if low <= now <= high {
        FromBounds(times + [now], low, low, high);
      }
    }
  }

  // Over any history with a clock that never goes back, any closed interval of one
  // window's length holds less than twice the limit of admissions for a key.
  lemma {:induction false} LessThanTwiceTheLimit(l: Limits, reqs: seq<Request>, key: string)
    requires l.Valid() && Nondecreasing(reqs)
    ensures Spread(l, AdmittedAt(l, reqs, key))
    decreases |reqs|
  {
    if reqs != [] {
      var n := |reqs| - 1;
      var init, r := reqs[..n], reqs[n];
      LessThanTwiceTheLimit(l, init, key);
      BucketsAccount(l, reqs, key);
      StartedBefore(l, reqs, key, r.at);
      var times := AdmittedAt(l, init, key);
      if r.key == key && AnswerTo(l, init, r).admitted {
        assert init + [r] == reqs;
        SweepRefines(l, init, r, 0);
        AdmissionSpread(l, times, Unswept(l, reqs)[key], r.at);
      } else {
        assert times + [] == times;
      }
    }
  }

  lemma Extended(l: Limits, init: seq<Request>, r: Request)
    requires Nondecreasing(init + [r])
    ensures Unswept(l, init + [r]) == Decide(l, Unswept(l, init), r.key, r.at).0
    ensures AdmittedAt(l, init + [r], r.key) ==
            AdmittedAt(l, init, r.key) + if Decide(l, Unswept(l, init), r.key, r.at).1.admitted then [r.at] else []
  {
    assert (init + [r])[..|init|] == init;
    SweepRefines(l, init, r, 0);
  }

  // n requests for the key at one time.
  function Repeat(key: string, at: int, n: nat): seq<Request> { seq(n, _ => Request(key, at)) }

  ghost predicate UpTo(reqs: seq<Request>, at: int) {
    Nondecreasing(reqs) && forall i | 0 <= i < |reqs| :: reqs[i].at <= at
  }

  lemma UpToMore(reqs: seq<Request>, r: Request)
    requires UpTo(reqs, r.at)
    ensures UpTo(reqs + [r], r.at)
  {
  }

  // After a history up to some time the key has bucket b, and `count` of its
  // admissions lie in [low, high].
  ghost predicate Stands(l: Limits, reqs: seq<Request>, key: string, at: int, b: Bucket, low: int, high: int,
                         count: nat)
  {
    && UpTo(reqs, at) && key in Unswept(l, reqs) && Unswept(l, reqs)[key] == b
    && Between(AdmittedAt(l, reqs, key), low, high) == count
  }

  lemma AdmitStep(l: Limits, reqs: seq<Request>, r: Request, low: int, high: int)
    requires UpTo(reqs, r.at) && low <= r.at <= high && Decide(l, Unswept(l, reqs), r.key, r.at).1.admitted
    ensures UpTo(reqs + [r], r.at)
    ensures Unswept(l, reqs + [r]) == Decide(l, Unswept(l, reqs), r.key, r.at).0
    ensures Between(AdmittedAt(l, reqs + [r], r.key), low, high) ==
            Between(AdmittedAt(l, reqs, r.key), low, high) + 1
  {
    UpToMore(reqs, r);
    Extended(l, reqs, r);
    BetweenStep(AdmittedAt(l, reqs, r.key), r.at, low, high);
  }

  lemma FillsOne(l: Limits, reqs: seq<Request>, key: string, at: int, b: Bucket, low: int, high: int, count: nat)
    requires Stands(l, reqs, key, at, b, low, high, count)
    requires low <= at <= high && at <= b.expiresAt && b.count < l.limit
    ensures Stands(l, reqs + [Request(key, at)], key, at, b.(count := b.count + 1), low, high, count + 1)
  {
    AdmitStep(l, reqs, Request(key, at), low, high);
  }

  lemma RepeatOnce(reqs: seq<Request>, key: string, at: int, n: nat)
    ensures reqs + Repeat(key, at, 0) == reqs
    ensures reqs + Repeat(key, at, n + 1) == (reqs + Repeat(key, at, n)) + [Request(key, at)]
  {
  }

  // As many requests as the bucket has room for are all admitted.
  lemma {:induction false} Fills(l: Limits, reqs: seq<Request>, key: string, at: int, b: Bucket, low: int, high: int,
                                 count: nat, n: nat)
    requires Stands(l, reqs, key, at, b, low, high, count)
    requires low <= at <= high && at <= b.expiresAt && b.count + n <= l.limit
    ensures Stands(l, reqs + Repeat(key, at, n), key, at, b.(count := b.count + n), low, high, count + n)
  {
    if n == 0 {
      RepeatOnce(reqs, key, at, 0);
    } else {
      Fills(l, reqs, key, at, b, low, high, count, n - 1);
      RepeatOnce(reqs, key, at, n - 1);
      FillsOne(l, reqs + Repeat(key, at, n - 1), key, at, b.(count := b.count + n - 1), low, high, count + n - 1);
    }
  }

  // The first request after a bucket has ended starts a new one.
  lemma StartsAnew(l: Limits, reqs: seq<Request>, key: string, at: int, b: Bucket, low: int, high: int, count: nat,
                   later: int)
    requires Stands(l, reqs, key, at, b, low, high, count)
    requires low <= later <= high && at <= later && b.expiresAt < later
    ensures Stands(l, reqs + [Request(key, later)], key, later, Bucket(1, later + l.window), low, high, count + 1)
  {
    AdmitStep(l, reqs, Request(key, later), low, high);
  }

  lemma StartsFirst(l: Limits, key: string, low: int, high: int)
    requires low > 0
    ensures Stands(l, [Request(key, 0)], key, 0, Bucket(1, l.window), low, high, 0)
  {
    var r := Request(key, 0);
    assert [] + [r] == [r];
    Extended(l, [], r);
    BetweenStep([], 0, low, high);
    assert AdmittedAt(l, [], key) == [] && Unswept(l, []) == map[];
  }

  lemma StandsLater(l: Limits, reqs: seq<Request>, key: string, at: int, b: Bucket, low: int, high: int, count: nat,
                    later: int)
    requires Stands(l, reqs, key, at, b, low, high, count) && at <= later
    ensures Stands(l, reqs, key, later, b, low, high, count)
  {
  }

  // The bound is met for every limit and window: one request at time 0, the rest of
  // its bucket at the last instant, and a full bucket right after.
  lemma BoundIsTight(l: Limits, key: string) returns (reqs: seq<Request>, low: int)
    requires l.Valid()
    ensures Nondecreasing(reqs)
    ensures Between(AdmittedAt(l, reqs, key), low, low + l.window) == 2 * l.limit - 1
  {
    var w, high, k := l.window, 1 + l.window, l.limit - 1;
    low := 1;
    StartsFirst(l, key, 1, high);
    StandsLater(l, [Request(key, 0)], key, 0, Bucket(1, w), 1, high, 0, w);
    Fills(l, [Request(key, 0)], key, w, Bucket(1, w), 1, high, 0, k);
    var full := [Request(key, 0)] + Repeat(key, w, k);
    StartsAnew(l, full, key, w, Bucket(1 + k, w), 1, high, k, high);
    var more := full + [Request(key, high)];
    Fills(l, more, key, high, Bucket(1, high + w), 1, high, k + 1, k);
    reqs := more + Repeat(key, high, k);
  }

  // ------------------------------------------------- what Quota promises

  // Whether n requests for the key at one instant are admitted, in order, by a
  // limiter that sweeps.
  function Burst(l: Limits, s: State, key: string, now: int, n: nat): seq<bool>
    decreases n
  {
    if n == 0 then []
    else
      [Decide(l, SweepStep(l, s, now).buckets, key, now).1.admitted] +
      Burst(l, Step(l, s, Request(key, now)), key, now, n - 1)
  }

  lemma {:induction false} BurstFromBucket(l: Limits, s: State, key: string, now: int, n: nat)
    requires l.Valid() && key in s.buckets && now <= s.buckets[key].expiresAt
    ensures |Burst(l, s, key, now, n)| == n
    ensures forall i | 0 <= i < n :: Burst(l, s, key, now, n)[i] <==> i < l.limit - s.buckets[key].count
    decreases n
  {
    if n > 0 {
      BurstFromBucket(l, Step(l, s, Request(key, now)), key, now, n - 1);
    }
  }

  // Of a burst of calls to Allow at one instant exactly the first `remaining` pass.
  lemma QuotaIsExact(l: Limits, s: State, key: string, now: int, reset: int, n: nat)
    requires l.Valid()
    ensures |Burst(l, s, key, now, n)| == n
    ensures forall i | 0 <= i < n ::
              Burst(l, s, key, now, n)[i] <==> i < QuotaOf(l, s.buckets, key, now, reset).remaining
  {
    if key in s.buckets && now <= s.buckets[key].expiresAt {
      BurstFromBucket(l, s, key, now, n);
    } else if n > 0 {
      BurstFromBucket(l, Step(l, s, Request(key, now)), key, now, n - 1);
    }
  }

  // A denied caller is told how long its bucket still lives. That instant is still
  // too early, and every later one is not.
  lemma RetryAfterIsExclusive(l: Limits, buckets: map<string, Bucket>, key: string, now: int, later: int)
    requires l.Valid() && !Decide(l, buckets, key, now).1.admitted && now <= later
    ensures var denied := Decide(l, buckets, key, now);
            denied.1.retryAfter >= 0 &&
            (Decide(l, denied.0, key, later).1.admitted <==> later > now + denied.1.retryAfter)
  {
  }
}
