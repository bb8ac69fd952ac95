/**
  The chat rate limiter: one token bucket per key, idle buckets evicted every
  so many checks. Times and tokens are reals; readings of the clock are taken
  before the lock, so they need not arrive in order unless a lemma says so.
 */
module RateLimit {
  import opened Common

  type Key = string

  const EVICT_EVERY := 512

  datatype Bucket = Bucket(tokens: real, lastRefill: real)

  datatype Limiter = Limiter(buckets: map<Key, Bucket>, sinceSweep: nat)

  const FRESH := Limiter(map[], 0)

  /** Tokens that flow in during `elapsed` seconds; negative when a reading is stale. */
  function Refill(n: nat, elapsed: real): real {
    elapsed * (n as real / 60.0)
  }

  /** The bucket as a check at `now` finds it, before a token is spent. */
  function Refilled(n: nat, b: Option<Bucket>, now: real): Bucket {
    if b == None then Bucket(n as real, now)
    else
      var filled := b.value.tokens + Refill(n, now - b.value.lastRefill);
      Bucket(if filled < n as real then filled else n as real, now)
  }

  /** None: the caller may proceed. Otherwise the seconds to wait. */
  function Answer(n: nat, b: Bucket): Option<real>
    requires n > 0
  {
    if b.tokens >= 1.0 then None else Some((1.0 - b.tokens) / (n as real / 60.0))
  }

  function Spent(b: Bucket): Bucket {
    if b.tokens >= 1.0 then b.(tokens := b.tokens - 1.0) else b
  }

  function Get(buckets: map<Key, Bucket>, key: Key): Option<Bucket> {
    if key in buckets then Some(buckets[key]) else None
  }

  predicate Idle(b: Bucket, now: real) {
    now - b.lastRefill > 60.0
  }

  function Evicted(buckets: map<Key, Bucket>, now: real): map<Key, Bucket> {
    map key | key in buckets && !Idle(buckets[key], now) :: buckets[key]
  }

  /** One check, followed by a sweep if `sweep` says so. */
  function Swept(n: nat, sweep: bool, buckets: map<Key, Bucket>, key: Key, now: real): (map<Key, Bucket>, Option<real>)
    requires n > 0
  {
    var b := Refilled(n, Get(buckets, key), now);
    var after := buckets[key := Spent(b)];
    (if sweep then Evicted(after, now) else after, Answer(n, b))
  }

  /** One check of a limiter that sweeps after `every` checks. */
  function Checked(n: nat, every: nat, l: Limiter, key: Key, now: real): (Limiter, Option<real>)
    requires n > 0
  {
    var sweep := l.sinceSweep + 1 >= every;
    var (buckets, answer) := Swept(n, sweep, l.buckets, key, now);
    (Limiter(buckets, if sweep then 0 else l.sinceSweep + 1), answer)
  }

  /** The same check of a limiter that never evicts. */
  function CheckedForever(n: nat, buckets: map<Key, Bucket>, key: Key, now: real): (map<Key, Bucket>, Option<real>)
    requires n > 0
  {
    var b := Refilled(n, Get(buckets, key), now);
    (buckets[key := Spent(b)], Answer(n, b))
  }

  class ChatRateLimiter {
    const perMinute: nat
    const capacity: real
    const refillPerSecond: real
    var buckets: map<Key, Bucket>
    var checksSinceSweep: nat

    ghost predicate Valid() {
      perMinute > 0 && capacity == perMinute as real && refillPerSecond == perMinute as real / 60.0
    }

    function State(): Limiter
      reads this
    {
      Limiter(buckets, checksSinceSweep)
    }

    constructor (perMinute: nat)
      requires perMinute > 0
      ensures Valid() && this.perMinute == perMinute && State() == FRESH
    {
      this.perMinute := perMinute;
      capacity := perMinute as real;
      refillPerSecond := perMinute as real / 60.0;
      buckets, checksSinceSweep := map[], 0;
    }

    method Check(key: Key, now: real) returns (result: Option<real>)
      requires Valid()
      modifies this
      ensures (State(), result) == Checked(perMinute, EVICT_EVERY, old(State()), key, now)
    {
      var bucket: Bucket;
      if key !in buckets {
        bucket := Bucket(capacity, now);
      } else {
        bucket := buckets[key];
        var elapsed := now - bucket.lastRefill;
        var refilled := bucket.tokens + elapsed * refillPerSecond;
        bucket := Bucket(if refilled < capacity then refilled else capacity, now);
      }
      assert bucket == Refilled(perMinute, Get(buckets, key), now);
      if bucket.tokens >= 1.0 {
        bucket := bucket.(tokens := bucket.tokens - 1.0);
        result := None;
      } else {
        var deficit := 1.0 - bucket.tokens;
        result := Some(deficit / refillPerSecond);
      }
      assert bucket == Spent(Refilled(perMinute, Get(buckets, key), now));
      assert result == Answer(perMinute, Refilled(perMinute, Get(buckets, key), now));
      buckets := buckets[key := bucket];
      checksSinceSweep := checksSinceSweep + 1;
      if checksSinceSweep >= EVICT_EVERY {
        checksSinceSweep := 0;
        EvictIdleBuckets(now);
      }
    }

    method EvictIdleBuckets(now: real)
      requires Valid()
      modifies this`buckets
      ensures buckets == Evicted(old(buckets), now)
    {
      var threshold := capacity / refillPerSecond;
      ThresholdIsOneMinute(perMinute);
      var stale := set key | key in buckets && now - buckets[key].lastRefill > threshold;
      while stale != {}
        invariant forall key :: key in stale ==> key in buckets && Idle(buckets[key], now)
        invariant forall key :: key in buckets ==> key in old(buckets) && buckets[key] == old(buckets)[key]
        invariant forall key :: key in old(buckets) && key !in buckets ==> Idle(old(buckets)[key], now)
        invariant forall key :: key in buckets && Idle(buckets[key], now) ==> key in stale
        decreases stale
      {
        var key :| key in stale;
        buckets := buckets - {key};
        stale := stale - {key};
      }
    }
  }

  lemma ThresholdIsOneMinute(n: nat)
    requires n > 0
    ensures (n as real) / (n as real / 60.0) == 60.0
  {
    var r := n as real;
    assert r / 60.0 > 0.0;
    assert 60.0 * (r / 60.0) == r;
  }

  // ---------------------------------------------------------------------
  // Runs
  // ---------------------------------------------------------------------

  datatype Request = Request(key: Key, now: real)

  function RunEvicting(n: nat, every: nat, requests: seq<Request>): (r: (Limiter, seq<Option<real>>))
    requires n > 0
    ensures |r.1| == |requests|
  {
    if requests == [] then (FRESH, [])
    else
      var (l, answers) := RunEvicting(n, every, requests[..|requests| - 1]);
      var r := requests[|requests| - 1];
      var (l', answer) := Checked(n, every, l, r.key, r.now);
      (l', answers + [answer])
  }

  function RunForever(n: nat, requests: seq<Request>): (r: (map<Key, Bucket>, seq<Option<real>>))
    requires n > 0
    ensures |r.1| == |requests|
  {
    if requests == [] then (map[], [])
    else
      var (buckets, answers) := RunForever(n, requests[..|requests| - 1]);
      var r := requests[|requests| - 1];
      var (buckets', answer) := CheckedForever(n, buckets, r.key, r.now);
      (buckets', answers + [answer])
  }

  ghost predicate InOrder(requests: seq<Request>) {
    forall i, j :: 0 <= i < j < |requests| ==> requests[i].now <= requests[j].now
  }

  lemma RunSnoc(n: nat, every: nat, requests: seq<Request>, r: Request)
    requires n > 0
    ensures var (l, answers) := RunEvicting(n, every, requests);
            var (l', answer) := Checked(n, every, l, r.key, r.now);
            RunEvicting(n, every, requests + [r]) == (l', answers + [answer])
    ensures var (buckets, answers) := RunForever(n, requests);
            var (buckets', answer) := CheckedForever(n, buckets, r.key, r.now);
            RunForever(n, requests + [r]) == (buckets', answers + [answer])
  {
    assert (requests + [r])[..|requests|] == requests;
  }

  lemma ProductOrder(x: real, y: real, rate: real)
    requires x <= y && rate >= 0.0
    ensures x * rate <= y * rate
    ensures x < y && rate > 0.0 ==> x * rate < y * rate
  {
    var d := y - x;
    assert y * rate == x * rate + d * rate;
    assert d * rate >= 0.0;
    if d > 0.0 && rate > 0.0 {
      assert d * rate > 0.0;
    }
  }

  lemma RefillMonotone(n: nat, x: real, y: real)
    requires x <= y
    ensures Refill(n, x) <= Refill(n, y)
    ensures n > 0 && x < y ==> Refill(n, x) < Refill(n, y)
  {
    ProductOrder(x, y, n as real / 60.0);
  }

  lemma RefillAdds(n: nat, x: real, y: real)
    ensures Refill(n, x + y) == Refill(n, x) + Refill(n, y)
    ensures Refill(n, 0.0) == 0.0 && Refill(n, 60.0) == n as real
  {
  }
}
