/** What the limiter answers a burst, and when it forgets. */
module RateLimitBurst {
  import opened Common
  import opened RateLimit

  function Burst(key: Key, now: real, m: nat): seq<Request> {
    if m == 0 then [] else Burst(key, now, m - 1) + [Request(key, now)]
  }

  lemma OneTokenTakes(n: nat)
    requires n > 0
    ensures (1.0 - 0.0) / (n as real / 60.0) == 60.0 / n as real
  {
    var r := n as real;
    assert (60.0 / r) * (r / 60.0) == 1.0;
  }

  /** One more check of a bucket with `left` tokens, at the reading of its last. */
  lemma BurstStep(n: nat, every: nat, l: Limiter, key: Key, now: real, left: nat)
    requires n > 0 && left <= n
    requires l.buckets == if left == n then map[] else map[key := Bucket(left as real, now)]
    ensures var (l', answer) := Checked(n, every, l, key, now);
            && l'.buckets == map[key := Bucket(if left > 0 then (left - 1) as real else 0.0, now)]
            && answer == if left > 0 then None else Some(60.0 / n as real)
  {
    OneTokenTakes(n);
    RefillAdds(n, 0.0, 0.0);
  }

  function Left(n: nat, m: nat): nat {
    if m < n then n - m else 0
  }

  lemma {:induction false} BurstLeaves(n: nat, every: nat, key: Key, now: real, m: nat)
    requires n > 0
    ensures RunEvicting(n, every, Burst(key, now, m)).0.buckets
            == if m == 0 then map[] else map[key := Bucket(Left(n, m) as real, now)]
  {
    if m > 0 {
      BurstLeaves(n, every, key, now, m - 1);
      RunSnoc(n, every, Burst(key, now, m - 1), Request(key, now));
      BurstStep(n, every, RunEvicting(n, every, Burst(key, now, m - 1)).0, key, now, Left(n, m - 1));
    }
  }

  lemma {:induction false} BurstLength(key: Key, now: real, m: nat)
    ensures |Burst(key, now, m)| == m
  {
    if m > 0 {
      BurstLength(key, now, m - 1);
    }
  }

  lemma {:induction false} BurstAnswers(n: nat, every: nat, key: Key, now: real, m: nat, i: nat)
    requires n > 0 && i < m
    ensures |RunEvicting(n, every, Burst(key, now, m)).1| == m
    ensures RunEvicting(n, every, Burst(key, now, m)).1[i] == if i < n then None else Some(60.0 / n as real)
    decreases m
  {
    BurstLength(key, now, m);
    BurstLength(key, now, m - 1);
    RunSnoc(n, every, Burst(key, now, m - 1), Request(key, now));
    if i == m - 1 {
      BurstLeaves(n, every, key, now, m - 1);
      BurstStep(n, every, RunEvicting(n, every, Burst(key, now, m - 1)).0, key, now, Left(n, m - 1));
    } else {
      BurstAnswers(n, every, key, now, m - 1, i);
    }
  }

  /** A caller's first checks all at once: exactly as many as the limit go
      through, and every one after them is told to wait one token's time. */
  lemma BurstIsAnswered(n: nat, key: Key, now: real, m: nat, i: nat)
    requires n > 0 && i < m
    ensures |RunEvicting(n, EVICT_EVERY, Burst(key, now, m)).1| == m
    ensures RunEvicting(n, EVICT_EVERY, Burst(key, now, m)).1[i] == if i < n then None else Some(60.0 / n as real)
  {
    BurstAnswers(n, EVICT_EVERY, key, now, m, i);
  }

  lemma NextOf512(k: nat)
    ensures (k + 1) % 512 == if k % 512 + 1 >= 512 then 0 else k % 512 + 1
  {
  }

  lemma CountStep(n: nat, l: Limiter, r: Request)
    requires n > 0
    ensures Checked(n, EVICT_EVERY, l, r.key, r.now).0.sinceSweep
            == if l.sinceSweep + 1 >= 512 then 0 else l.sinceSweep + 1
  {
  }

  lemma {:induction false} CountsSinceSweep(n: nat, requests: seq<Request>)
    requires n > 0
    ensures RunEvicting(n, EVICT_EVERY, requests).0.sinceSweep == |requests| % 512
  {
    if requests != [] {
      var front, r := requests[..|requests| - 1], requests[|requests| - 1];
      CountsSinceSweep(n, front);
      CountStep(n, RunEvicting(n, EVICT_EVERY, front).0, r);
      NextOf512(|front|);
      RunSnoc(n, EVICT_EVERY, front, r);
      assert front + [r] == requests;
    }
  }

  lemma CheckForgets(n: nat, l: Limiter, r: Request)
    requires n > 0
    ensures var after := Checked(n, EVICT_EVERY, l, r.key, r.now).0.buckets;
            && r.key in after
            && forall k :: k in l.buckets && k != r.key ==>
                 && (k in after <==> l.sinceSweep + 1 < 512 || r.now - l.buckets[k].lastRefill <= 60.0)
                 && (k in after ==> after[k] == l.buckets[k])
  {
  }

  /** Every 512th check, of whatever key, forgets the buckets untouched for more
      than a minute before its reading, and those alone; no other check forgets
      any. */
  lemma ForgetsEvery512th(n: nat, requests: seq<Request>, r: Request)
    requires n > 0
    ensures var before := RunEvicting(n, EVICT_EVERY, requests).0.buckets;
            var after := RunEvicting(n, EVICT_EVERY, requests + [r]).0.buckets;
            && r.key in after
            && forall k :: k in before && k != r.key ==>
                 && (k in after <==> (|requests| + 1) % 512 != 0 || r.now - before[k].lastRefill <= 60.0)
                 && (k in after ==> after[k] == before[k])
  {
    CountsSinceSweep(n, requests);
    NextOf512(|requests|);
    RunSnoc(n, EVICT_EVERY, requests, r);
    CheckForgets(n, RunEvicting(n, EVICT_EVERY, requests).0, r);
  }
}
