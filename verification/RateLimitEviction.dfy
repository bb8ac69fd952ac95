/**
  What eviction costs: nothing while readings reach the lock in order, and with
  it the window bound, exactly while they do.
 */
module RateLimitEviction {
  import opened Common
  import opened RateLimit
  import opened RateLimitWindow

  // ---------------------------------------------------------------------
  // Eviction is invisible while readings are in order
  // ---------------------------------------------------------------------

  /** A run sweeping after exactly the checks `sweeps` marks. */
  function RunSwept(n: nat, requests: seq<Request>, sweeps: seq<bool>): (r: (map<Key, Bucket>, seq<Option<real>>))
    requires n > 0 && |requests| == |sweeps|
    ensures |r.1| == |requests|
  {
    if requests == [] then (map[], [])
    else
      var k := |requests| - 1;
      var (buckets, answers) := RunSwept(n, requests[..k], sweeps[..k]);
      var (buckets', answer) := Swept(n, sweeps[k], buckets, requests[k].key, requests[k].now);
      (buckets', answers + [answer])
  }

  /** Every bucket the evicting limiter keeps is the other's; every bucket it
      dropped has been idle for over a minute at reading `now`. */
  ghost predicate Simulates(kept: map<Key, Bucket>, all: map<Key, Bucket>, now: real) {
    && (forall key :: key in kept ==> key in all && kept[key] == all[key])
    && (forall key :: key in all ==> all[key].tokens >= 0.0 && all[key].lastRefill <= now)
    && (forall key :: key in all && key !in kept ==> Idle(all[key], now))
  }

  lemma FullAfterAMinute(n: nat, b: Bucket, now: real)
    requires n > 0 && b.tokens >= 0.0 && now - b.lastRefill >= 60.0
    ensures Refilled(n, Some(b), now) == Refilled(n, None, now)
  {
    RefillAdds(n, 0.0, 0.0);
    RefillMonotone(n, 60.0, now - b.lastRefill);
  }

  lemma RefilledNonNegative(n: nat, b: Bucket, now: real)
    requires b.tokens >= 0.0 && b.lastRefill <= now
    ensures Refilled(n, Some(b), now).tokens >= 0.0
  {
    RefillAdds(n, 0.0, 0.0);
    RefillMonotone(n, 0.0, now - b.lastRefill);
  }

  lemma SimulatesStep(n: nat, sweep: bool, kept: map<Key, Bucket>, all: map<Key, Bucket>, before: real, r: Request)
    requires n > 0 && before <= r.now && Simulates(kept, all, before)
    ensures Swept(n, sweep, kept, r.key, r.now).1 == CheckedForever(n, all, r.key, r.now).1
    ensures Simulates(Swept(n, sweep, kept, r.key, r.now).0, CheckedForever(n, all, r.key, r.now).0, r.now)
  {
    if r.key in all {
      if r.key !in kept {
        FullAfterAMinute(n, all[r.key], r.now);
      }
      RefilledNonNegative(n, all[r.key], r.now);
    }
    var all' := CheckedForever(n, all, r.key, r.now).0;
    assert all'[r.key].tokens >= 0.0;
  }

  /** With readings in lock order, a limiter answers every check of every run
      exactly as one that never evicts, whichever checks it sweeps after. */
  lemma {:induction false} EvictionIsInvisible(n: nat, requests: seq<Request>, sweeps: seq<bool>)
    requires n > 0 && InOrder(requests) && |requests| == |sweeps|
    ensures RunSwept(n, requests, sweeps).1 == RunForever(n, requests).1
    ensures requests != [] ==>
              Simulates(RunSwept(n, requests, sweeps).0, RunForever(n, requests).0, requests[|requests| - 1].now)
    ensures requests == [] ==> RunSwept(n, requests, sweeps).0 == RunForever(n, requests).0 == map[]
  {
    if requests != [] {
      var k := |requests| - 1;
      EvictionIsInvisible(n, requests[..k], sweeps[..k]);
      var before := if k == 0 then requests[k].now else requests[k - 1].now;
      SimulatesStep(n, sweeps[k], RunSwept(n, requests[..k], sweeps[..k]).0, RunForever(n, requests[..k]).0, before,
                    requests[k]);
    }
  }

  /** The checks a counting limiter has made since it last swept, after `k` of them. */
  function Since(every: nat, k: nat): nat {
    if k == 0 || Since(every, k - 1) + 1 >= every then 0 else Since(every, k - 1) + 1
  }

  function Schedule(every: nat, k: nat): (sweeps: seq<bool>)
    ensures |sweeps| == k
  {
    if k == 0 then [] else Schedule(every, k - 1) + [Since(every, k - 1) + 1 >= every]
  }

  /** Counting checks is one way of choosing when to sweep. */
  lemma {:induction false} CounterIsASchedule(n: nat, every: nat, requests: seq<Request>)
    requires n > 0
    ensures var (l, answers) := RunEvicting(n, every, requests);
            (l.buckets, answers) == RunSwept(n, requests, Schedule(every, |requests|))
            && l.sinceSweep == Since(every, |requests|)
  {
    if requests != [] {
      var k := |requests| - 1;
      CounterIsASchedule(n, every, requests[..k]);
      assert Schedule(every, |requests|)[..k] == Schedule(every, k);
    }
  }

  lemma CountingIsInvisible(n: nat, every: nat, requests: seq<Request>)
    requires n > 0 && InOrder(requests)
    ensures RunEvicting(n, every, requests).1 == RunForever(n, requests).1
  {
    CounterIsASchedule(n, every, requests);
    EvictionIsInvisible(n, requests, Schedule(every, |requests|));
  }

  /** The window bound, said of one key of the evicting limiter. */
  lemma KeyAcceptedInWindow(n: nat, every: nat, requests: seq<Request>, key: Key, lo: real, hi: real)
    requires n > 0 && lo <= hi && InOrder(requests)
    ensures Accepted(requests, RunEvicting(n, every, requests).1, key, lo, hi) as real <= n as real + Refill(n, hi - lo)
  {
    CountingIsInvisible(n, every, requests);
    KeyAcceptedForever(n, requests, key, lo, hi);
  }

  // ---------------------------------------------------------------------
  // Bursts
  // ---------------------------------------------------------------------

  function Repeat(r: Request, j: nat): (run: seq<Request>)
    ensures |run| == j && forall i :: 0 <= i < j ==> run[i] == r
  {
    if j == 0 then [] else Repeat(r, j - 1) + [r]
  }

  /** A key's accepted checks with readings in [lo, hi] in a run of the evicting limiter. */
  function AcceptedBy(n: nat, every: nat, run: seq<Request>, key: Key, lo: real, hi: real): nat
    requires n > 0
  {
    Accepted(run, RunEvicting(n, every, run).1, key, lo, hi)
  }

  function BucketOf(n: nat, every: nat, run: seq<Request>, key: Key): Option<Bucket>
    requires n > 0
  {
    Get(RunEvicting(n, every, run).0.buckets, key)
  }

  lemma AcceptedBySnoc(n: nat, every: nat, run: seq<Request>, r: Request, key: Key, lo: real, hi: real)
    requires n > 0
    ensures AcceptedBy(n, every, run + [r], key, lo, hi)
            == AcceptedBy(n, every, run, key, lo, hi)
               + if r.key == key && lo <= r.now <= hi
                    && Checked(n, every, RunEvicting(n, every, run).0, r.key, r.now).1 == None then 1 else 0
  {
    var (l, answers) := RunEvicting(n, every, run);
    RunSnoc(n, every, run, r);
    AcceptedSnoc(run, answers, r, Checked(n, every, l, r.key, r.now).1, key, lo, hi);
  }

  /** One accepted check of a bucket whose content at the reading is known. */
  lemma AcceptedCheck(n: nat, every: nat, run: seq<Request>, r: Request, found: real, lo: real, hi: real)
    requires n > 0 && found >= 1.0 && lo <= r.now <= hi
    requires Refilled(n, BucketOf(n, every, run, r.key), r.now) == Bucket(found, r.now)
    ensures AcceptedBy(n, every, run + [r], r.key, lo, hi) == AcceptedBy(n, every, run, r.key, lo, hi) + 1
    ensures BucketOf(n, every, run + [r], r.key) == Some(Bucket(found - 1.0, r.now))
  {
    RunSnoc(n, every, run, r);
    AcceptedBySnoc(n, every, run, r, r.key, lo, hi);
  }

  lemma StillThere(n: nat, b: Bucket)
    requires n > 0 && b.tokens <= n as real
    ensures Refilled(n, Some(b), b.lastRefill) == b
  {
    RefillAdds(n, 0.0, 0.0);
    assert b.lastRefill - b.lastRefill == 0.0;
  }

  lemma RepeatSnoc(front: seq<Request>, r: Request, j: nat)
    ensures front + Repeat(r, 0) == front
    ensures j > 0 ==> front + Repeat(r, j) == front + Repeat(r, j - 1) + [r]
  {
  }

  function Left(n: nat, j: nat, now: real): Option<Bucket> {
    if j == 0 then None else Some(Bucket((n - j) as real, now))
  }

  /** `j` checks at one reading of a key with no bucket: all accepted, up to `n`. */
  lemma {:induction false} Burst(n: nat, every: nat, front: seq<Request>, r: Request, j: nat, lo: real, hi: real)
    requires n > 0 && j <= n && lo <= r.now <= hi && BucketOf(n, every, front, r.key) == None
    ensures AcceptedBy(n, every, front + Repeat(r, j), r.key, lo, hi)
            == AcceptedBy(n, every, front, r.key, lo, hi) + j
    ensures BucketOf(n, every, front + Repeat(r, j), r.key) == Left(n, j, r.now)
  {
    RepeatSnoc(front, r, j);
    if j > 0 {
      Burst(n, every, front, r, j - 1, lo, hi);
      if j > 1 {
        StillThere(n, Bucket((n - (j - 1)) as real, r.now));
      }
      AcceptedCheck(n, every, front + Repeat(r, j - 1), r, (n - (j - 1)) as real, lo, hi);
    }
  }

  // ---------------------------------------------------------------------
  // The window bound is reached
  // ---------------------------------------------------------------------

  /** When the `i`-th token after an emptied bucket is there. */
  function TokenTime(n: nat, i: nat): real
    requires n > 0
  {
    i as real * (60.0 / n as real)
  }

  function Drip(n: nat, key: Key, i: nat): (run: seq<Request>)
    requires n > 0
    ensures |run| == n + i
  {
    if i == 0 then Repeat(Request(key, 0.0), n) else Drip(n, key, i - 1) + [Request(key, TokenTime(n, i))]
  }

  lemma OneTokenEach(n: nat, i: nat)
    requires n > 0 && i > 0
    ensures Refill(n, TokenTime(n, i) - TokenTime(n, i - 1)) == 1.0
    ensures TokenTime(n, i - 1) <= TokenTime(n, i)
  {
    var step := 60.0 / n as real;
    assert step * n as real == 60.0;
    assert step > 0.0;
    assert TokenTime(n, i) == TokenTime(n, i - 1) + step;
    assert step * (n as real / 60.0) == 1.0;
  }

  lemma {:induction false} TokenTimeGrows(n: nat, i: nat, j: nat)
    requires n > 0 && i <= j
    ensures 0.0 <= TokenTime(n, i) <= TokenTime(n, j)
    decreases j
  {
    if j > 0 {
      OneTokenEach(n, j);
      TokenTimeGrows(n, if i == j then j - 1 else i, j - 1);
    }
  }

  /** A burst, then one check as each token arrives: every one accepted. */
  lemma {:induction false} DripAccepted(n: nat, every: nat, key: Key, i: nat, w: real)
    requires n > 0 && TokenTime(n, i) <= w
    ensures AcceptedBy(n, every, Drip(n, key, i), key, 0.0, w) == n + i
    ensures BucketOf(n, every, Drip(n, key, i), key) == Some(Bucket(0.0, TokenTime(n, i)))
  {
    TokenTimeGrows(n, 0, i);
    if i == 0 {
      Burst(n, every, [], Request(key, 0.0), n, 0.0, w);
      assert [] + Repeat(Request(key, 0.0), n) == Drip(n, key, 0);
    } else {
      var run, r := Drip(n, key, i - 1), Request(key, TokenTime(n, i));
      OneTokenEach(n, i);
      DripAccepted(n, every, key, i - 1, w);
      AcceptedCheck(n, every, run, r, 1.0, 0.0, w);
    }
  }

  lemma {:induction false} DripInOrder(n: nat, key: Key, i: nat)
    requires n > 0
    ensures InOrder(Drip(n, key, i))
    ensures forall k :: 0 <= k < n + i ==> Drip(n, key, i)[k].now <= TokenTime(n, i)
  {
    if i > 0 {
      DripInOrder(n, key, i - 1);
      OneTokenEach(n, i);
    }
  }

  /** How many tokens a window refills, in full. */
  lemma WholeTokens(n: nat, w: real, i: nat)
    requires n > 0
    ensures i as real <= Refill(n, w) <==> TokenTime(n, i) <= w
  {
    var rate := n as real / 60.0;
    assert rate > 0.0;
    assert (60.0 / n as real) * rate == 1.0;
    assert TokenTime(n, i) * rate == i as real;
    if TokenTime(n, i) <= w {
      ProductOrder(TokenTime(n, i), w, rate);
    } else {
      ProductOrder(w, TokenTime(n, i), rate);
    }
  }

  function AcceptedInSpan(n: nat, every: nat, run: seq<Request>, key: Key, lo: real, w: real): nat
    requires n > 0
  {
    AcceptedBy(n, every, run, key, lo, lo + w)
  }

  /** No window of `w` seconds of any run in order lets more than `m` checks of a key through. */
  ghost predicate AtMostPerWindow(n: nat, every: nat, w: real, m: int)
    requires n > 0
  {
    forall run, key, lo :: InOrder(run) ==> AcceptedInSpan(n, every, run, key, lo, w) <= m
  }

  lemma SpanIsBounded(n: nat, every: nat, run: seq<Request>, key: Key, lo: real, w: real)
    requires n > 0 && w >= 0.0 && InOrder(run)
    ensures AcceptedInSpan(n, every, run, key, lo, w) <= n + Refill(n, w).Floor
  {
    KeyAcceptedInWindow(n, every, run, key, lo, lo + w);
    assert lo + w - lo == w;
  }

  lemma SpanIsReached(n: nat, every: nat, w: real) returns (run: seq<Request>)
    requires n > 0 && w >= 0.0
    ensures InOrder(run) && AcceptedInSpan(n, every, run, "a", 0.0, w) == n + Refill(n, w).Floor
  {
    RefillAdds(n, 0.0, 0.0);
    RefillMonotone(n, 0.0, w);
    var q := Refill(n, w).Floor;
    WholeTokens(n, w, q);
    run := Drip(n, "a", q);
    DripAccepted(n, every, "a", q, w);
    DripInOrder(n, "a", q);
    assert 0.0 + w == w;
  }

  /** What the limiter does promise, exactly: `m` checks in every window of `w`
      seconds, if and only if `m` is at least the limit plus the whole tokens
      that flow in. */
  lemma WindowIff(n: nat, every: nat, w: real, m: int)
    requires n > 0 && w >= 0.0
    ensures AtMostPerWindow(n, every, w, m) <==> n + Refill(n, w).Floor <= m
  {
    var run := SpanIsReached(n, every, w);
    if n + Refill(n, w).Floor <= m {
      forall run, key, lo | InOrder(run) ensures AcceptedInSpan(n, every, run, key, lo, w) <= m {
        SpanIsBounded(n, every, run, key, lo, w);
      }
    }
  }

  /** "N per minute for any rolling window" is not what the bucket gives, whatever
      N: exactly twice as many can pass within a minute. */
  lemma RollingMinuteIff(n: nat, every: nat, m: int)
    requires n > 0
    ensures AtMostPerWindow(n, every, 60.0, m) <==> 2 * n <= m
  {
    WindowIff(n, every, 60.0, m);
    RefillAdds(n, 0.0, 0.0);
  }

  // ---------------------------------------------------------------------
  // Stale readings
  // ---------------------------------------------------------------------

  /** No reading reaches the lock more than `d` behind an earlier one. */
  ghost predicate Lagged(requests: seq<Request>, d: real) {
    forall i, j :: 0 <= i < j < |requests| ==> requests[i].now - d <= requests[j].now
  }

  ghost predicate GoneOrIdle(b: Option<Bucket>, now: real) {
    b.Some? ==> Idle(b.value, now)
  }

  function SinceSweep(n: nat, every: nat, run: seq<Request>): nat
    requires n > 0
  {
    RunEvicting(n, every, run).0.sinceSweep
  }

  lemma {:induction false} PaddingStep(n: nat, every: nat, run: seq<Request>, key: Key, r: Request)
    requires n > 0 && r.key != key && GoneOrIdle(BucketOf(n, every, run, key), r.now)
    ensures GoneOrIdle(BucketOf(n, every, run + [r], key), r.now)
    ensures BucketOf(n, every, run + [r], key).Some? ==>
              BucketOf(n, every, run, key).Some? && SinceSweep(n, every, run + [r]) == SinceSweep(n, every, run) + 1
  {
    RunSnoc(n, every, run, r);
  }

  /** Checks of another key at a reading over a minute later: only while the
      counter keeps rising can an idle bucket stay. */
  lemma {:induction false} PaddingSweeps(n: nat, every: nat, front: seq<Request>, key: Key, r: Request, j: nat)
    requires n > 0 && r.key != key && GoneOrIdle(BucketOf(n, every, front, key), r.now)
    ensures GoneOrIdle(BucketOf(n, every, front + Repeat(r, j), key), r.now)
    ensures BucketOf(n, every, front + Repeat(r, j), key).Some? ==>
              SinceSweep(n, every, front + Repeat(r, j)) == SinceSweep(n, every, front) + j
  {
    RepeatSnoc(front, r, j);
    if j > 0 {
      PaddingSweeps(n, every, front, key, r, j - 1);
      PaddingStep(n, every, front + Repeat(r, j - 1), key, r);
    }
  }

  lemma {:induction false} SinceIsBelow(n: nat, every: nat, run: seq<Request>)
    requires n > 0
    ensures SinceSweep(n, every, run) == 0 || SinceSweep(n, every, run) < every
  {
  }

  /** Whatever the schedule, one check more than it counts to is enough for a sweep. */
  lemma PaddedIsGone(n: nat, every: nat, front: seq<Request>, key: Key, r: Request)
    requires n > 0 && r.key != key && GoneOrIdle(BucketOf(n, every, front, key), r.now)
    ensures BucketOf(n, every, front + Repeat(r, every + 1), key) == None
  {
    PaddingSweeps(n, every, front, key, r, every + 1);
    SinceIsBelow(n, every, front + Repeat(r, every + 1));
  }

  /** How far behind the run below falls: no more than `d`, nor than a second. */
  function Lag(d: real): real {
    if d < 1.0 then d else 1.0
  }

  /** A burst, enough checks of another key just over a minute later for a sweep,
      and a second burst with readings just under a minute after the first. */
  function StaleRun(n: nat, every: nat, d: real): seq<Request> {
    Repeat(Request("a", 0.0), n) + Repeat(Request("b", 60.0 + Lag(d) / 2.0), every + 1)
    + Repeat(Request("a", 60.0 - Lag(d) / 2.0), n)
  }

  lemma StaleRunIsLagged(n: nat, every: nat, d: real)
    requires d > 0.0
    ensures Lagged(StaleRun(n, every, d), d)
  {
    var run := StaleRun(n, every, d);
    forall i | 0 <= i < |run|
      ensures run[i].now == if i < n then 0.0
                            else if i < n + every + 1 then 60.0 + Lag(d) / 2.0 else 60.0 - Lag(d) / 2.0
    {
    }
  }

  /** The evicting limiter lets both bursts through whole. */
  lemma StaleRunAccepted(n: nat, every: nat, d: real)
    requires n > 0 && d > 0.0
    ensures AcceptedBy(n, every, StaleRun(n, every, d), "a", 0.0, 60.0 - Lag(d) / 2.0) == 2 * n
  {
    var late, early := 60.0 + Lag(d) / 2.0, 60.0 - Lag(d) / 2.0;
    var first := Repeat(Request("a", 0.0), n);
    var padded := first + Repeat(Request("b", late), every + 1);
    assert RunEvicting(n, every, []) == (FRESH, []);
    Burst(n, every, [], Request("a", 0.0), n, 0.0, early);
    assert [] + first == first;
    PaddedIsGone(n, every, first, "a", Request("b", late));
    PaddingAccepts(n, every, first, Request("b", late), every + 1, "a", 0.0, early);
    Burst(n, every, padded, Request("a", early), n, 0.0, early);
  }

  lemma {:induction false} PaddingAccepts(n: nat, every: nat, front: seq<Request>, r: Request, j: nat, key: Key,
                                          lo: real, hi: real)
    requires n > 0 && r.key != key
    ensures AcceptedBy(n, every, front + Repeat(r, j), key, lo, hi) == AcceptedBy(n, every, front, key, lo, hi)
  {
    RepeatSnoc(front, r, j);
    if j > 0 {
      PaddingAccepts(n, every, front, r, j - 1, key, lo, hi);
      AcceptedBySnoc(n, every, front + Repeat(r, j - 1), r, key, lo, hi);
    }
  }

  /** However small the lag, whatever the limit and the schedule: one run is
      answered otherwise than without eviction, and breaks the window bound. */
  lemma StaleReadingTellsApart(n: nat, every: nat, d: real)
    requires n > 0 && d > 0.0
    ensures var run := StaleRun(n, every, d);
            var hi := 60.0 - Lag(d) / 2.0;
            && Lagged(run, d)
            && RunEvicting(n, every, run).1 != RunForever(n, run).1
            && AcceptedBy(n, every, run, "a", 0.0, hi) as real > n as real + Refill(n, hi - 0.0)
  {
    var run := StaleRun(n, every, d);
    var hi := 60.0 - Lag(d) / 2.0;
    StaleRunIsLagged(n, every, d);
    StaleRunAccepted(n, every, d);
    KeyAcceptedForever(n, run, "a", 0.0, hi);
    RefillMonotone(n, hi - 0.0, 60.0);
    RefillAdds(n, 0.0, 0.0);
  }

  lemma UnlaggedIsInOrder(requests: seq<Request>)
    ensures Lagged(requests, 0.0) <==> InOrder(requests)
  {
  }

  /** With readings up to `d` behind, eviction goes unnoticed in every run if and
      only if none is behind at all. */
  lemma EvictionIsInvisibleIff(n: nat, every: nat, d: real)
    requires n > 0 && d >= 0.0
    ensures (forall requests | Lagged(requests, d) ::
               RunEvicting(n, every, requests).1 == RunForever(n, requests).1)
            <==> d == 0.0
  {
    if d == 0.0 {
      forall requests | Lagged(requests, d)
        ensures RunEvicting(n, every, requests).1 == RunForever(n, requests).1
      {
        UnlaggedIsInOrder(requests);
        CountingIsInvisible(n, every, requests);
      }
    } else {
      StaleReadingTellsApart(n, every, d);
    }
  }

  /** And so does the window bound hold of the evicting limiter: exactly then. */
  lemma WindowBoundIff(n: nat, every: nat, d: real)
    requires n > 0 && d >= 0.0
    ensures (forall requests, key, lo, hi | Lagged(requests, d) && lo <= hi ::
               AcceptedBy(n, every, requests, key, lo, hi) as real <= n as real + Refill(n, hi - lo))
            <==> d == 0.0
  {
    if d == 0.0 {
      forall requests, key, lo, hi | Lagged(requests, d) && lo <= hi
        ensures AcceptedBy(n, every, requests, key, lo, hi) as real <= n as real + Refill(n, hi - lo)
      {
        UnlaggedIsInOrder(requests);
        KeyAcceptedInWindow(n, every, requests, key, lo, hi);
      }
    } else {
      StaleReadingTellsApart(n, every, d);
    }
  }
}
