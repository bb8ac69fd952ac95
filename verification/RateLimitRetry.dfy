/**
  The delay a refused caller is told: when it is the true one, for a caller that
  comes back while only others use the limiter.
 */
module RateLimitRetry {
  import opened Common
  import opened RateLimit
  import opened RateLimitEviction

  /** A check of `key` at `now` behind `front`, checks of others, and another of
      `key` after `wait` seconds. */
  datatype Retry = Retry(front: seq<Request>, key: Key, now: real, others: seq<Request>, wait: real)

  function Asked(r: Retry): seq<Request> {
    r.front + [Request(r.key, r.now)]
  }

  function Between(r: Retry): seq<Request> {
    Asked(r) + r.others
  }

  function Whole(r: Retry): seq<Request> {
    Between(r) + [Request(r.key, r.now + r.wait)]
  }

  ghost predicate OthersOnly(r: Retry) {
    r.wait >= 0.0 && forall o :: o in r.others ==> o.key != r.key
  }

  /** What the first check told the caller, and what the second does. */
  function Told(n: nat, every: nat, r: Retry): Option<real>
    requires n > 0
  {
    RunEvicting(n, every, Asked(r)).1[|r.front|]
  }

  function Again(n: nat, every: nat, r: Retry): Option<real>
    requires n > 0
  {
    RunEvicting(n, every, Whole(r)).1[|Between(r)|]
  }

  /** Refused, the caller is let through on its return exactly if it has waited
      as long as it was told. */
  ghost predicate Kept(n: nat, every: nat, r: Retry)
    requires n > 0
  {
    Told(n, every, r).Some? ==>
      Told(n, every, r).value > 0.0 && (Again(n, every, r) == None <==> r.wait >= Told(n, every, r).value)
  }

  /** Of a bucket that is kept: a refused caller is accepted if and only if it has
      waited at least the delay it was told. */
  lemma KeptRetry(n: nat, b: Option<Bucket>, now: real, wait: real)
    requires n > 0 && wait >= 0.0
    requires Answer(n, Refilled(n, b, now)).Some?
    ensures var refused := Refilled(n, b, now);
            var delay := Answer(n, refused).value;
            delay > 0.0
            && (Answer(n, Refilled(n, Some(Spent(refused)), now + wait)) == None <==> wait >= delay)
  {
    var refused := Refilled(n, b, now);
    var missing := 1.0 - refused.tokens;
    var delay := missing / (n as real / 60.0);
    DelayRefills(n, missing);
    RefillAdds(n, 0.0, 0.0);
    if wait >= delay {
      RefillMonotone(n, delay, wait);
    } else {
      RefillMonotone(n, wait, delay);
    }
    if delay <= 0.0 {
      RefillMonotone(n, delay, 0.0);
    }
    assert now + wait - now == wait;
  }

  lemma DelayRefills(n: nat, missing: real)
    requires n > 0
    ensures Refill(n, missing / (n as real / 60.0)) == missing
  {
    var rate := n as real / 60.0;
    assert rate > 0.0;
    assert missing / rate * rate == missing;
  }

  // ---------------------------------------------------------------------
  // The bucket between the two checks
  // ---------------------------------------------------------------------

  lemma ToldIs(n: nat, every: nat, r: Retry)
    requires n > 0
    ensures var found := Refilled(n, BucketOf(n, every, r.front, r.key), r.now);
            && Told(n, every, r) == Answer(n, found)
            && BucketOf(n, every, Asked(r), r.key) == Some(Spent(found))
  {
    RunSnoc(n, every, r.front, Request(r.key, r.now));
  }

  lemma AgainIs(n: nat, every: nat, r: Retry)
    requires n > 0
    ensures Again(n, every, r) == Answer(n, Refilled(n, BucketOf(n, every, Between(r), r.key), r.now + r.wait))
  {
    RunSnoc(n, every, Between(r), Request(r.key, r.now + r.wait));
  }

  /** Some check of the others came with a reading over a minute past `now`. */
  ghost predicate Overtaken(others: seq<Request>, now: real) {
    exists i :: 0 <= i < |others| && others[i].now - now > 60.0
  }

  /** Other keys' checks leave a bucket as it is, or sweep it away, which takes
      one over a minute past it. */
  lemma {:induction false} OthersLeave(n: nat, every: nat, asked: seq<Request>, others: seq<Request>, key: Key, b: Bucket)
    requires n > 0 && BucketOf(n, every, asked, key) == Some(b) && forall o :: o in others ==> o.key != key
    ensures var after := BucketOf(n, every, asked + others, key);
            after == Some(b) || (after == None && Overtaken(others, b.lastRefill))
  {
    if others == [] {
      assert asked + others == asked;
    } else {
      var k := |others| - 1;
      var front, o := others[..k], others[k];
      OthersLeave(n, every, asked, front, key, b);
      assert asked + others == asked + front + [o];
      RunSnoc(n, every, asked + front, o);
      if Overtaken(front, b.lastRefill) {
        var i :| 0 <= i < |front| && front[i].now - b.lastRefill > 60.0;
        assert others[i].now - b.lastRefill > 60.0;
      }
    }
  }

  // ---------------------------------------------------------------------
  // How deep stale readings put a bucket into debt
  // ---------------------------------------------------------------------

  /** By reading `top` every bucket would be out of debt. */
  ghost predicate Solvent(n: nat, buckets: map<Key, Bucket>, top: real) {
    forall key :: key in buckets ==>
      buckets[key].lastRefill <= top && buckets[key].tokens + Refill(n, top - buckets[key].lastRefill) >= 0.0
  }

  lemma BucketSolvent(n: nat, b: Option<Bucket>, now: real, before: real, top: real)
    requires n > 0 && before <= top && now <= top
    requires b.Some? ==> b.value.lastRefill <= before && b.value.tokens + Refill(n, before - b.value.lastRefill) >= 0.0
    ensures var after := Spent(Refilled(n, b, now));
            after.lastRefill <= top && after.tokens + Refill(n, top - after.lastRefill) >= 0.0
  {
    RefillAdds(n, 0.0, 0.0);
    RefillMonotone(n, 0.0, top - now);
    if b.Some? {
      var last := b.value.lastRefill;
      RefillMonotone(n, before - last, top - last);
      RefillAdds(n, now - last, top - now);
      assert (now - last) + (top - now) == top - last;
    }
  }

  lemma StaysSolvent(n: nat, b: Bucket, before: real, top: real)
    requires n > 0 && before <= top && b.lastRefill <= before && b.tokens + Refill(n, before - b.lastRefill) >= 0.0
    ensures b.tokens + Refill(n, top - b.lastRefill) >= 0.0
  {
    RefillMonotone(n, before - b.lastRefill, top - b.lastRefill);
  }

  lemma SolventStep(n: nat, every: nat, l: Limiter, r: Request, before: real, top: real)
    requires n > 0 && Solvent(n, l.buckets, before) && before <= top && r.now <= top
    ensures Solvent(n, Checked(n, every, l, r.key, r.now).0.buckets, top)
  {
    var after := Checked(n, every, l, r.key, r.now).0.buckets;
    BucketSolvent(n, Get(l.buckets, r.key), r.now, before, top);
    forall key | key in after
      ensures after[key].lastRefill <= top && after[key].tokens + Refill(n, top - after[key].lastRefill) >= 0.0
    {
      if key != r.key {
        StaysSolvent(n, l.buckets[key], before, top);
      }
    }
  }

  lemma {:induction false} AlwaysSolvent(n: nat, every: nat, run: seq<Request>, top: real)
    requires n > 0 && forall i :: 0 <= i < |run| ==> run[i].now <= top
    ensures Solvent(n, RunEvicting(n, every, run).0.buckets, top)
  {
    if run != [] {
      var k := |run| - 1;
      AlwaysSolvent(n, every, run[..k], top);
      SolventStep(n, every, RunEvicting(n, every, run[..k]).0, run[k], top, top);
    }
  }

  lemma {:induction false} Topmost(run: seq<Request>) returns (i: nat)
    requires run != []
    ensures i < |run| && forall j :: 0 <= j < |run| ==> run[j].now <= run[i].now
  {
    i := |run| - 1;
    if |run| > 1 {
      var j := Topmost(run[..|run| - 1]);
      if run[i].now < run[j].now {
        i := j;
      }
    }
  }

  /** The delay told to a refused caller: a token's time, and at most the lag more. */
  lemma ToldAtMost(n: nat, every: nat, r: Retry, d: real)
    requires n > 0 && d >= 0.0 && Lagged(Asked(r), d) && Told(n, every, r).Some?
    ensures Told(n, every, r).value <= TokenTime(n, 1) + d
  {
    var asked := Asked(r);
    var i := Topmost(asked);
    var top := asked[i].now;
    ToldIs(n, every, r);
    AlwaysSolvent(n, every, asked, top);
    var b := BucketOf(n, every, asked, r.key).value;
    assert asked[|r.front|] == Request(r.key, r.now);
    assert top - d <= r.now;
    RefillMonotone(n, top - b.lastRefill, d);
    DebtDelay(n, b.tokens, d);
  }

  lemma DebtDelay(n: nat, tokens: real, d: real)
    requires n > 0 && tokens + Refill(n, d) >= 0.0
    ensures (1.0 - tokens) / (n as real / 60.0) <= TokenTime(n, 1) + d
  {
    var rate := n as real / 60.0;
    assert rate > 0.0;
    assert (60.0 / n as real) * rate == 1.0;
    var delay, most := (1.0 - tokens) / rate, TokenTime(n, 1) + d;
    assert delay * rate == 1.0 - tokens;
    assert most * rate == 1.0 + d * rate;
    if delay > most {
      ProductOrder(most, delay, rate);
    }
  }

  // ---------------------------------------------------------------------
  // Where the promise is kept
  // ---------------------------------------------------------------------

  /** A retry that finds its bucket swept away has waited long enough anyway. */
  lemma SweptWaitedEnough(n: nat, every: nat, r: Retry, d: real)
    requires n > 0 && d >= 0.0 && OthersOnly(r) && Lagged(Whole(r), d) && Told(n, every, r).Some?
    requires 2.0 * d <= 60.0 - TokenTime(n, 1) && Overtaken(r.others, r.now)
    ensures r.wait >= Told(n, every, r).value
  {
    var whole, asked := Whole(r), Asked(r);
    var i :| 0 <= i < |r.others| && r.others[i].now - r.now > 60.0;
    assert whole[|asked| + i] == r.others[i] && whole[|whole| - 1] == Request(r.key, r.now + r.wait);
    assert forall j :: 0 <= j < |asked| ==> whole[j] == asked[j];
    ToldAtMost(n, every, r, d);
  }

  lemma FreshAccepts(n: nat, now: real)
    requires n > 0
    ensures Answer(n, Refilled(n, None, now)) == None
  {
  }

  lemma RetryKept(n: nat, every: nat, r: Retry, d: real)
    requires n > 0 && d >= 0.0 && OthersOnly(r) && Lagged(Whole(r), d)
    requires 2.0 * d <= 60.0 - TokenTime(n, 1)
    ensures Kept(n, every, r)
  {
    if Told(n, every, r).Some? {
      var found := BucketOf(n, every, r.front, r.key);
      var b := Spent(Refilled(n, found, r.now));
      ToldIs(n, every, r);
      AgainIs(n, every, r);
      OthersLeave(n, every, Asked(r), r.others, r.key, b);
      KeptRetry(n, found, r.now, r.wait);
      if BucketOf(n, every, Between(r), r.key) == None {
        SweptWaitedEnough(n, every, r, d);
        FreshAccepts(n, r.now + r.wait);
      }
    }
  }

  // ---------------------------------------------------------------------
  // Where it is not
  // ---------------------------------------------------------------------

  function Capped(d: real): real {
    if d < 60.0 then d else 60.0
  }

  /** Half of what the lag exceeds the promise's room by. */
  function Excess(n: nat, d: real): real
    requires n > 0
  {
    (2.0 * Capped(d) - 60.0 + TokenTime(n, 1)) / 2.0
  }

  /** A burst at the lag, a stale check at 0, a sweep just over a minute later,
      and the retry, as stale as the lag allows. */
  function EarlyRetry(n: nat, every: nat, d: real): Retry
    requires n > 0
  {
    var late := 60.0 + Excess(n, d);
    Retry(Repeat(Request("a", Capped(d)), n), "a", 0.0, Repeat(Request("b", late), every + 1), late - Capped(d))
  }

  lemma OneTokenTime(n: nat)
    requires n > 0
    ensures 0.0 < TokenTime(n, 1) <= 60.0
    ensures TokenTime(n, 1) * (n as real / 60.0) == 1.0
  {
    var step := 60.0 / n as real;
    assert step * n as real == 60.0;
    assert step > 0.0;
    ProductOrder(1.0, n as real, step);
    assert step * (n as real / 60.0) == 1.0;
  }

  lemma EarlyRetryLags(n: nat, every: nat, d: real)
    requires n > 0 && d >= 0.0 && 2.0 * d > 60.0 - TokenTime(n, 1)
    ensures var r := EarlyRetry(n, every, d);
            && OthersOnly(r) && Lagged(Whole(r), d) && Excess(n, d) > 0.0
            && r.wait < TokenTime(n, 1) + Capped(d)
  {
    OneTokenTime(n);
    var r := EarlyRetry(n, every, d);
    var whole := Whole(r);
    forall i | 0 <= i < |whole|
      ensures whole[i].now == if i < n then Capped(d) else if i == n then 0.0
                              else if i < n + 1 + (every + 1) then 60.0 + Excess(n, d)
                              else 60.0 + Excess(n, d) - Capped(d)
    {
    }
  }

  lemma EarlyRetryTold(n: nat, every: nat, d: real)
    requires n > 0 && d >= 0.0
    ensures var r := EarlyRetry(n, every, d);
            Told(n, every, r) == Some(TokenTime(n, 1) + Capped(d))
            && BucketOf(n, every, Asked(r), "a").Some? && BucketOf(n, every, Asked(r), "a").value.lastRefill == 0.0
  {
    var r, cap := EarlyRetry(n, every, d), Capped(d);
    assert RunEvicting(n, every, []) == (FRESH, []);
    Burst(n, every, [], Request("a", cap), n, cap, cap);
    assert [] + r.front == r.front;
    ToldIs(n, every, r);
    EmptiedDelay(n, cap);
  }

  /** A bucket emptied at reading `cap` and found at reading 0. */
  lemma EmptiedDelay(n: nat, cap: real)
    requires n > 0 && cap >= 0.0
    ensures var found := Refilled(n, Some(Bucket(0.0, cap)), 0.0);
            Answer(n, found) == Some(TokenTime(n, 1) + cap) && Spent(found).lastRefill == 0.0
  {
    var rate := n as real / 60.0;
    var found := Refilled(n, Some(Bucket(0.0, cap)), 0.0);
    RefillAdds(n, 0.0, 0.0);
    RefillMonotone(n, 0.0 - cap, 0.0);
    OneTokenTime(n);
    assert rate > 0.0;
    assert found.tokens == (0.0 - cap) * rate;
    assert (TokenTime(n, 1) + cap) * rate == 1.0 - found.tokens;
    assert (1.0 - found.tokens) / rate == TokenTime(n, 1) + cap;
  }

  lemma EarlyRetryBreaks(n: nat, every: nat, d: real)
    requires n > 0 && d >= 0.0 && 2.0 * d > 60.0 - TokenTime(n, 1)
    ensures var r := EarlyRetry(n, every, d);
            OthersOnly(r) && Lagged(Whole(r), d) && !Kept(n, every, r)
  {
    var r := EarlyRetry(n, every, d);
    EarlyRetryLags(n, every, d);
    EarlyRetryTold(n, every, d);
    PaddedIsGone(n, every, Asked(r), "a", Request("b", 60.0 + Excess(n, d)));
    AgainIs(n, every, r);
    FreshAccepts(n, r.now + r.wait);
  }

  /** With readings up to `d` behind, the delay told is the true one in every run,
      for every caller that comes back while only others use the limiter, if and
      only if `d` is at most half of what a minute has over a token's time. */
  lemma RetryIff(n: nat, every: nat, d: real)
    requires n > 0 && d >= 0.0
    ensures (forall r | OthersOnly(r) && Lagged(Whole(r), d) :: Kept(n, every, r))
            <==> 2.0 * d <= 60.0 - TokenTime(n, 1)
  {
    if 2.0 * d <= 60.0 - TokenTime(n, 1) {
      forall r | OthersOnly(r) && Lagged(Whole(r), d) ensures Kept(n, every, r) {
        RetryKept(n, every, r, d);
      }
    } else {
      EarlyRetryBreaks(n, every, d);
    }
  }

  /** In particular for readings in lock order. */
  lemma RetryInOrder(n: nat, every: nat, r: Retry)
    requires n > 0 && OthersOnly(r) && InOrder(Whole(r))
    ensures Kept(n, every, r)
  {
    OneTokenTime(n);
    UnlaggedIsInOrder(Whole(r));
    RetryKept(n, every, r, 0.0);
  }
}
