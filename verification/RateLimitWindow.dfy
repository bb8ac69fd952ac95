/**
  How many checks a key gets through: the bound a token bucket gives over any
  window, for readings that may be stale and out of order.
 */
module RateLimitWindow {
  import opened Common
  import opened RateLimit

  /** One key's bucket after a run of readings, and which of them were accepted. */
  function RunKey(n: nat, readings: seq<real>): (Option<Bucket>, seq<bool>)
    requires n > 0
  {
    if readings == [] then (None, [])
    else
      var (b, accepted) := RunKey(n, readings[..|readings| - 1]);
      var found := Refilled(n, b, readings[|readings| - 1]);
      (Some(Spent(found)), accepted + [found.tokens >= 1.0])
  }

  /** How many of the readings from position `i` on were accepted. */
  function CountFrom(accepted: seq<bool>, i: nat): nat {
    if i >= |accepted| then 0
    else CountFrom(accepted[..|accepted| - 1], i) + if accepted[|accepted| - 1] then 1 else 0
  }

  lemma {:induction false} RunKeyShape(n: nat, readings: seq<real>)
    requires n > 0
    ensures |RunKey(n, readings).1| == |readings|
    ensures readings != [] ==> RunKey(n, readings).0.Some?
                               && RunKey(n, readings).0.value.lastRefill == readings[|readings| - 1]
  {
    if readings != [] {
      RunKeyShape(n, readings[..|readings| - 1]);
    }
  }

  /** Tokens not yet refilled by the clock only ever go down, by one an accept:
      even when a reading is older than the one before it. */
  lemma {:induction false} Potential(n: nat, readings: seq<real>, i: nat)
    requires n > 0 && i < |readings|
    ensures var (b, accepted) := RunKey(n, readings);
            b.Some? && CountFrom(accepted, i) as real + b.value.tokens
                       <= n as real + Refill(n, readings[|readings| - 1] - readings[i])
  {
    var k := |readings| - 1;
    var front := readings[..k];
    var (b0, accepted0) := RunKey(n, front);
    var found := Refilled(n, b0, readings[k]);
    RunKeyShape(n, front);
    CountFromSnoc(accepted0, found.tokens >= 1.0, i);
    if i == k {
      PotentialStart(n, b0, readings[k]);
      assert CountFrom(accepted0, i) == 0;
    } else {
      Potential(n, front, i);
      PotentialSnoc(n, b0.value, CountFrom(accepted0, i), readings[k], readings[i]);
    }
  }

  lemma PotentialStart(n: nat, b: Option<Bucket>, now: real)
    requires n > 0
    ensures var found := Refilled(n, b, now);
            Spent(found).tokens + (if found.tokens >= 1.0 then 1.0 else 0.0) <= n as real + Refill(n, now - now)
  {
    PotentialStep(n, b, now);
    RefillAdds(n, 0.0, 0.0);
  }

  lemma PotentialSnoc(n: nat, b: Bucket, count: nat, now: real, start: real)
    requires n > 0 && count as real + b.tokens <= n as real + Refill(n, b.lastRefill - start)
    ensures var found := Refilled(n, Some(b), now);
            (count + if found.tokens >= 1.0 then 1 else 0) as real + Spent(found).tokens
            <= n as real + Refill(n, now - start)
  {
    PotentialStep(n, Some(b), now);
    RefillAdds(n, now - b.lastRefill, b.lastRefill - start);
    assert (now - b.lastRefill) + (b.lastRefill - start) == now - start;
  }

  lemma CountFromSnoc(accepted: seq<bool>, a: bool, i: nat)
    requires i <= |accepted|
    ensures CountFrom(accepted + [a], i) == CountFrom(accepted, i) + if a then 1 else 0
  {
    assert (accepted + [a])[..|accepted|] == accepted;
  }

  lemma PotentialStep(n: nat, b: Option<Bucket>, now: real)
    requires n > 0
    ensures var found := Refilled(n, b, now);
            var accept := if found.tokens >= 1.0 then 1.0 else 0.0;
            accept + Spent(found).tokens <= n as real
            && (b.Some? ==> accept + Spent(found).tokens
                            <= b.value.tokens + Refill(n, now - b.value.lastRefill))
  {
  }

  /** Accepted checks whose readings lie in [lo, hi], wherever they fall in lock order. */
  function CountWithin(readings: seq<real>, accepted: seq<bool>, lo: real, hi: real): nat
    requires |readings| == |accepted|
  {
    if readings == [] then 0
    else
      var k := |readings| - 1;
      CountWithin(readings[..k], accepted[..k], lo, hi)
      + if accepted[k] && lo <= readings[k] <= hi then 1 else 0
  }

  lemma {:induction false} WithinIsAtMostFrom(readings: seq<real>, accepted: seq<bool>, lo: real, hi: real, i: nat)
    requires |readings| == |accepted| && i <= |readings|
    requires forall j :: 0 <= j < i ==> !(accepted[j] && lo <= readings[j] <= hi)
    ensures CountWithin(readings, accepted, lo, hi) <= CountFrom(accepted, i)
  {
    if readings != [] {
      var k := |readings| - 1;
      if i <= k {
        WithinIsAtMostFrom(readings[..k], accepted[..k], lo, hi, i);
      } else {
        NoneWithin(readings, accepted, lo, hi);
      }
    }
  }

  lemma {:induction false} NoneWithin(readings: seq<real>, accepted: seq<bool>, lo: real, hi: real)
    requires |readings| == |accepted|
    requires forall j :: 0 <= j < |readings| ==> !(accepted[j] && lo <= readings[j] <= hi)
    ensures CountWithin(readings, accepted, lo, hi) == 0
  {
    if readings != [] {
      NoneWithin(readings[..|readings| - 1], accepted[..|readings| - 1], lo, hi);
    }
  }

  /** Of one key's checks, those accepted with readings in any window [lo, hi]
      number at most per_minute plus what the window refills, however stale the
      readings and whatever order the lock took them in. */
  lemma {:induction false} AcceptedInWindow(n: nat, readings: seq<real>, lo: real, hi: real)
    requires n > 0 && lo <= hi
    ensures |RunKey(n, readings).1| == |readings|
    ensures CountWithin(readings, RunKey(n, readings).1, lo, hi) as real
            <= n as real + Refill(n, hi - lo)
  {
    RunKeyShape(n, readings);
    RefillAdds(n, 0.0, 0.0);
    RefillMonotone(n, 0.0, hi - lo);
    if readings != [] {
      var k := |readings| - 1;
      var accepted := RunKey(n, readings).1;
      RunKeyShape(n, readings[..k]);
      assert accepted[..k] == RunKey(n, readings[..k]).1;
      if accepted[k] && lo <= readings[k] <= hi {
        LastAcceptedInWindow(n, readings, lo, hi);
      } else {
        AcceptedInWindow(n, readings[..k], lo, hi);
      }
    }
  }

  /** The case of a run that ends in the window: count back to the first accept in it. */
  lemma LastAcceptedInWindow(n: nat, readings: seq<real>, lo: real, hi: real)
    requires n > 0 && readings != [] && |RunKey(n, readings).1| == |readings|
    requires RunKey(n, readings).1[|readings| - 1] && lo <= readings[|readings| - 1] <= hi
    ensures CountWithin(readings, RunKey(n, readings).1, lo, hi) as real
            <= n as real + Refill(n, hi - lo)
  {
    var (b, accepted) := RunKey(n, readings);
    var i := FirstWithin(readings, accepted, lo, hi);
    var last := readings[|readings| - 1];
    var within, from := CountWithin(readings, accepted, lo, hi), CountFrom(accepted, i);
    assert within <= from by { WithinIsAtMostFrom(readings, accepted, lo, hi, i); }
    assert b.Some? && from as real + b.value.tokens <= n as real + Refill(n, last - readings[i]) by {
      Potential(n, readings, i);
    }
    assert Refill(n, last - readings[i]) <= Refill(n, hi - lo) by {
      RefillMonotone(n, last - readings[i], hi - lo);
    }
    assert b.value.tokens >= 0.0 by { AcceptedLeavesNoDebt(n, readings); }
  }

  lemma AcceptedLeavesNoDebt(n: nat, readings: seq<real>)
    requires n > 0 && readings != [] && |RunKey(n, readings).1| == |readings|
    requires RunKey(n, readings).1[|readings| - 1]
    ensures RunKey(n, readings).0.Some? && RunKey(n, readings).0.value.tokens >= 0.0
  {
    RunKeyShape(n, readings[..|readings| - 1]);
  }

  lemma {:induction false} FirstWithin(readings: seq<real>, accepted: seq<bool>, lo: real, hi: real) returns (i: nat)
    requires |readings| == |accepted| > 0
    requires accepted[|accepted| - 1] && lo <= readings[|readings| - 1] <= hi
    ensures i < |readings| && accepted[i] && lo <= readings[i] <= hi
    ensures forall j :: 0 <= j < i ==> !(accepted[j] && lo <= readings[j] <= hi)
  {
    i := 0;
    while !(accepted[i] && lo <= readings[i] <= hi)
      invariant i < |readings|
      invariant forall j :: 0 <= j < i ==> !(accepted[j] && lo <= readings[j] <= hi)
      decreases |readings| - i
    {
      i := i + 1;
    }
  }

  /** One key's readings in lock order, and how its checks were answered. */
  function Readings(requests: seq<Request>, key: Key): seq<real> {
    if requests == [] then []
    else
      var last := requests[|requests| - 1];
      Readings(requests[..|requests| - 1], key) + if last.key == key then [last.now] else []
  }

  function Verdicts(requests: seq<Request>, answers: seq<Option<real>>, key: Key): seq<bool>
    requires |requests| == |answers|
  {
    if requests == [] then []
    else
      var k := |requests| - 1;
      Verdicts(requests[..k], answers[..k], key) + if requests[k].key == key then [answers[k] == None] else []
  }

  lemma {:induction false} KeysAreIndependent(n: nat, requests: seq<Request>, key: Key)
    requires n > 0
    ensures RunKey(n, Readings(requests, key))
            == (Get(RunForever(n, requests).0, key), Verdicts(requests, RunForever(n, requests).1, key))
  {
    if requests != [] {
      var k := |requests| - 1;
      var front := requests[..k];
      KeysAreIndependent(n, front, key);
      assert RunForever(n, requests).1[..k] == RunForever(n, front).1;
      var verdicts := Verdicts(front, RunForever(n, front).1, key);
      assert verdicts + [] == verdicts && Readings(front, key) + [] == Readings(front, key);
      if requests[k].key == key {
        RunKeySnoc(n, Readings(front, key), requests[k].now);
        assert RunForever(n, requests).1[k] == Answer(n, Refilled(n, Get(RunForever(n, front).0, key), requests[k].now));
      }
    }
  }

  /** A key's accepted checks with readings in [lo, hi], in a run and its answers. */
  function Accepted(requests: seq<Request>, answers: seq<Option<real>>, key: Key, lo: real, hi: real): nat
    requires |requests| == |answers|
  {
    if requests == [] then 0
    else
      var k := |requests| - 1;
      Accepted(requests[..k], answers[..k], key, lo, hi)
      + if requests[k].key == key && answers[k] == None && lo <= requests[k].now <= hi then 1 else 0
  }

  lemma {:induction false} AcceptedIsWithin(requests: seq<Request>, answers: seq<Option<real>>, key: Key, lo: real, hi: real)
    requires |requests| == |answers|
    ensures |Readings(requests, key)| == |Verdicts(requests, answers, key)|
    ensures Accepted(requests, answers, key, lo, hi)
            == CountWithin(Readings(requests, key), Verdicts(requests, answers, key), lo, hi)
  {
    if requests != [] {
      var k := |requests| - 1;
      var readings, verdicts := Readings(requests[..k], key), Verdicts(requests[..k], answers[..k], key);
      AcceptedIsWithin(requests[..k], answers[..k], key, lo, hi);
      if requests[k].key == key {
        WithinSnoc(readings, verdicts, requests[k].now, answers[k] == None, lo, hi);
      } else {
        assert readings + [] == readings && verdicts + [] == verdicts;
      }
    }
  }

  lemma WithinSnoc(readings: seq<real>, accepted: seq<bool>, now: real, accept: bool, lo: real, hi: real)
    requires |readings| == |accepted|
    ensures CountWithin(readings + [now], accepted + [accept], lo, hi)
            == CountWithin(readings, accepted, lo, hi) + if accept && lo <= now <= hi then 1 else 0
  {
    assert (readings + [now])[..|readings|] == readings && (accepted + [accept])[..|accepted|] == accepted;
  }

  lemma AcceptedSnoc(requests: seq<Request>, answers: seq<Option<real>>, r: Request, answer: Option<real>,
                     key: Key, lo: real, hi: real)
    requires |requests| == |answers|
    ensures Accepted(requests + [r], answers + [answer], key, lo, hi)
            == Accepted(requests, answers, key, lo, hi)
               + if r.key == key && answer == None && lo <= r.now <= hi then 1 else 0
  {
    assert (requests + [r])[..|requests|] == requests && (answers + [answer])[..|answers|] == answers;
  }

  /** The bound, said of one key of a limiter that never evicts: for any readings
      in any order. */
  lemma KeyAcceptedForever(n: nat, requests: seq<Request>, key: Key, lo: real, hi: real)
    requires n > 0 && lo <= hi
    ensures Accepted(requests, RunForever(n, requests).1, key, lo, hi) as real <= n as real + Refill(n, hi - lo)
  {
    KeysAreIndependent(n, requests, key);
    AcceptedIsWithin(requests, RunForever(n, requests).1, key, lo, hi);
    AcceptedInWindow(n, Readings(requests, key), lo, hi);
  }

  lemma RunKeySnoc(n: nat, readings: seq<real>, now: real)
    requires n > 0
    ensures var (b, accepted) := RunKey(n, readings);
            var found := Refilled(n, b, now);
            RunKey(n, readings + [now]) == (Some(Spent(found)), accepted + [found.tokens >= 1.0])
  {
    assert (readings + [now])[..|readings|] == readings;
  }
}
