/**
  How often the key set is fetched, how many fetches run at once, and what
  becomes of the callers that ride along.
 */
module JwksFlight {
  import opened Common
  import opened JwksCache
  import opened JwksSystem

  // ---------------------------------------------------------------------
  // How often, and how many at once
  // ---------------------------------------------------------------------

  function ClaimsWithin(attempts: seq<Attempt>, lo: real, hi: real): nat {
    if attempts == [] then 0
    else
      ClaimsWithin(attempts[..|attempts| - 1], lo, hi)
      + if lo <= attempts[|attempts| - 1].claimedAt <= hi then 1 else 0
  }

  ghost predicate Spaced(attempts: seq<Attempt>) {
    forall i, j :: 0 <= i < j < |attempts| ==>
      attempts[j].claimedAt - attempts[i].claimedAt >= 60.0 * (j - i) as real
  }

  lemma {:induction false} IntervalsAddUp(attempts: seq<Attempt>, i: nat, j: nat)
    requires i <= j < |attempts|
    requires forall k :: 0 < k < |attempts| ==> attempts[k].claimedAt - attempts[k - 1].claimedAt >= MIN_INTERVAL
    ensures attempts[j].claimedAt - attempts[i].claimedAt >= 60.0 * (j - i) as real
  {
    if i < j {
      IntervalsAddUp(attempts, i, j - 1);
    }
  }

  /** The first and the last claim of a window that has one. */
  lemma {:induction false} ClaimsSpan(attempts: seq<Attempt>, lo: real, hi: real) returns (i: nat, j: nat)
    requires ClaimsWithin(attempts, lo, hi) > 0
    ensures i <= j < |attempts| && lo <= attempts[i].claimedAt && attempts[j].claimedAt <= hi
    ensures ClaimsWithin(attempts, lo, hi) <= j - i + 1
  {
    var n := |attempts| - 1;
    var front := attempts[..n];
    i, j := n, n;
    if ClaimsWithin(front, lo, hi) > 0 {
      var i0, j0 := ClaimsSpan(front, lo, hi);
      i := i0;
      if !(lo <= attempts[n].claimedAt <= hi) {
        j := j0;
      }
    }
  }

  /** However many threads and kids, fetch claims carry clock readings at least
      an interval apart, so a window of `hi - lo` seconds holds at most one more
      than the whole intervals in it. */
  lemma ClaimsPerWindow(steps: seq<Step>, lo: real, hi: real)
    requires After(steps).Some? && lo <= hi
    ensures Spaced(After(steps).value.attempts)
    ensures ClaimsWithin(After(steps).value.attempts, lo, hi) <= ((hi - lo) / 60.0).Floor + 1
  {
    Always(steps);
    var attempts := After(steps).value.attempts;
    forall i, j | 0 <= i < j < |attempts|
      ensures attempts[j].claimedAt - attempts[i].claimedAt >= 60.0 * (j - i) as real
    {
      IntervalsAddUp(attempts, i, j);
    }
    var c := ClaimsWithin(attempts, lo, hi);
    if c > 0 {
      var i, j := ClaimsSpan(attempts, lo, hi);
      IntervalsAddUp(attempts, i, j);
      assert 60.0 * (c - 1) as real <= 60.0 * (j - i) as real;
      assert (c - 1) as real <= (hi - lo) / 60.0;
    } else {
      assert 0.0 <= (hi - lo) / 60.0;
    }
  }

  /** Every unfinished fetch is younger than `limit`, measured from its claim's reading. */
  ghost predicate Prompt(s: Sys, limit: real) {
    forall a :: 0 <= a < |s.attempts| && !s.attempts[a].finished ==> s.clock < s.attempts[a].claimedAt + limit
  }

  ghost predicate PromptRun(steps: seq<Step>, limit: real) {
    After(steps).Some? && forall k :: 0 <= k <= |steps| ==> After(steps[..k]).Some? && Prompt(After(steps[..k]).value, limit)
  }

  /** At most one fetch is running. */
  ghost predicate Single(s: Sys) {
    forall a, b :: 0 <= a < b < |s.attempts| ==> s.attempts[a].finished || s.attempts[b].finished
  }

  /** The marker points at the running fetch, if there is one, and at nothing else. */
  ghost predicate MarkerTrue(s: Sys) {
    var n := |s.attempts|;
    && (forall a :: 0 <= a < n - 1 ==> s.attempts[a].finished)
    && s.cache.inFlight == (if n > 0 && !s.attempts[n - 1].finished then Some(n - 1) else None)
  }

  lemma MarkerStep(s: Sys, step: Step, limit: real)
    requires Inv(s) && Enabled(s, step) && Prompt(s, limit) && limit <= MIN_INTERVAL && MarkerTrue(s)
    ensures MarkerTrue(Next(s, step))
  {
    if step.Decide? {
      MarkerDecide(s, step.t, limit);
    } else if step.Finish? {
      assert ThreadInv(s, step.t, s.threads[step.t]);
    } else if step.Recheck? {
      var kid, now := s.threads[step.t].kid, s.threads[step.t].now;
      assert Rechecked(s.cache, kid, now).0.inFlight == s.cache.inFlight;
    }
  }

  lemma MarkerDecide(s: Sys, t: ThreadId, limit: real)
    requires Inv(s) && Enabled(s, Decide(t)) && Prompt(s, limit) && limit <= MIN_INTERVAL && MarkerTrue(s)
    ensures MarkerTrue(Next(s, Decide(t)))
  {
    var n, kid, now := |s.attempts|, s.threads[t].kid, s.threads[t].now;
    assert ThreadInv(s, t, s.threads[t]);
    var (cache, d) := Decided(s.cache, kid, now, n);
    DecidedDecides(s.cache, kid, now, n);
    if d.Perform? && n > 0 {
      assert s.attempts[n - 1].finished;
    }
    MarkerAct(s, t, kid, now, cache, d);
  }

  lemma MarkerAct(s: Sys, t: ThreadId, kid: Kid, now: real, cache: Cache, d: Decision)
    requires MarkerTrue(s) && Decides(s.cache, kid, now, |s.attempts|, cache, d)
    requires d.Perform? ==> forall a :: 0 <= a < |s.attempts| ==> s.attempts[a].finished
    ensures MarkerTrue(Act(s, t, kid, now, cache, d))
  {
  }

  lemma PromptFront(steps: seq<Step>, limit: real)
    requires steps != [] && PromptRun(steps, limit)
    ensures PromptRun(steps[..|steps| - 1], limit)
  {
    var front := steps[..|steps| - 1];
    assert forall k :: 0 <= k <= |front| ==> front[..k] == steps[..k];
    assert After(steps[..|front|]).Some?;
  }

  lemma {:induction false} MarkerAlways(steps: seq<Step>, limit: real)
    requires PromptRun(steps, limit) && limit <= MIN_INTERVAL
    ensures MarkerTrue(After(steps).value)
  {
    if steps != [] {
      var front := steps[..|steps| - 1];
      PromptFront(steps, limit);
      assert front[..|front|] == front;
      MarkerAlways(front, limit);
      Always(front);
      MarkerStep(After(front).value, steps[|steps| - 1], limit);
    }
  }

  /** A run so far prompt, and one more step. */
  lemma PromptExtends(steps: seq<Step>, step: Step, limit: real)
    requires PromptRun(steps, limit) && Enabled(After(steps).value, step)
    requires Prompt(Next(After(steps).value, step), limit)
    ensures PromptRun(steps + [step], limit)
    ensures After(steps + [step]) == Some(Next(After(steps).value, step))
  {
    AfterOne(steps, step);
    var longer := steps + [step];
    forall k | 0 <= k <= |longer| ensures After(longer[..k]).Some? && Prompt(After(longer[..k]).value, limit) {
      if k <= |steps| {
        assert longer[..k] == steps[..k];
      } else {
        assert longer[..k] == longer;
      }
    }
  }

  lemma ClaimingIsPrompt(limit: real)
    requires limit > 0.0
    ensures PromptRun(CLAIMING, limit)
  {
    ClaimingClaims();
    forall k | 0 <= k <= |CLAIMING| ensures After(CLAIMING[..k]).Some? && Prompt(After(CLAIMING[..k]).value, limit) {
      assert k == 0 || k == 1 || CLAIMING[..k] == CLAIMING;
    }
  }

  /** Where a fetch may take longer than the interval, two can run at once. */
  lemma TwoFetchesAtOnce(limit: real) returns (steps: seq<Step>)
    requires limit > MIN_INTERVAL
    ensures PromptRun(steps, limit) && !Single(After(steps).value)
  {
    ClaimingClaims();
    ClaimingIsPrompt(limit);
    var ticked := CLAIMING + [Tick(60.0)];
    var arrived := ticked + [Arrive(1, "k")];
    steps := arrived + [Decide(1)];
    PromptExtends(CLAIMING, Tick(60.0), limit);
    PromptExtends(ticked, Arrive(1, "k"), limit);
    var s := After(arrived).value;
    assert s.attempts == CLAIMED.attempts && s.cache == CLAIMED.cache && s.clock == 60.0;
    SecondClaim(s);
    PromptExtends(arrived, Decide(1), limit);
  }

  lemma SecondClaim(s: Sys)
    requires s.attempts == CLAIMED.attempts && s.cache == CLAIMED.cache
    requires 1 in s.threads && s.threads[1] == Clocked("k", 60.0)
    ensures Enabled(s, Decide(1)) && !Single(Next(s, Decide(1))) && Next(s, Decide(1)).clock == s.clock
    ensures Next(s, Decide(1)).attempts == s.attempts + [Attempt(1, 60.0, None, None, false, false)]
  {
    var s' := Next(s, Decide(1));
    assert s'.attempts == s.attempts + [Attempt(1, 60.0, None, None, false, false)];
    assert !s'.attempts[0].finished && !s'.attempts[1].finished;
  }

  /** At most one fetch ever runs at a time if and only if every fetch ends
      within the interval of its claim; the in-flight marker then always names
      exactly the running one. */
  lemma SingleFetchIff(limit: real)
    ensures (forall steps | PromptRun(steps, limit) :: Single(After(steps).value)) <==> limit <= MIN_INTERVAL
    ensures limit <= MIN_INTERVAL ==> forall steps | PromptRun(steps, limit) :: MarkerTrue(After(steps).value)
  {
    if limit <= MIN_INTERVAL {
      forall steps | PromptRun(steps, limit)
        ensures Single(After(steps).value) && MarkerTrue(After(steps).value)
      {
        MarkerAlways(steps, limit);
      }
    } else {
      var steps := TwoFetchesAtOnce(limit);
      assert PromptRun(steps, limit) && !Single(After(steps).value);
    }
  }

  // ---------------------------------------------------------------------
  // Riders
  // ---------------------------------------------------------------------

  /** How a request can end: with a key map, with an error, or cut short. */
  predicate EndsRequest(step: Step) {
    step.Publish? || step.RequestFails? || step.Interrupt?
  }

  /** Left to itself, and whichever way the request is still to end, the thread of
      a fetch somebody rides reaches the end in at most three steps, after which
      the rider can wake. */
  lemma ReleasedUndisturbed(steps: seq<Step>, t: ThreadId, end: Step) returns (more: seq<Step>)
    requires After(steps).Some? && t in After(steps).value.threads && After(steps).value.threads[t].Riding?
    requires EndsRequest(end)
    requires var s := After(steps).value;
             var a := s.threads[t].attempt;
             a < |s.attempts| ==> end.t == s.attempts[a].owner
    ensures var s := After(steps).value;
            var a := s.threads[t].attempt;
            && a < |s.attempts|
            && var u := s.attempts[a].owner;
               && (s.attempts[a].done ==> more == [])
               && (!s.attempts[a].done ==>
                     u in s.threads
                     && (s.threads[u].Requesting? ==> more == [end, Finish(u), SetDone(u)])
                     && (s.threads[u].Ending? ==> more == [Finish(u), SetDone(u)])
                     && (s.threads[u].Signalling? ==> more == [SetDone(u)])
                     && (s.threads[u].Requesting? || s.threads[u].Ending? || s.threads[u].Signalling?))
               && After(steps + more).Some? && Enabled(After(steps + more).value, Wake(t))
  {
    Always(steps);
    var s := After(steps).value;
    assert ThreadInv(s, t, s.threads[t]);
    var a := s.threads[t].attempt;
    if s.attempts[a].done {
      more := [];
      assert steps + more == steps;
    } else {
      assert Fetching(s, a);
      var u := s.attempts[a].owner;
      assert ThreadInv(s, u, s.threads[u]);
      if s.threads[u].Signalling? {
        more := [SetDone(u)];
        AfterOne(steps, SetDone(u));
      } else if s.threads[u].Ending? {
        more := FinishAndSignal(steps, t, u);
      } else {
        more := EndAndSignal(steps, t, u, end);
      }
    }
  }

  lemma EndAndSignal(steps: seq<Step>, t: ThreadId, u: ThreadId, end: Step) returns (more: seq<Step>)
    requires After(steps).Some? && Inv(After(steps).value) && EndsRequest(end) && end.t == u
    requires var s := After(steps).value;
             Active(s, t) && Active(s, u) && s.threads[t].Riding? && s.threads[u].Requesting?
             && s.threads[t].attempt == s.threads[u].attempt
    ensures more == [end, Finish(u), SetDone(u)]
    ensures After(steps + more).Some? && Enabled(After(steps + more).value, Wake(t))
  {
    AfterOne(steps, end);
    Always(steps + [end]);
    var rest := FinishAndSignal(steps + [end], t, u);
    more := [end] + rest;
    assert steps + more == steps + [end] + rest;
  }

  lemma FinishAndSignal(steps: seq<Step>, t: ThreadId, u: ThreadId) returns (more: seq<Step>)
    requires After(steps).Some? && Inv(After(steps).value)
    requires var s := After(steps).value;
             Active(s, t) && Active(s, u) && s.threads[t].Riding? && s.threads[u].Ending?
             && s.threads[t].attempt == s.threads[u].attempt
    ensures more == [Finish(u), SetDone(u)]
    ensures After(steps + more).Some? && Enabled(After(steps + more).value, Wake(t))
  {
    more := [Finish(u), SetDone(u)];
    AfterOne(steps, Finish(u));
    AfterOne(steps + [Finish(u)], SetDone(u));
    assert steps + more == steps + [Finish(u)] + [SetDone(u)];
  }

  // ---------------------------------------------------------------------
  // A rider in time is served by its own fetch
  // ---------------------------------------------------------------------

  /** The newest attempt's key map, if it has published, is the latest. */
  ghost predicate LastPublished(s: Sys) {
    var n := |s.attempts|;
    n > 0 && s.attempts[n - 1].published.Some? ==> s.attempts[n - 1].published.value == |s.published| - 1
  }

  lemma LastPublishedStep(s: Sys, step: Step)
    requires Inv(s) && MarkerTrue(s) && LastPublished(s) && Enabled(s, step)
    ensures LastPublished(Next(s, step))
  {
    match step {
      case Decide(t) =>
        DecidedDecides(s.cache, s.threads[t].kid, s.threads[t].now, |s.attempts|);
        LastPublishedAct(s, t, s.threads[t].kid, s.threads[t].now,
                         Decided(s.cache, s.threads[t].kid, s.threads[t].now, |s.attempts|).0,
                         Decided(s.cache, s.threads[t].kid, s.threads[t].now, |s.attempts|).1);
      case Publish(t, keys) => assert ThreadInv(s, t, s.threads[t]);
      case _ =>
    }
  }

  lemma LastPublishedAct(s: Sys, t: ThreadId, kid: Kid, now: real, cache: Cache, d: Decision)
    requires LastPublished(s)
    ensures LastPublished(Act(s, t, kid, now, cache, d))
  {
  }

  lemma {:induction false} LastPublishedAlways(steps: seq<Step>, limit: real)
    requires PromptRun(steps, limit) && limit <= MIN_INTERVAL
    ensures LastPublished(After(steps).value)
  {
    if steps != [] {
      var front := steps[..|steps| - 1];
      PromptFront(steps, limit);
      LastPublishedAlways(front, limit);
      MarkerAlways(front, limit);
      Always(front);
      LastPublishedStep(After(front).value, steps[|steps| - 1]);
    }
  }

  /** Within an interval of an attempt's claim there is no newer attempt. */
  lemma NoNewerAttempt(s: Sys, a: nat)
    requires Inv(s) && a < |s.attempts| && s.clock < s.attempts[a].claimedAt + MIN_INTERVAL
    ensures a == |s.attempts| - 1
  {
    var n := |s.attempts| - 1;
    if a < n {
      IntervalsAddUp(s.attempts, a, n);
    }
  }

  /** Where fetches end within the interval, a caller that rechecks within the
      interval of the claim of the fetch it waited for, once that has published,
      is served exactly when the map this very fetch published has its kid. */
  lemma RiderIsServedByItsFetch(steps: seq<Step>, t: ThreadId, limit: real)
    requires PromptRun(steps, limit) && limit <= MIN_INTERVAL
    requires Enabled(After(steps).value, Recheck(t))
    requires var s := After(steps).value;
             var a := s.attempts[s.threads[t].attempt];
             a.published.Some? && s.clock < a.claimedAt + MIN_INTERVAL
    ensures var s := After(steps).value;
            var pc := s.threads[t];
            var i := s.attempts[pc.attempt].published.value;
            && i < |s.published|
            && Next(s, Recheck(t)).threads[t]
               == if pc.kid in s.published[i] then Served(pc.kid, s.published[i][pc.kid]) else UnknownKey(pc.kid)
  {
    assert steps[..|steps|] == steps;
    var s := After(steps).value;
    Always(steps);
    NoNewerAttempt(s, s.threads[t].attempt);
    LastPublishedAlways(steps, limit);
    RecheckServes(s, t);
  }
}
