/**
  A rider's recheck reads the latest key map, not the one its fetch published:
  the run in which a later fetch takes the rider's key away again.
 */
module JwksLatest {
  import opened Common
  import opened JwksCache
  import opened JwksFlight
  import opened JwksSystem

  const KEYS := map["k" := "key"]

  /** Every unfinished fetch has only just been claimed. */
  ghost predicate JustClaimed(s: Sys) {
    forall a :: 0 <= a < |s.attempts| && !s.attempts[a].finished ==> s.clock == s.attempts[a].claimedAt
  }

  lemma Extend(steps: seq<Step>, step: Step, limit: real)
    requires limit > 0.0 && PromptRun(steps, limit) && After(steps).Some? && Enabled(After(steps).value, step)
    requires JustClaimed(Next(After(steps).value, step))
    ensures PromptRun(steps + [step], limit)
    ensures After(steps + [step]) == Some(Next(After(steps).value, step))
  {
    PromptExtends(steps, step, limit);
  }

  /** Thread 0 fetching, thread 1 riding along, both for "k". */
  ghost predicate RidingAlong(s: Sys) {
    && s.clock == 0.0 && s.published == [] && s.cache == CLAIMED.cache && s.attempts == CLAIMED.attempts
    && 0 in s.threads && s.threads[0] == Requesting("k", 0)
    && 1 in s.threads && s.threads[1] == Riding("k", 0) && 2 !in s.threads
  }

  /** The fetch has published the key; thread 0 is at `pc`, thread 1 still riding. */
  ghost predicate PublishedWith(s: Sys, pc: Pc) {
    && s.clock == 0.0 && s.published == [KEYS] && s.cache.keys == KEYS && s.cache.negative == []
    && s.cache.lastFetchAt == Some(0.0) && |s.attempts| == 1
    && s.attempts[0].published == Some(0) && s.attempts[0].error == None && s.attempts[0].claimedAt == 0.0
    && (pc.Signalling? ==> s.attempts[0].finished)
    && 0 in s.threads && s.threads[0] == pc
    && 1 in s.threads && s.threads[1] == Riding("k", 0) && 2 !in s.threads
  }

  /** Thread 1 woken, about to recheck; nobody else is fetching. */
  ghost predicate Woken(s: Sys) {
    && s.clock == 0.0 && s.published == [KEYS] && s.cache.keys == KEYS && s.cache.negative == []
    && s.cache.lastFetchAt == Some(0.0) && |s.attempts| == 1 && s.attempts[0].published == Some(0)
    && s.attempts[0].finished && s.attempts[0].claimedAt == 0.0
    && 1 in s.threads && s.threads[1] == Rechecking("k", 0) && 2 !in s.threads
  }

  /** A minute later thread 2 is fetching for another kid. */
  ghost predicate FetchingAgain(s: Sys) {
    && s.clock == 60.0 && s.published == [KEYS] && |s.attempts| == 2 && s.attempts[0].published == Some(0)
    && s.attempts[0].finished && s.attempts[0].claimedAt == 0.0 && s.attempts[1].claimedAt == 60.0
    && 1 in s.threads && s.threads[1] == Rechecking("k", 0)
    && 2 in s.threads && s.threads[2] == Requesting("z", 1)
  }

  lemma Ride(s: Sys)
    requires s == CLAIMED
    ensures Enabled(s, Arrive(1, "k")) && Enabled(Next(s, Arrive(1, "k")), Decide(1))
    ensures JustClaimed(Next(s, Arrive(1, "k")))
    ensures RidingAlong(Next(Next(s, Arrive(1, "k")), Decide(1)))
  {
    var s1 := Next(s, Arrive(1, "k"));
    assert s1.threads[1] == Clocked("k", 0.0);
    assert Decided(s1.cache, "k", 0.0, 1) == (s1.cache, Decision.Ride(0));
  }

  lemma PublishKey(s: Sys)
    requires RidingAlong(s)
    ensures Enabled(s, Publish(0, KEYS)) && PublishedWith(Next(s, Publish(0, KEYS)), Ending("k", 0, false))
  {
  }

  lemma EndFetch(s: Sys)
    requires PublishedWith(s, Ending("k", 0, false))
    ensures Enabled(s, Finish(0)) && PublishedWith(Next(s, Finish(0)), Signalling("k", 0, false))
  {
  }

  lemma Release(s: Sys)
    requires PublishedWith(s, Signalling("k", 0, false))
    ensures Enabled(s, SetDone(0)) && Enabled(Next(s, SetDone(0)), Wake(1))
    ensures JustClaimed(Next(s, SetDone(0))) && Woken(Next(Next(s, SetDone(0)), Wake(1)))
  {
    var s1 := Next(s, SetDone(0));
    assert s1.attempts[0].done && s1.attempts[0].error == None;
  }

  lemma FetchAgain(s: Sys)
    requires Woken(s)
    ensures Enabled(s, Tick(60.0)) && Enabled(Next(s, Tick(60.0)), Arrive(2, "z"))
    ensures JustClaimed(Next(s, Tick(60.0)))
    ensures var s2 := Next(Next(s, Tick(60.0)), Arrive(2, "z"));
            JustClaimed(s2) && Enabled(s2, Decide(2)) && FetchingAgain(Next(s2, Decide(2)))
  {
    var s2 := Next(Next(s, Tick(60.0)), Arrive(2, "z"));
    assert s2.threads[2] == Clocked("z", 60.0) && !SlotClaimed(s2.cache, 60.0);
    assert Decided(s2.cache, "z", 60.0, 1).1 == Perform(1);
  }

  lemma TakeAway(s: Sys)
    requires FetchingAgain(s)
    ensures Enabled(s, Publish(2, map[])) && Enabled(Next(s, Publish(2, map[])), ReadClock(1))
    ensures JustClaimed(Next(s, Publish(2, map[])))
    ensures var s2 := Next(Next(s, Publish(2, map[])), ReadClock(1));
            && JustClaimed(s2) && s2.clock == 60.0 && s2.attempts[0].claimedAt == 0.0
            && Enabled(s2, Recheck(1)) && s2.published == [KEYS, map[]] && s2.attempts[0].published == Some(0)
            && s2.threads[1].kid == "k" && s2.threads[1].attempt == 0
            && Next(s2, Recheck(1)).threads[1] == UnknownKey("k")
  {
  }

  lemma RideAlong(limit: real) returns (steps: seq<Step>)
    requires limit > 0.0
    ensures PromptRun(steps, limit) && After(steps).Some? && RidingAlong(After(steps).value)
  {
    ClaimingClaims();
    ClaimingIsPrompt(limit);
    var arrived := CLAIMING + [Arrive(1, "k")];
    steps := arrived + [Decide(1)];
    Ride(CLAIMED);
    Extend(CLAIMING, Arrive(1, "k"), limit);
    Extend(arrived, Decide(1), limit);
  }

  lemma RideAndWake(limit: real) returns (steps: seq<Step>)
    requires limit > 0.0
    ensures PromptRun(steps, limit) && After(steps).Some? && Woken(After(steps).value)
  {
    var riding := RideAlong(limit);
    var s1 := riding + [Publish(0, KEYS)];
    var s2 := s1 + [Finish(0)];
    var s3 := s2 + [SetDone(0)];
    steps := s3 + [Wake(1)];
    PublishKey(After(riding).value);
    Extend(riding, Publish(0, KEYS), limit);
    EndFetch(After(s1).value);
    Extend(s1, Finish(0), limit);
    Release(After(s2).value);
    Extend(s2, SetDone(0), limit);
    Extend(s3, Wake(1), limit);
  }

  /** Though the fetch a rider waited for published its key, and every fetch ends
      at once, a rider that rechecks an interval after the claim can be told its
      key is unknown. */
  lemma LaterFetchTakesKeyAway(limit: real) returns (steps: seq<Step>)
    requires limit > 0.0
    ensures PromptRun(steps, limit) && After(steps).Some? && Enabled(After(steps).value, Recheck(1))
    ensures var s := After(steps).value;
            var pc := s.threads[1];
            && s.clock == s.attempts[pc.attempt].claimedAt + MIN_INTERVAL
            && s.attempts[pc.attempt].published == Some(0) && s.published != [] && pc.kid in s.published[0]
            && Next(s, Recheck(1)).threads[1] == UnknownKey(pc.kid)
  {
    var woken := RideAndWake(limit);
    var s1 := woken + [Tick(60.0)];
    var s2 := s1 + [Arrive(2, "z")];
    var s3 := s2 + [Decide(2)];
    var s4 := s3 + [Publish(2, map[])];
    steps := s4 + [ReadClock(1)];
    FetchAgain(After(woken).value);
    Extend(woken, Tick(60.0), limit);
    Extend(s1, Arrive(2, "z"), limit);
    Extend(s2, Decide(2), limit);
    TakeAway(After(s3).value);
    Extend(s3, Publish(2, map[]), limit);
    Extend(s4, ReadClock(1), limit);
  }

  // ---------------------------------------------------------------------
  // Exactly how long a rider's own fetch decides
  // ---------------------------------------------------------------------

  /** A caller about to recheck within `within` of the claim of its fetch, which
      has published. */
  predicate InTime(s: Sys, t: ThreadId, within: real) {
    Enabled(s, Recheck(t))
    && s.attempts[s.threads[t].attempt].published.Some?
    && s.clock < s.attempts[s.threads[t].attempt].claimedAt + within
  }

  /** It is served exactly when the map its own fetch published has its kid. */
  predicate OwnFetchDecides(s: Sys, t: ThreadId)
    requires Enabled(s, Recheck(t)) && s.attempts[s.threads[t].attempt].published.Some?
  {
    var pc := s.threads[t];
    var i := s.attempts[pc.attempt].published.value;
    i < |s.published|
    && Next(s, Recheck(t)).threads[t]
       == if pc.kid in s.published[i] then Served(pc.kid, s.published[i][pc.kid]) else UnknownKey(pc.kid)
  }

  /** Where fetches end within the interval, a caller that rechecks within some
      time of the claim of the fetch it waited for has, in every run, that fetch's
      own map decide, if and only if that time is no longer than the interval. */
  lemma OwnFetchDecidesIff(limit: real, within: real)
    requires 0.0 < limit <= MIN_INTERVAL
    ensures (forall steps, t | PromptRun(steps, limit) && InTime(After(steps).value, t, within) ::
               OwnFetchDecides(After(steps).value, t))
            <==> within <= MIN_INTERVAL
  {
    if within <= MIN_INTERVAL {
      forall steps, t | PromptRun(steps, limit) && InTime(After(steps).value, t, within)
        ensures OwnFetchDecides(After(steps).value, t)
      {
        RiderIsServedByItsFetch(steps, t, limit);
      }
    } else {
      var steps := LaterFetchTakesKeyAway(limit);
      assert InTime(After(steps).value, 1, within) && !OwnFetchDecides(After(steps).value, 1);
    }
  }
}
