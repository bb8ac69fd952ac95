/**
  What a recorded absence does to later callers: told at once, whatever is in
  flight, until it is 300 seconds old or 1024 other kids were recorded after it.
 */
module JwksDenial {
  import opened Common
  import opened JwksCache
  import opened JwksSystem

  ghost predicate Denied(c: Cache, kid: Kid, now: real) {
    exists e :: e in c.negative && e.kid == kid && now - e.at < 300.0
  }

  lemma InvTells(s: Sys)
    requires Inv(s)
    ensures DistinctKids(s.cache.negative)
    ensures s.cache.lastFetchAt == if s.attempts == [] then None else Some(s.attempts[|s.attempts| - 1].claimedAt)
  {
  }

  /** Acting on each decision. */
  lemma ActsOn(s: Sys, t: ThreadId, kid: Kid, now: real, cache: Cache, d: Decision)
    requires !d.Hit?
    ensures var s' := Act(s, t, kid, now, cache, d);
            && s'.cache == cache && t in s'.threads
            && s'.attempts == s.attempts + (if d.Perform? then [Attempt(t, now, None, None, false, false)] else [])
            && s'.threads[t] == match d
               case Perform(a) => Requesting(kid, a)
               case Ride(a) => Riding(kid, a)
               case Refuse => UnknownKey(kid)
               case _ => Unavailable(kid)
  {
    assert s.attempts + [] == s.attempts;
  }

  /** What asking about a kid the key map lacks leads to. Recorded absent less
      than 300 seconds before the caller's reading: it is told "unknown", and
      nothing else changes. Otherwise it performs a fetch just when the last one
      was claimed 60 seconds or more before; if not, it rides the one in flight,
      or is told the last one's failure, or "unknown". */
  ghost predicate Answered(s: Sys, t: ThreadId, kid: Kid, now: real, s': Sys) {
    var n := |s.attempts|;
    var due := n == 0 || now - s.attempts[n - 1].claimedAt >= 60.0;
    && t in s'.threads
    && if Denied(s.cache, kid, now) || !due then
         && s'.attempts == s.attempts && s'.cache == s.cache
         && s'.threads[t] == if Denied(s.cache, kid, now) then UnknownKey(kid)
                             else if s.cache.inFlight.Some? then Riding(kid, s.cache.inFlight.value)
                             else if s.cache.lastError.Some? then Unavailable(kid)
                             else UnknownKey(kid)
       else
         && s'.attempts == s.attempts + [Attempt(t, now, None, None, false, false)]
         && s'.threads[t] == Requesting(kid, n)
  }

  lemma AbsentKidIsAnswered(steps: seq<Step>, t: ThreadId)
    requires After(steps).Some? && Enabled(After(steps).value, Decide(t))
    ensures var s := After(steps).value;
            var (kid, now) := (s.threads[t].kid, s.threads[t].now);
            kid !in s.cache.keys ==> Answered(s, t, kid, now, Next(s, Decide(t)))
  {
    Always(steps);
    var s := After(steps).value;
    InvTells(s);
    if s.threads[t].kid !in s.cache.keys {
      AnsweredBy(s, t, s.threads[t].kid, s.threads[t].now);
    }
  }

  lemma AnsweredBy(s: Sys, t: ThreadId, kid: Kid, now: real)
    requires DistinctKids(s.cache.negative) && kid !in s.cache.keys
    requires s.cache.lastFetchAt == if s.attempts == [] then None else Some(s.attempts[|s.attempts| - 1].claimedAt)
    ensures Answered(s, t, kid, now, AfterDecision(s, t, kid, now))
  {
    var (cache, d) := Decided(s.cache, kid, now, |s.attempts|);
    AbsentKidIsDecided(s.cache, kid, now, |s.attempts|);
    ActsOn(s, t, kid, now, cache, d);
  }

  lemma FinishTells(s: Sys, t: ThreadId)
    requires Enabled(s, Finish(t))
    ensures var s' := Next(s, Finish(t));
            && s'.cache == s.cache.(lastError := s.attempts[s.threads[t].attempt].error, inFlight := None)
            && |s'.attempts| == |s.attempts|
            && (forall i :: 0 <= i < |s.attempts| ==> s'.attempts[i].claimedAt == s.attempts[i].claimedAt)
            && (forall u :: u in s.threads && u != t ==> u in s'.threads && s'.threads[u] == s.threads[u])
  {
  }

  lemma OutageFrom(s: Sys, u: ThreadId, kid: Kid, now: real, s': Sys)
    requires Answered(s, u, kid, now, s') && !Denied(s.cache, kid, now)
    requires s.cache.inFlight == None && s.cache.lastError.Some?
    requires s.attempts != [] && now - s.attempts[|s.attempts| - 1].claimedAt < 60.0
    ensures u in s'.threads && s'.threads[u] == Unavailable(kid)
  {
  }

  /** A failed fetch is told as an outage, never as "unknown": to whoever asks,
      within 60 seconds of the last claim, about a kid not recorded absent. */
  lemma OutageIsTold(steps: seq<Step>, t: ThreadId, u: ThreadId)
    requires After(steps).Some? && Enabled(After(steps).value, Finish(t))
    requires var s := After(steps).value; s.attempts[s.threads[t].attempt].error.Some?
    requires Enabled(Next(After(steps).value, Finish(t)), Decide(u))
    ensures var s := Next(After(steps).value, Finish(t));
            var (kid, now) := (s.threads[u].kid, s.threads[u].now);
            kid !in s.cache.keys && !Denied(s.cache, kid, now)
            && now - s.attempts[|s.attempts| - 1].claimedAt < 60.0 ==>
              u in Next(s, Decide(u)).threads && Next(s, Decide(u)).threads[u] == Unavailable(kid)
  {
    AfterOne(steps, Finish(t));
    AbsentKidIsAnswered(steps + [Finish(t)], u);
    FinishTells(After(steps).value, t);
    var s := Next(After(steps).value, Finish(t));
    var (kid, now) := (s.threads[u].kid, s.threads[u].now);
    if kid !in s.cache.keys && !Denied(s.cache, kid, now) && now - s.attempts[|s.attempts| - 1].claimedAt < 60.0 {
      OutageFrom(s, u, kid, now, Next(s, Decide(u)));
    }
  }

  /** So are its riders; its own caller gets the fault. Nobody's kid is recorded. */
  lemma FailureIsNoVerdict(s: Sys, step: Step)
    requires Enabled(s, step) && (step.Wake? || step.SetDone?)
    requires step.Wake? ==> s.attempts[s.threads[step.t].attempt].error.Some?
    requires step.SetDone? ==> s.threads[step.t].raised
    ensures Next(s, step).cache == s.cache
    ensures var kid := s.threads[step.t].kid;
            Next(s, step).threads == s.threads[step.t := if step.Wake? then Unavailable(kid) else Fault(kid)]
  {
  }

  // ---------------------------------------------------------------------
  // How long an absence is remembered
  // ---------------------------------------------------------------------

  /** The entry is held, with at most `n` recorded after it. */
  ghost predicate Holds(negative: seq<Entry>, e: Entry, n: nat) {
    exists i :: 0 <= i < |negative| && negative[i] == e && |negative| - 1 - i <= n
  }

  lemma {:induction false} WithoutHolds(negative: seq<Entry>, e: Entry, n: nat, kid: Kid)
    requires Holds(negative, e, n) && kid != e.kid
    ensures Holds(Without(negative, kid), e, n)
    decreases |negative|
  {
    var i :| 0 <= i < |negative| && negative[i] == e && |negative| - 1 - i <= n;
    var front, last := negative[..|negative| - 1], negative[|negative| - 1];
    var rest := Without(front, kid);
    if i == |front| {
      assert Without(negative, kid)[|rest|] == e;
    } else {
      assert front[i] == e && |front| - 1 - i <= n - 1;
      WithoutHolds(front, e, n - 1, kid);
      var j :| 0 <= j < |rest| && rest[j] == e && |rest| - 1 - j <= n - 1;
      assert Without(negative, kid)[j] == e;
    }
  }

  lemma NewestHolds(negative: seq<Entry>, e: Entry, n: nat, size: nat)
    requires Holds(negative, e, n) && n < size
    ensures Holds(Newest(negative, size), e, n)
  {
    var i :| 0 <= i < |negative| && negative[i] == e && |negative| - 1 - i <= n;
    var kept := Newest(negative, size);
    assert kept[i - (|negative| - |kept|)] == e;
  }

  lemma SnocHolds(negative: seq<Entry>, e: Entry, n: nat, o: Entry)
    requires Holds(negative, e, n)
    ensures Holds(negative + [o], e, n + 1)
  {
    var i :| 0 <= i < |negative| && negative[i] == e && |negative| - 1 - i <= n;
    assert (negative + [o])[i] == e;
  }

  /** Recording another kid puts one more entry behind this one. */
  lemma RecordedHolds(negative: seq<Entry>, e: Entry, n: nat, kid: Kid, now: real)
    requires Holds(negative, e, n) && kid != e.kid && n <= NEGATIVE_MAX - 2
    ensures Holds(Recorded(negative, kid, now), e, n + 1)
  {
    WithoutHolds(negative, e, n, kid);
    NewestHolds(Without(negative, kid), e, n, NEGATIVE_MAX - 1);
    SnocHolds(Newest(Without(negative, kid), NEGATIVE_MAX - 1), e, n, Entry(kid, now));
  }

  /** Publishes no map with this kid, and is no recheck of it. */
  predicate Spares(s: Sys, step: Step, kid: Kid) {
    match step
    case Publish(_, keys) => kid !in keys
    case Recheck(t) => Active(s, t) && s.threads[t].RecheckClocked? && s.threads[t].kid != kid
    case _ => true
  }

  lemma DecideHolds(s: Sys, t: ThreadId, e: Entry, n: nat)
    requires Enabled(s, Decide(t)) && Holds(s.cache.negative, e, n) && e.kid !in s.cache.keys
    ensures var s' := Next(s, Decide(t)); Holds(s'.cache.negative, e, n) && s'.cache.keys == s.cache.keys
  {
    var kid := s.threads[t].kid;
    if kid in s.cache.keys {
      WithoutHolds(s.cache.negative, e, n, kid);
    }
  }

  lemma RecheckHolds(s: Sys, t: ThreadId, e: Entry, n: nat)
    requires Enabled(s, Recheck(t)) && Holds(s.cache.negative, e, n) && s.threads[t].kid != e.kid
    requires n <= NEGATIVE_MAX - 2
    ensures var s' := Next(s, Recheck(t)); Holds(s'.cache.negative, e, n + 1) && s'.cache.keys == s.cache.keys
  {
    var kid := s.threads[t].kid;
    if kid in s.cache.keys {
      WithoutHolds(s.cache.negative, e, n, kid);
    } else {
      RecordedHolds(s.cache.negative, e, n, kid, s.threads[t].now);
    }
  }

  lemma StepHolds(s: Sys, step: Step, e: Entry, n: nat)
    requires Enabled(s, step) && Spares(s, step, e.kid) && Holds(s.cache.negative, e, n) && e.kid !in s.cache.keys
    requires step.Recheck? ==> n <= NEGATIVE_MAX - 2
    ensures Holds(Next(s, step).cache.negative, e, n + if step.Recheck? then 1 else 0)
    ensures e.kid !in Next(s, step).cache.keys
  {
    match step {
      case Decide(t) => DecideHolds(s, t, e, n);
      case Recheck(t) => RecheckHolds(s, t, e, n);
      case _ =>
    }
  }

  function Rechecks(steps: seq<Step>): nat {
    if steps == [] then 0 else Rechecks(steps[..|steps| - 1]) + if steps[|steps| - 1].Recheck? then 1 else 0
  }

  /** Whatever `more` does after `steps`, it spares this kid. */
  ghost predicate AllSpare(steps: seq<Step>, more: seq<Step>, kid: Kid) {
    forall i :: 0 <= i < |more| ==>
      After(steps + more[..i]).Some? && Spares(After(steps + more[..i]).value, more[i], kid)
  }

  lemma AfterSnoc(steps: seq<Step>, more: seq<Step>)
    requires more != [] && After(steps + more).Some?
    ensures var before := After(steps + more[..|more| - 1]);
            before.Some? && Enabled(before.value, more[|more| - 1])
            && After(steps + more) == Some(Next(before.value, more[|more| - 1]))
  {
    assert (steps + more)[..|steps + more| - 1] == steps + more[..|more| - 1];
  }

  lemma {:induction false} DenialHolds(steps: seq<Step>, more: seq<Step>, e: Entry)
    requires After(steps).Some? && Holds(After(steps).value.cache.negative, e, 0)
    requires e.kid !in After(steps).value.cache.keys
    requires After(steps + more).Some? && AllSpare(steps, more, e.kid) && Rechecks(more) < NEGATIVE_MAX
    ensures Holds(After(steps + more).value.cache.negative, e, Rechecks(more))
    ensures e.kid !in After(steps + more).value.cache.keys
    decreases |more|
  {
    if more == [] {
      assert steps + more == steps;
    } else {
      var n := |more| - 1;
      AfterSnoc(steps, more);
      FrontSpares(steps, more, e.kid);
      DenialHolds(steps, more[..n], e);
      StepHolds(After(steps + more[..n]).value, more[n], e, Rechecks(more[..n]));
    }
  }

  lemma FrontSpares(steps: seq<Step>, more: seq<Step>, kid: Kid)
    requires more != [] && AllSpare(steps, more, kid)
    ensures AllSpare(steps, more[..|more| - 1], kid)
  {
    var front := more[..|more| - 1];
    forall i | 0 <= i < |front|
      ensures After(steps + front[..i]).Some? && Spares(After(steps + front[..i]).value, front[i], kid)
    {
      assert front[..i] == more[..i];
    }
  }

  lemma RecheckRecords(s: Sys, t: ThreadId)
    requires Enabled(s, Recheck(t)) && s.threads[t].kid !in s.cache.keys
    ensures Holds(Next(s, Recheck(t)).cache.negative, Entry(s.threads[t].kid, s.threads[t].now), 0)
    ensures Next(s, Recheck(t)).cache.keys == s.cache.keys
  {
    var after := Next(s, Recheck(t)).cache.negative;
    assert after[|after| - 1] == Entry(s.threads[t].kid, s.threads[t].now);
  }

  /** A kid found absent at reading `at` costs nobody a fetch or a wait: in every
      continuation in which it is neither published nor rechecked and fewer than
      1024 other kids are, who asks for it with a reading less than 300 seconds
      later is told "unknown", and nothing else changes. */
  lemma AbsenceIsRemembered(steps: seq<Step>, t: ThreadId, more: seq<Step>, u: ThreadId)
    requires After(steps).Some? && Enabled(After(steps).value, Recheck(t))
    requires After(steps).value.threads[t].kid !in After(steps).value.cache.keys
    requires After(steps + [Recheck(t)] + more).Some?
    requires AllSpare(steps + [Recheck(t)], more, After(steps).value.threads[t].kid) && Rechecks(more) < 1024
    requires Enabled(After(steps + [Recheck(t)] + more).value, Decide(u))
    ensures var (kid, at) := (After(steps).value.threads[t].kid, After(steps).value.threads[t].now);
            var s := After(steps + [Recheck(t)] + more).value;
            s.threads[u].kid == kid && s.threads[u].now - at < 300.0 ==>
              Next(s, Decide(u)) == s.(threads := s.threads[u := UnknownKey(kid)])
  {
    var before := After(steps).value;
    var e := Entry(before.threads[t].kid, before.threads[t].now);
    var s := After(steps + [Recheck(t)] + more).value;
    RecheckRecords(before, t);
    AfterOne(steps, Recheck(t));
    DenialHolds(steps + [Recheck(t)], more, e);
    Always(steps + [Recheck(t)] + more);
    InvTells(s);
    if s.threads[u].kid == e.kid && s.threads[u].now - e.at < 300.0 {
      HeldIsDenied(s, e, Rechecks(more), u);
    }
  }

  lemma HeldIsDenied(s: Sys, e: Entry, n: nat, u: ThreadId)
    requires DistinctKids(s.cache.negative) && Holds(s.cache.negative, e, n) && e.kid !in s.cache.keys
    requires Enabled(s, Decide(u)) && s.threads[u].kid == e.kid && s.threads[u].now - e.at < 300.0
    ensures Next(s, Decide(u)) == s.(threads := s.threads[u := UnknownKey(e.kid)])
  {
    assert e in s.cache.negative;
    AbsentKidIsDecided(s.cache, e.kid, s.threads[u].now, |s.attempts|);
  }

  // ---------------------------------------------------------------------
  // The limit is exact
  // ---------------------------------------------------------------------

  function RecordAll(negative: seq<Entry>, others: seq<Entry>): seq<Entry> {
    if others == [] then negative
    else
      var o := others[|others| - 1];
      Recorded(RecordAll(negative, others[..|others| - 1]), o.kid, o.at)
  }

  predicate Holding(negative: seq<Entry>, kid: Kid) {
    exists i :: 0 <= i < |negative| && negative[i].kid == kid
  }

  lemma WithoutLast(negative: seq<Entry>, kid: Kid)
    requires negative != [] && negative[|negative| - 1].kid != kid
    ensures Without(negative, kid) == Without(negative[..|negative| - 1], kid) + [negative[|negative| - 1]]
  {
  }

  lemma SnocIsNewest(tail: seq<Entry>, all: seq<Entry>)
    requires tail != [] && IsNewest(tail[..|tail| - 1], all)
    ensures IsNewest(tail, all + [tail[|tail| - 1]])
  {
    var front, last := tail[..|tail| - 1], tail[|tail| - 1];
    NewestSnoc(front, all, last);
    assert front + [last] == tail;
  }

  lemma FrontHolds(negative: seq<Entry>, kid: Kid)
    requires negative != [] && !Holding(negative, kid)
    ensures !Holding(negative[..|negative| - 1], kid) && negative[|negative| - 1].kid != kid
  {
    var front := negative[..|negative| - 1];
    assert forall i :: 0 <= i < |front| ==> front[i] == negative[i];
  }

  /** Dropping a kid leaves an end that does not hold it as it is. */
  lemma {:induction false} EndStays(tail: seq<Entry>, negative: seq<Entry>, kid: Kid)
    requires IsNewest(tail, negative) && !Holding(tail, kid)
    ensures IsNewest(tail, Without(negative, kid))
    decreases |tail|
  {
    if tail == [] {
      NoneIsNewest(Without(negative, kid));
    } else {
      NewestFront(tail, negative);
      FrontHolds(tail, kid);
      EndStays(tail[..|tail| - 1], negative[..|negative| - 1], kid);
      SnocIsNewest(tail, Without(negative[..|negative| - 1], kid));
      WithoutLast(negative, kid);
    }
  }

  lemma NewestOfBoth(kept: seq<Entry>, all: seq<Entry>, n: nat)
    requires IsNewest(kept, all)
    ensures IsNewest(Newest(kept, n), Newest(all, n))
  {
    var from := |all| - |kept|;
    assert forall i :: 0 <= i < |kept| ==> kept[i] == all[from + i];
  }

  lemma RecordedKeepsEnd(tail: seq<Entry>, negative: seq<Entry>, o: Entry)
    requires IsNewest(tail, negative) && !Holding(tail, o.kid)
    ensures IsNewest(Newest(tail, NEGATIVE_MAX - 1) + [o], Recorded(negative, o.kid, o.at))
    ensures |Recorded(negative, o.kid, o.at)| <= NEGATIVE_MAX
  {
    EndStays(tail, negative, o.kid);
    NewestOfBoth(tail, Without(negative, o.kid), NEGATIVE_MAX - 1);
    NewestSnoc(Newest(tail, NEGATIVE_MAX - 1), Newest(Without(negative, o.kid), NEGATIVE_MAX - 1), o);
  }

  lemma {:induction false} RecordAllEnds(negative: seq<Entry>, e: Entry, others: seq<Entry>)
    requires DistinctKids([e] + others)
    ensures IsNewest(Newest([e] + others, NEGATIVE_MAX), RecordAll(Recorded(negative, e.kid, e.at), others))
    ensures |RecordAll(Recorded(negative, e.kid, e.at), others)| <= NEGATIVE_MAX
    decreases |others|
  {
    if others == [] {
      assert [e] + others == [e];
      var kept := Newest(Without(negative, e.kid), NEGATIVE_MAX - 1);
      NoneIsNewest(kept);
      NewestSnoc([], kept, e);
    } else {
      var front, o := others[..|others| - 1], others[|others| - 1];
      assert [e] + others == [e] + front + [o];
      NotAmongNewest([e] + front, o);
      RecordAllEnds(negative, e, front);
      RecordedKeepsEnd(Newest([e] + front, NEGATIVE_MAX), RecordAll(Recorded(negative, e.kid, e.at), front), o);
      NewestSnocs([e] + front, o);
    }
  }

  lemma NotAmongNewest(all: seq<Entry>, o: Entry)
    requires DistinctKids(all + [o])
    ensures !Holding(Newest(all, NEGATIVE_MAX), o.kid) && DistinctKids(all)
  {
    assert forall i :: 0 <= i < |all| ==> (all + [o])[i] == all[i];
    assert (all + [o])[|all|] == o;
  }

  lemma NewestSnocs(all: seq<Entry>, o: Entry)
    ensures Newest(Newest(all, NEGATIVE_MAX), NEGATIVE_MAX - 1) + [o] == Newest(all + [o], NEGATIVE_MAX)
  {
  }

  /** The first of at most 1024 entries is among the newest, the first of more is not. */
  lemma FirstIsNewest(e: Entry, others: seq<Entry>, held: seq<Entry>)
    requires DistinctKids([e] + others) && |held| <= NEGATIVE_MAX
    requires IsNewest(Newest([e] + others, NEGATIVE_MAX), held)
    ensures Holding(held, e.kid) <==> |others| < NEGATIVE_MAX
  {
    var all := [e] + others;
    var tail := Newest(all, NEGATIVE_MAX);
    assert all[0] == e;
    if |others| < NEGATIVE_MAX {
      assert held[|held| - |tail|] == tail[0] == e;
    } else {
      assert held == tail;
      forall i | 0 <= i < |tail| ensures tail[i].kid != e.kid {
        assert tail[i] == all[|all| - NEGATIVE_MAX + i];
      }
    }
  }

  /** A recorded absence outlives later ones of other kids exactly up to the
      1023rd. */
  lemma ForgottenIff(negative: seq<Entry>, e: Entry, others: seq<Entry>)
    requires DistinctKids([e] + others)
    ensures Holding(RecordAll(Recorded(negative, e.kid, e.at), others), e.kid) <==> |others| < 1024
  {
    RecordAllEnds(negative, e, others);
    FirstIsNewest(e, others, RecordAll(Recorded(negative, e.kid, e.at), others));
  }
}
