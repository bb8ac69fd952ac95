/**
  Worker threads interleaving over the key cache. Each locked section of the
  provider is one step, and so is everything between two sections that another
  thread can observe: reading the clock, the request succeeding, failing or
  being interrupted, setting an attempt done, a rider waking or giving up.
 */
module JwksSystem {
  import opened Common
  import opened JwksCache

  type ThreadId = nat

  /** Where a thread is; the last four are the outcomes of a resolution. */
  datatype Pc =
    | Clocked(kid: Kid, now: real)
    | Requesting(kid: Kid, attempt: nat)
    | Ending(kid: Kid, attempt: nat, raised: bool)
    | Signalling(kid: Kid, attempt: nat, raised: bool)
    | Riding(kid: Kid, attempt: nat)
    | Rechecking(kid: Kid, attempt: nat)
    | RecheckClocked(kid: Kid, attempt: nat, now: real)
    | Served(kid: Kid, jwk: Jwk)
    | UnknownKey(kid: Kid)
    | Unavailable(kid: Kid)
    | Fault(kid: Kid)

  /** One outbound fetch; `published` is the position of its key map among all published. */
  datatype Attempt = Attempt(
    owner: ThreadId,
    claimedAt: real,
    published: Option<nat>,
    error: Option<string>,
    finished: bool,
    done: bool)

  /** `ideal` is the negative map as it would be if it never evicted. */
  datatype Sys = Sys(
    clock: real,
    cache: Cache,
    attempts: seq<Attempt>,
    threads: map<ThreadId, Pc>,
    published: seq<map<Kid, Jwk>>,
    ideal: seq<Entry>)

  const INITIAL := Sys(0.0, EMPTY, [], map[], [], [])

  datatype Step =
    | Tick(to: real)
    | Arrive(t: ThreadId, kid: Kid)
    | Decide(t: ThreadId)
    | Publish(t: ThreadId, keys: map<Kid, Jwk>)
    | RequestFails(t: ThreadId, error: string)
    | Interrupt(t: ThreadId)
    | Finish(t: ThreadId)
    | SetDone(t: ThreadId)
    | Wake(t: ThreadId)
    | GiveUp(t: ThreadId)
    | ReadClock(t: ThreadId)
    | Recheck(t: ThreadId)

  predicate IsOutcome(pc: Pc) {
    pc.Served? || pc.UnknownKey? || pc.Unavailable? || pc.Fault?
  }

  predicate AttemptKnown(s: Sys, pc: Pc) {
    (pc.Requesting? || pc.Ending? || pc.Signalling? || pc.Riding? || pc.Rechecking? || pc.RecheckClocked?)
    ==> pc.attempt < |s.attempts|
  }

  predicate Active(s: Sys, t: ThreadId) {
    t in s.threads && AttemptKnown(s, s.threads[t])
  }

  predicate Enabled(s: Sys, step: Step) {
    match step
    case Tick(to) => s.clock <= to
    case Arrive(t, _) => t in s.threads ==> IsOutcome(s.threads[t])
    case Decide(t) => Active(s, t) && s.threads[t].Clocked?
    case Publish(t, _) => Active(s, t) && s.threads[t].Requesting?
    case RequestFails(t, _) => Active(s, t) && s.threads[t].Requesting?
    case Interrupt(t) => Active(s, t) && s.threads[t].Requesting?
    case Finish(t) => Active(s, t) && s.threads[t].Ending?
    case SetDone(t) => Active(s, t) && s.threads[t].Signalling?
    case Wake(t) => Active(s, t) && s.threads[t].Riding? && s.attempts[s.threads[t].attempt].done
    case GiveUp(t) => Active(s, t) && s.threads[t].Riding? && !s.attempts[s.threads[t].attempt].done
    case ReadClock(t) => Active(s, t) && s.threads[t].Rechecking?
    case Recheck(t) => Active(s, t) && s.threads[t].RecheckClocked?
  }

  function Become(s: Sys, t: ThreadId, pc: Pc): Sys {
    s.(threads := s.threads[t := pc])
  }

  /** A thread acting on what its locked decision left and told it. */
  function Act(s: Sys, t: ThreadId, kid: Kid, now: real, cache: Cache, d: Decision): Sys {
    var s' := s.(cache := cache);
    match d
    case Hit(jwk) => Become(s'.(ideal := Without(s.ideal, kid)), t, Served(kid, jwk))
    case Perform(a) =>
      Become(s'.(attempts := s.attempts + [Attempt(t, now, None, None, false, false)]), t, Requesting(kid, a))
    case Ride(a) => Become(s', t, Riding(kid, a))
    case Refuse => Become(s', t, UnknownKey(kid))
    case Unreachable => Become(s', t, Unavailable(kid))
  }

  /** A thread acting on its recheck after a fetch. */
  function Conclude(s: Sys, t: ThreadId, kid: Kid, now: real, cache: Cache, jwk: Option<Jwk>): Sys {
    var s' := s.(cache := cache);
    if jwk.Some? then Become(s'.(ideal := Without(s.ideal, kid)), t, Served(kid, jwk.value))
    else Become(s'.(ideal := Without(s.ideal, kid) + [Entry(kid, now)]), t, UnknownKey(kid))
  }

  function AfterDecision(s: Sys, t: ThreadId, kid: Kid, now: real): Sys {
    var (cache, d) := Decided(s.cache, kid, now, |s.attempts|);
    Act(s, t, kid, now, cache, d)
  }

  function AfterRecheck(s: Sys, t: ThreadId, kid: Kid, now: real): Sys {
    var (cache, jwk) := Rechecked(s.cache, kid, now);
    Conclude(s, t, kid, now, cache, jwk)
  }

  function Next(s: Sys, step: Step): Sys
    requires Enabled(s, step)
  {
    match step
    case Tick(to) => s.(clock := to)
    case Arrive(t, kid) => Become(s, t, Clocked(kid, s.clock))
    case Decide(t) => AfterDecision(s, t, s.threads[t].kid, s.threads[t].now)
    case Publish(t, keys) =>
      var a := s.threads[t].attempt;
      Become(s.(cache := Published(s.cache, keys), published := s.published + [keys],
                attempts := s.attempts[a := s.attempts[a].(published := Some(|s.published|))]),
             t, Ending(s.threads[t].kid, a, false))
    case RequestFails(t, error) =>
      var a := s.threads[t].attempt;
      Become(s.(attempts := s.attempts[a := s.attempts[a].(error := Some(error))]),
             t, Ending(s.threads[t].kid, a, true))
    case Interrupt(t) => Become(s, t, Ending(s.threads[t].kid, s.threads[t].attempt, true))
    case Finish(t) =>
      var a := s.threads[t].attempt;
      Become(s.(cache := Finished(s.cache, s.attempts[a].error),
                attempts := s.attempts[a := s.attempts[a].(finished := true)]),
             t, Signalling(s.threads[t].kid, a, s.threads[t].raised))
    case SetDone(t) =>
      var a := s.threads[t].attempt;
      Become(s.(attempts := s.attempts[a := s.attempts[a].(done := true)]),
             t, if s.threads[t].raised then Fault(s.threads[t].kid) else Rechecking(s.threads[t].kid, a))
    case Wake(t) =>
      var a := s.threads[t].attempt;
      Become(s, t, if s.attempts[a].error.Some? then Unavailable(s.threads[t].kid)
                   else Rechecking(s.threads[t].kid, a))
    case GiveUp(t) => Become(s, t, Unavailable(s.threads[t].kid))
    case ReadClock(t) => Become(s, t, RecheckClocked(s.threads[t].kid, s.threads[t].attempt, s.clock))
    case Recheck(t) => AfterRecheck(s, t, s.threads[t].kid, s.threads[t].now)
  }

  /** The state a sequence of steps leads to, if each is enabled in turn. */
  function After(steps: seq<Step>): Option<Sys> {
    if steps == [] then Some(INITIAL)
    else
      var s := After(steps[..|steps| - 1]);
      if s.Some? && Enabled(s.value, steps[|steps| - 1]) then Some(Next(s.value, steps[|steps| - 1])) else None
  }

  // ---------------------------------------------------------------------
  // What every step keeps
  // ---------------------------------------------------------------------

  ghost predicate ThreadInv(s: Sys, t: ThreadId, pc: Pc) {
    && AttemptKnown(s, pc)
    && (pc.Clocked? || pc.RecheckClocked? ==> pc.now <= s.clock)
    && (pc.Requesting? || pc.Ending? || pc.Signalling? ==> s.attempts[pc.attempt].owner == t)
    && (pc.Requesting? || pc.Ending? || pc.Signalling? ==> !s.attempts[pc.attempt].done)
    && (pc.Requesting? || pc.Ending? ==> !s.attempts[pc.attempt].finished)
    && (pc.Requesting? ==> s.attempts[pc.attempt].published == None && s.attempts[pc.attempt].error == None)
    && (pc.Ending? || pc.Signalling? ==> pc.raised == (s.attempts[pc.attempt].published == None))
    && (pc.Signalling? ==> s.attempts[pc.attempt].finished)
  }

  predicate Fetching(s: Sys, a: nat)
    requires a < |s.attempts|
  {
    var t := s.attempts[a].owner;
    t in s.threads &&
    var pc := s.threads[t];
    (pc.Requesting? || pc.Ending? || pc.Signalling?) && pc.attempt == a
  }

  ghost predicate Inv(s: Sys) {
    && (forall t :: t in s.threads ==> ThreadInv(s, t, s.threads[t]))
    && (forall i :: 0 < i < |s.attempts| ==>
          s.attempts[i].claimedAt - s.attempts[i - 1].claimedAt >= MIN_INTERVAL)
    && (forall i :: 0 <= i < |s.attempts| ==> s.attempts[i].claimedAt <= s.clock)
    && s.cache.lastFetchAt == (if s.attempts == [] then None else Some(s.attempts[|s.attempts| - 1].claimedAt))
    && s.cache.keys == (if s.published == [] then map[] else s.published[|s.published| - 1])
    && (s.cache.inFlight.Some? ==> s.cache.inFlight.value < |s.attempts|)
    && (forall a :: 0 <= a < |s.attempts| && !s.attempts[a].done ==> Fetching(s, a))
    && (forall a :: 0 <= a < |s.attempts| && s.attempts[a].published.Some? ==>
          s.attempts[a].published.value < |s.published|)
    && IsNewest(s.cache.negative, s.ideal) && |s.cache.negative| <= NEGATIVE_MAX && DistinctKids(s.cache.negative)
  }

  lemma ArriveKeeps(s: Sys, t: ThreadId, pc: Pc)
    requires Inv(s)
    requires t in s.threads ==> !(s.threads[t].Requesting? || s.threads[t].Ending? || s.threads[t].Signalling?)
    requires !(pc.Requesting? || pc.Ending? || pc.Signalling?) && ThreadInv(s, t, pc)
    ensures Inv(Become(s, t, pc))
  {
    var s' := Become(s, t, pc);
    forall a | 0 <= a < |s.attempts| && !s.attempts[a].done ensures Fetching(s', a) {
      assert Fetching(s, a);
    }
  }

  /** What a decision can be, and what it leaves behind. */
  ghost predicate Decides(c: Cache, kid: Kid, now: real, next: nat, c': Cache, d: Decision) {
    match d
    case Hit(jwk) => kid in c.keys && jwk == c.keys[kid] && c' == c.(negative := Without(c.negative, kid))
    case Perform(a) =>
      a == next && !SlotClaimed(c, now) && c' == c.(inFlight := Some(a), lastFetchAt := Some(now))
    case Ride(a) => c' == c && c.inFlight == Some(a)
    case Refuse =>
      c' == c && kid !in c.keys
      && ((exists e :: e in c.negative && e.kid == kid)
          || (c.lastFetchAt.Some? && c.inFlight == None && c.lastError == None))
    case Unreachable => c' == c
  }

  lemma DecidedDecides(c: Cache, kid: Kid, now: real, next: nat)
    ensures Decides(c, kid, now, next, Decided(c, kid, now, next).0, Decided(c, kid, now, next).1)
  {
    var i := FindKid(c.negative, kid);
    if i < |c.negative| {
      assert c.negative[i] in c.negative;
    }
  }

  lemma DecideKeeps(s: Sys, t: ThreadId)
    requires Inv(s) && Enabled(s, Decide(t))
    ensures Inv(Next(s, Decide(t)))
  {
    var kid, now := s.threads[t].kid, s.threads[t].now;
    assert ThreadInv(s, t, s.threads[t]);
    var (cache, d) := Decided(s.cache, kid, now, |s.attempts|);
    DecidedDecides(s.cache, kid, now, |s.attempts|);
    ActKeeps(s, t, kid, now, cache, d);
  }

  lemma ActKeeps(s: Sys, t: ThreadId, kid: Kid, now: real, cache: Cache, d: Decision)
    requires Inv(s) && now <= s.clock && Decides(s.cache, kid, now, |s.attempts|, cache, d)
    requires t in s.threads && s.threads[t].Clocked?
    ensures Inv(Act(s, t, kid, now, cache, d))
  {
    match d {
      case Hit(jwk) => ForgetKeeps(s, t, kid, Served(kid, jwk));
      case Perform(a) => ClaimKeeps(s, t, kid, now);
      case Ride(a) => ArriveKeeps(s, t, Riding(kid, a));
      case Refuse => ArriveKeeps(s, t, UnknownKey(kid));
      case Unreachable => ArriveKeeps(s, t, Unavailable(kid));
    }
  }

  /** Changing only the two negative maps keeps the invariant, if it keeps their relation. */
  lemma NegativeKeeps(s: Sys, negative: seq<Entry>, ideal: seq<Entry>)
    requires Inv(s)
    requires IsNewest(negative, ideal) && |negative| <= NEGATIVE_MAX && DistinctKids(negative)
    ensures Inv(s.(cache := s.cache.(negative := negative), ideal := ideal))
  {
    var s' := s.(cache := s.cache.(negative := negative), ideal := ideal);
    forall a | 0 <= a < |s.attempts| && !s.attempts[a].done ensures Fetching(s', a) {
      assert Fetching(s, a);
    }
    forall u | u in s.threads ensures ThreadInv(s', u, s.threads[u]) {
      assert ThreadInv(s, u, s.threads[u]);
    }
  }

  lemma ForgetKeeps(s: Sys, t: ThreadId, kid: Kid, pc: Pc)
    requires Inv(s) && IsOutcome(pc)
    requires t in s.threads && (s.threads[t].Clocked? || s.threads[t].RecheckClocked?)
    ensures Inv(Become(s.(cache := s.cache.(negative := Without(s.cache.negative, kid)),
                          ideal := Without(s.ideal, kid)), t, pc))
  {
    WithoutIsNewest(s.cache.negative, s.ideal, kid);
    NegativeKeeps(s, Without(s.cache.negative, kid), Without(s.ideal, kid));
    ArriveKeeps(s.(cache := s.cache.(negative := Without(s.cache.negative, kid)), ideal := Without(s.ideal, kid)),
                t, pc);
  }

  lemma ClaimKeeps(s: Sys, t: ThreadId, kid: Kid, now: real)
    requires Inv(s) && now <= s.clock && !SlotClaimed(s.cache, now)
    requires t in s.threads && s.threads[t].Clocked?
    ensures var a := |s.attempts|;
            Inv(Act(s, t, kid, now, s.cache.(inFlight := Some(a), lastFetchAt := Some(now)), Perform(a)))
  {
    var n := |s.attempts|;
    var s' := Act(s, t, kid, now, s.cache.(inFlight := Some(n), lastFetchAt := Some(now)), Perform(n));
    forall a | 0 <= a < |s'.attempts| && !s'.attempts[a].done ensures Fetching(s', a) {
      if a < n {
        assert Fetching(s, a);
      }
    }
    forall u | u in s'.threads ensures ThreadInv(s', u, s'.threads[u]) {
      if u != t {
        assert ThreadInv(s, u, s.threads[u]);
      }
    }
  }

  /** One fetching thread updates its own attempt, and perhaps the key map, and moves on. */
  ghost predicate OwnerActs(s: Sys, s': Sys, t: ThreadId, a: nat) {
    && t in s.threads && a < |s.attempts|
    && (s.threads[t].Requesting? || s.threads[t].Ending? || s.threads[t].Signalling?)
    && s.threads[t].attempt == a
    && t in s'.threads && s' == s.(cache := s'.cache, published := s'.published, attempts := s'.attempts,
                                   threads := s.threads[t := s'.threads[t]])
    && |s'.attempts| == |s.attempts|
    && (forall i :: 0 <= i < |s.attempts| && i != a ==> s'.attempts[i] == s.attempts[i])
    && s'.attempts[a].owner == s.attempts[a].owner && s'.attempts[a].claimedAt == s.attempts[a].claimedAt
  }

  lemma OwnerKeepsThreads(s: Sys, s': Sys, t: ThreadId, a: nat)
    requires Inv(s) && OwnerActs(s, s', t, a) && ThreadInv(s', t, s'.threads[t])
    ensures forall u :: u in s'.threads ==> ThreadInv(s', u, s'.threads[u])
  {
    assert ThreadInv(s, t, s.threads[t]);
    forall u | u in s'.threads ensures ThreadInv(s', u, s'.threads[u]) {
      if u != t {
        assert ThreadInv(s, u, s.threads[u]);
      }
    }
  }

  lemma OwnerKeepsFetching(s: Sys, s': Sys, t: ThreadId, a: nat)
    requires Inv(s) && OwnerActs(s, s', t, a)
    requires !s'.attempts[a].done ==> Fetching(s', a)
    ensures forall b :: 0 <= b < |s'.attempts| && !s'.attempts[b].done ==> Fetching(s', b)
  {
    assert ThreadInv(s, t, s.threads[t]);
    forall b | 0 <= b < |s'.attempts| && !s'.attempts[b].done ensures Fetching(s', b) {
      if b != a {
        assert Fetching(s, b);
        assert s.attempts[b].owner != t;
      }
    }
  }

  lemma OwnerKeeps(s: Sys, s': Sys, t: ThreadId, a: nat)
    requires Inv(s) && OwnerActs(s, s', t, a)
    requires s'.cache.lastFetchAt == s.cache.lastFetchAt && s'.cache.negative == s.cache.negative
    requires s'.cache.inFlight.Some? ==> s'.cache.inFlight == s.cache.inFlight
    requires |s.published| <= |s'.published|
    requires s'.cache.keys == (if s'.published == [] then map[] else s'.published[|s'.published| - 1])
    requires s'.attempts[a].published.Some? ==> s'.attempts[a].published.value < |s'.published|
    requires ThreadInv(s', t, s'.threads[t])
    requires !s'.attempts[a].done ==> Fetching(s', a)
    ensures Inv(s')
  {
    OwnerKeepsThreads(s, s', t, a);
    OwnerKeepsFetching(s, s', t, a);
  }

  lemma FetchStepKeeps(s: Sys, step: Step, t: ThreadId)
    requires Inv(s) && Enabled(s, step)
    requires step.Publish? || step.RequestFails? || step.Interrupt? || step.Finish? || step.SetDone?
    requires step.t == t
    ensures Inv(Next(s, step))
  {
    assert ThreadInv(s, t, s.threads[t]);
    OwnerKeeps(s, Next(s, step), t, s.threads[t].attempt);
  }

  lemma StepKeeps(s: Sys, step: Step)
    requires Inv(s) && Enabled(s, step)
    ensures Inv(Next(s, step))
  {
    match step {
      case Tick(to) => TickKeeps(s, to);
      case Arrive(t, kid) => ArriveKeeps(s, t, Clocked(kid, s.clock));
      case Decide(t) => DecideKeeps(s, t);
      case Publish(t, _) => FetchStepKeeps(s, step, t);
      case RequestFails(t, _) => FetchStepKeeps(s, step, t);
      case Interrupt(t) => FetchStepKeeps(s, step, t);
      case Finish(t) => FetchStepKeeps(s, step, t);
      case SetDone(t) => FetchStepKeeps(s, step, t);
      case Wake(t) => ArriveKeeps(s, t, Next(s, step).threads[t]);
      case GiveUp(t) => ArriveKeeps(s, t, Unavailable(s.threads[t].kid));
      case ReadClock(t) => ArriveKeeps(s, t, Next(s, step).threads[t]);
      case Recheck(t) => RecheckKeeps(s, t);
    }
  }

  lemma TickKeeps(s: Sys, to: real)
    requires Inv(s) && s.clock <= to
    ensures Inv(s.(clock := to))
  {
    var s' := s.(clock := to);
    forall a | 0 <= a < |s.attempts| && !s.attempts[a].done ensures Fetching(s', a) {
      assert Fetching(s, a);
    }
  }

  lemma RecheckKeeps(s: Sys, t: ThreadId)
    requires Inv(s) && Enabled(s, Recheck(t))
    ensures Inv(Next(s, Recheck(t)))
  {
    var kid, now := s.threads[t].kid, s.threads[t].now;
    if kid in s.cache.keys {
      ForgetKeeps(s, t, kid, Served(kid, s.cache.keys[kid]));
    } else {
      RecordKeeps(s, t, kid, now);
    }
  }

  lemma RecordKeeps(s: Sys, t: ThreadId, kid: Kid, now: real)
    requires Inv(s) && t in s.threads && s.threads[t].RecheckClocked?
    ensures Inv(Conclude(s, t, kid, now, s.cache.(negative := Recorded(s.cache.negative, kid, now)), None))
  {
    var negative, ideal := Recorded(s.cache.negative, kid, now), Without(s.ideal, kid) + [Entry(kid, now)];
    RecordedIsNewest(s.cache.negative, s.ideal, kid, now);
    NegativeKeeps(s, negative, ideal);
    ArriveKeeps(s.(cache := s.cache.(negative := negative), ideal := ideal), t, UnknownKey(kid));
  }

  lemma {:induction false} Always(steps: seq<Step>)
    requires After(steps).Some?
    ensures Inv(After(steps).value)
  {
    if steps != [] {
      Always(steps[..|steps| - 1]);
      StepKeeps(After(steps[..|steps| - 1]).value, steps[|steps| - 1]);
    }
  }

  /** In every interleaving the bounded negative map is the newest entries,
      never more than its limit, of the one that would never evict: eviction
      always takes the earliest recorded. */
  lemma NegativeMapIsBounded(steps: seq<Step>)
    requires After(steps).Some?
    ensures var s := After(steps).value;
            |s.cache.negative| <= NEGATIVE_MAX && IsNewest(s.cache.negative, s.ideal)
            && DistinctKids(s.cache.negative)
  {
    Always(steps);
  }

  // ---------------------------------------------------------------------
  // What a single step tells its caller
  // ---------------------------------------------------------------------

  /** A recheck serves from the key map as it is, and else says "unknown". */
  lemma RecheckServes(s: Sys, t: ThreadId)
    requires Enabled(s, Recheck(t))
    ensures var kid := s.threads[t].kid;
            Next(s, Recheck(t)).threads[t]
            == if kid in s.cache.keys then Served(kid, s.cache.keys[kid]) else UnknownKey(kid)
  {
  }

  /** A kid in the positive map when its caller takes the lock is served, and
      leaves the negative map, whatever that map or an outage says. */
  lemma PositiveMapWins(steps: seq<Step>, t: ThreadId)
    requires After(steps).Some? && Enabled(After(steps).value, Decide(t))
    ensures var s := After(steps).value;
            var s' := Next(s, Decide(t));
            var kid := s.threads[t].kid;
            kid in s.cache.keys ==>
              && s'.threads[t] == Served(kid, s.cache.keys[kid])
              && s.published != [] && s.cache.keys == s.published[|s.published| - 1]
              && (forall e :: e in s'.cache.negative ==> e.kid != kid)
  {
    Always(steps);
    if After(steps).value.threads[t].kid in After(steps).value.cache.keys {
      HitServes(After(steps).value, t);
    }
  }

  lemma HitServes(s: Sys, t: ThreadId)
    requires Enabled(s, Decide(t)) && s.threads[t].kid in s.cache.keys
    ensures var kid := s.threads[t].kid;
            var s' := Next(s, Decide(t));
            && s'.threads[t] == Served(kid, s.cache.keys[kid])
            && (forall e :: e in s'.cache.negative ==> e.kid != kid)
  {
  }

  // ---------------------------------------------------------------------
  // Runs step by step
  // ---------------------------------------------------------------------

  lemma AfterOne(steps: seq<Step>, step: Step)
    ensures After(steps).Some? && Enabled(After(steps).value, step) ==>
              After(steps + [step]) == Some(Next(After(steps).value, step))
  {
    assert (steps + [step])[..|steps|] == steps;
  }

  /** The state after one thread has claimed the fetch slot at reading 0. */
  const CLAIMED := Sys(0.0, EMPTY.(inFlight := Some(0), lastFetchAt := Some(0.0)),
                       [Attempt(0, 0.0, None, None, false, false)], map[0 := Requesting("k", 0)], [], [])

  const CLAIMING := [Arrive(0, "k"), Decide(0)]

  lemma ClaimingClaims()
    ensures After(CLAIMING[..0]) == Some(INITIAL)
    ensures After(CLAIMING[..1]) == Some(INITIAL.(threads := map[0 := Clocked("k", 0.0)]))
    ensures After(CLAIMING) == Some(CLAIMED)
  {
    assert CLAIMING[..1] == [Arrive(0, "k")] && [] + [Arrive(0, "k")] == [Arrive(0, "k")];
    AfterOne([], Arrive(0, "k"));
    AfterOne([Arrive(0, "k")], Decide(0));
    assert [Arrive(0, "k")] + [Decide(0)] == CLAIMING;
    var s := After(CLAIMING).value;
    assert s.attempts == CLAIMED.attempts && s.threads == CLAIMED.threads && s.cache == CLAIMED.cache;
  }
}
