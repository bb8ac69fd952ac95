/**
  "Unknown signing key" as a statement about a key map: in which runs a caller
  is told so only of a kid that some fetched map lacks.
 */
module JwksSoundness {
  import opened Common
  import opened JwksCache
  import opened JwksSystem

  /** Some fetch has published a key map that lacks the kid. */
  ghost predicate Denied(s: Sys, kid: Kid) {
    exists i :: 0 <= i < |s.published| && kid !in s.published[i]
  }

  ghost predicate Sound(s: Sys) {
    forall t :: t in s.threads && s.threads[t].UnknownKey? ==> Denied(s, s.threads[t].kid)
  }

  ghost predicate Uninterrupted(steps: seq<Step>) {
    forall i :: 0 <= i < |steps| ==> !steps[i].Interrupt?
  }

  /** No fetch is interrupted before some fetch has published. */
  ghost predicate LateInterrupts(steps: seq<Step>) {
    forall i :: 0 <= i < |steps| && steps[i].Interrupt? ==>
      After(steps[..i]).Some? && After(steps[..i]).value.published != []
  }

  // `calm`: nothing has been interrupted so far.

  /** Some fetch has published; in a calm run, this one has. */
  predicate Fetched(s: Sys, a: Attempt, calm: bool) {
    s.published != [] && (calm ==> a.published.Some?)
  }

  /** Who is told "unknown" has been denied; who rechecks does so after a fetch
      has published; a fetch about to end without an error follows one too. */
  ghost predicate ThreadChecked(s: Sys, pc: Pc, calm: bool) {
    && AttemptKnown(s, pc)
    && (pc.UnknownKey? ==> Denied(s, pc.kid))
    && (pc.Ending? || pc.Signalling? ==>
          s.attempts[pc.attempt].error == None ==> Fetched(s, s.attempts[pc.attempt], calm))
    && (pc.Rechecking? || pc.RecheckClocked? ==> Fetched(s, s.attempts[pc.attempt], calm))
  }

  predicate AttemptChecked(s: Sys, a: Attempt, calm: bool) {
    a.done && a.error == None ==> Fetched(s, a, calm)
  }

  predicate SlotChecked(s: Sys) {
    s.cache.lastFetchAt.Some? && s.cache.inFlight == None && s.cache.lastError == None ==> s.published != []
  }

  ghost predicate Checked(s: Sys, calm: bool) {
    && (forall t :: t in s.threads ==> ThreadChecked(s, s.threads[t], calm))
    && (forall e :: e in s.cache.negative ==> Denied(s, e.kid))
    && (forall a :: 0 <= a < |s.attempts| ==> AttemptChecked(s, s.attempts[a], calm))
    && SlotChecked(s)
  }

  /** Nothing published is taken back, no error forgotten. */
  ghost predicate Grows(s: Sys, s': Sys) {
    && s.published <= s'.published && |s.attempts| <= |s'.attempts|
    && forall a :: 0 <= a < |s.attempts| ==>
         && (s.attempts[a].published.Some? ==> s'.attempts[a].published.Some?)
         && (s'.attempts[a].error == None ==> s.attempts[a].error == None)
  }

  lemma GrowsKeepsThread(s: Sys, s': Sys, pc: Pc, calm: bool)
    requires Grows(s, s') && ThreadChecked(s, pc, calm)
    ensures ThreadChecked(s', pc, calm)
  {
    DeniedStays(s, s');
  }

  /** What a step has to establish: only of the threads, entries and attempts it touches. */
  lemma GrowsKeeps(s: Sys, s': Sys, calm: bool)
    requires Checked(s, calm) && Grows(s, s') && SlotChecked(s')
    requires forall u :: u in s'.threads ==>
               (u in s.threads && s'.threads[u] == s.threads[u]) || ThreadChecked(s', s'.threads[u], calm)
    requires forall e :: e in s'.cache.negative ==> e in s.cache.negative || Denied(s', e.kid)
    requires forall a :: 0 <= a < |s'.attempts| ==>
               (a < |s.attempts| && s'.attempts[a] == s.attempts[a]) || AttemptChecked(s', s'.attempts[a], calm)
    ensures Checked(s', calm)
  {
    DeniedStays(s, s');
    forall u | u in s'.threads ensures ThreadChecked(s', s'.threads[u], calm) {
      if u in s.threads && s'.threads[u] == s.threads[u] {
        GrowsKeepsThread(s, s', s.threads[u], calm);
      }
    }
  }

  lemma CurrentMapDenies(s: Sys, kid: Kid)
    requires Inv(s) && s.published != [] && kid !in s.cache.keys
    ensures Denied(s, kid)
  {
    assert kid !in s.published[|s.published| - 1];
  }

  lemma DeniedStays(s: Sys, s': Sys)
    requires s.published <= s'.published
    ensures forall kid :: Denied(s, kid) ==> Denied(s', kid)
  {
    forall kid | Denied(s, kid) ensures Denied(s', kid) {
      var i :| 0 <= i < |s.published| && kid !in s.published[i];
      assert kid !in s'.published[i];
    }
  }

  lemma CheckedDecide(s: Sys, t: ThreadId, calm: bool)
    requires Inv(s) && Checked(s, calm) && Enabled(s, Decide(t))
    ensures Checked(Next(s, Decide(t)), calm)
  {
    var kid, now := s.threads[t].kid, s.threads[t].now;
    var (cache, d) := Decided(s.cache, kid, now, |s.attempts|);
    DecidedDecides(s.cache, kid, now, |s.attempts|);
    assert ThreadInv(s, t, s.threads[t]);
    if d.Refuse? {
      RefusedIsDenied(s, kid, now, cache, calm);
    }
    CheckedAct(s, t, kid, now, cache, d, calm);
  }

  lemma CheckedAct(s: Sys, t: ThreadId, kid: Kid, now: real, cache: Cache, d: Decision, calm: bool)
    requires Checked(s, calm) && Decides(s.cache, kid, now, |s.attempts|, cache, d)
    requires d.Refuse? ==> Denied(s, kid)
    requires d.Ride? ==> d.attempt < |s.attempts|
    ensures Checked(Act(s, t, kid, now, cache, d), calm)
  {
    GrowsKeeps(s, Act(s, t, kid, now, cache, d), calm);
  }

  lemma RefusedIsDenied(s: Sys, kid: Kid, now: real, cache: Cache, calm: bool)
    requires Inv(s) && Checked(s, calm) && Decides(s.cache, kid, now, |s.attempts|, cache, Refuse)
    ensures Denied(s, kid)
  {
    if s.published != [] {
      CurrentMapDenies(s, kid);
    }
  }

  lemma CheckedRecheck(s: Sys, t: ThreadId, calm: bool)
    requires Inv(s) && Checked(s, calm) && Enabled(s, Recheck(t))
    ensures Checked(Next(s, Recheck(t)), calm)
  {
    var kid, now := s.threads[t].kid, s.threads[t].now;
    assert ThreadInv(s, t, s.threads[t]) && ThreadChecked(s, s.threads[t], calm);
    if kid in s.cache.keys {
      CheckedForget(s, t, kid, Served(kid, s.cache.keys[kid]), calm);
    } else {
      CurrentMapDenies(s, kid);
      CheckedRecord(s, t, kid, now, calm);
    }
  }

  lemma CheckedForget(s: Sys, t: ThreadId, kid: Kid, pc: Pc, calm: bool)
    requires Checked(s, calm) && pc.Served?
    ensures Checked(Become(s.(cache := s.cache.(negative := Without(s.cache.negative, kid)),
                              ideal := Without(s.ideal, kid)), t, pc), calm)
  {
    GrowsKeeps(s, Become(s.(cache := s.cache.(negative := Without(s.cache.negative, kid)),
                            ideal := Without(s.ideal, kid)), t, pc), calm);
  }

  lemma CheckedRecord(s: Sys, t: ThreadId, kid: Kid, now: real, calm: bool)
    requires Checked(s, calm) && Denied(s, kid)
    ensures Checked(Conclude(s, t, kid, now, s.cache.(negative := Recorded(s.cache.negative, kid, now)), None), calm)
  {
    var s' := Conclude(s, t, kid, now, s.cache.(negative := Recorded(s.cache.negative, kid, now)), None);
    DeniedStays(s, s');
    forall e | e in s'.cache.negative ensures e in s.cache.negative || Denied(s', e.kid) {
      assert e in Without(s.cache.negative, kid) || e == Entry(kid, now);
    }
    GrowsKeeps(s, s', calm);
  }

  lemma CheckedStep(s: Sys, step: Step, calm: bool)
    requires Inv(s) && Checked(s, calm) && Enabled(s, step)
    requires step.Interrupt? ==> !calm && s.published != []
    ensures Checked(Next(s, step), calm)
  {
    match step {
      case Decide(t) => CheckedDecide(s, t, calm);
      case Recheck(t) => CheckedRecheck(s, t, calm);
      case Publish(t, keys) => CheckedPublish(s, t, keys, calm);
      case RequestFails(t, error) => CheckedFailure(s, t, error, calm);
      case Finish(t) => CheckedFinish(s, t, calm);
      case SetDone(t) => CheckedDone(s, t, calm);
      case _ => CheckedPlain(s, step, calm);
    }
  }

  /** A step that touches no attempt. */
  lemma CheckedPlain(s: Sys, step: Step, calm: bool)
    requires Inv(s) && Checked(s, calm) && Enabled(s, step)
    requires step.Tick? || step.Arrive? || step.Wake? || step.GiveUp? || step.ReadClock? || step.Interrupt?
    requires step.Interrupt? ==> !calm && s.published != []
    ensures Checked(Next(s, step), calm)
  {
    if !step.Tick? && !step.Arrive? {
      assert ThreadInv(s, step.t, s.threads[step.t]) && ThreadChecked(s, s.threads[step.t], calm);
    }
    GrowsKeeps(s, Next(s, step), calm);
  }

  // The four steps of a fetch's own thread.

  lemma CheckedPublish(s: Sys, t: ThreadId, keys: map<Kid, Jwk>, calm: bool)
    requires Checked(s, calm) && Enabled(s, Publish(t, keys))
    ensures Checked(Next(s, Publish(t, keys)), calm)
  {
    GrowsKeeps(s, Next(s, Publish(t, keys)), calm);
  }

  lemma CheckedFailure(s: Sys, t: ThreadId, error: string, calm: bool)
    requires Inv(s) && Checked(s, calm) && Enabled(s, RequestFails(t, error))
    ensures Checked(Next(s, RequestFails(t, error)), calm)
  {
    assert ThreadInv(s, t, s.threads[t]);
    FailureGrows(s, t, error);
    GrowsKeeps(s, Next(s, RequestFails(t, error)), calm);
  }

  lemma FailureGrows(s: Sys, t: ThreadId, error: string)
    requires Enabled(s, RequestFails(t, error))
    ensures Grows(s, Next(s, RequestFails(t, error)))
  {
  }

  lemma CheckedFinish(s: Sys, t: ThreadId, calm: bool)
    requires Inv(s) && Checked(s, calm) && Enabled(s, Finish(t))
    ensures Checked(Next(s, Finish(t)), calm)
  {
    assert ThreadInv(s, t, s.threads[t]) && ThreadChecked(s, s.threads[t], calm);
    FinishKeeps(s, t, calm);
  }

  lemma FinishKeeps(s: Sys, t: ThreadId, calm: bool)
    requires Checked(s, calm) && Enabled(s, Finish(t))
    requires !s.attempts[s.threads[t].attempt].done && ThreadChecked(s, s.threads[t], calm)
    ensures Checked(Next(s, Finish(t)), calm)
  {
    GrowsKeeps(s, Next(s, Finish(t)), calm);
  }

  lemma CheckedDone(s: Sys, t: ThreadId, calm: bool)
    requires Inv(s) && Checked(s, calm) && Enabled(s, SetDone(t))
    ensures Checked(Next(s, SetDone(t)), calm)
  {
    assert ThreadInv(s, t, s.threads[t]) && ThreadChecked(s, s.threads[t], calm);
    var a := s.threads[t].attempt;
    if s.attempts[a].published.Some? {
      assert s.published != [];
    }
    DoneKeeps(s, t, calm);
  }

  lemma DoneKeeps(s: Sys, t: ThreadId, calm: bool)
    requires Checked(s, calm) && Enabled(s, SetDone(t)) && ThreadChecked(s, s.threads[t], calm)
    requires var a := s.attempts[s.threads[t].attempt];
             s.threads[t].raised == (a.published == None) && (a.published.Some? ==> s.published != [])
    ensures Checked(Next(s, SetDone(t)), calm)
  {
    GrowsKeeps(s, Next(s, SetDone(t)), calm);
  }

  lemma LateFront(steps: seq<Step>)
    requires steps != []
    ensures LateInterrupts(steps) ==> LateInterrupts(steps[..|steps| - 1])
    ensures Uninterrupted(steps) ==> Uninterrupted(steps[..|steps| - 1])
  {
    var front := steps[..|steps| - 1];
    assert forall i :: 0 <= i < |front| ==> front[i] == steps[i] && front[..i] == steps[..i];
  }

  lemma {:induction false} CheckedAlways(steps: seq<Step>, calm: bool)
    requires After(steps).Some? && (if calm then Uninterrupted(steps) else LateInterrupts(steps))
    ensures Inv(After(steps).value) && Checked(After(steps).value, calm)
  {
    Always(steps);
    if steps != [] {
      var front := steps[..|steps| - 1];
      LateFront(steps);
      CheckedAlways(front, calm);
      CheckedStep(After(front).value, steps[|steps| - 1], calm);
    }
  }

  /** In every interleaving in which no fetch is interrupted before the first has
      published, a caller told "unknown signing key" named a kid some fetched key
      map lacks, and so does every kid held in the negative map; while no fetch
      has published, nobody is told so. */
  lemma UnknownOnlyIfDenied(steps: seq<Step>)
    requires After(steps).Some? && LateInterrupts(steps)
    ensures Sound(After(steps).value)
    ensures forall e :: e in After(steps).value.cache.negative ==> Denied(After(steps).value, e.kid)
    ensures After(steps).value.published == [] ==>
              forall t :: t in After(steps).value.threads ==> !After(steps).value.threads[t].UnknownKey?
  {
    CheckedAlways(steps, false);
    var s := After(steps).value;
    assert forall t :: t in s.threads ==> ThreadChecked(s, s.threads[t], false);
  }

  // ---------------------------------------------------------------------
  // An interrupt before the first publication misleads
  // ---------------------------------------------------------------------

  /** Thread `t` is out of its call, no fetch is in flight and none left an error. */
  ghost predicate LeftBlank(s: Sys, t: ThreadId) {
    && s.published == [] && s.cache.keys == map[] && s.cache.inFlight == None && s.cache.lastError == None
    && s.cache.lastFetchAt.Some? && t in s.threads && IsOutcome(s.threads[t])
  }

  /** The interrupted fetch's thread ends it, recording no error. */
  lemma InterruptLeavesBlank(steps: seq<Step>, t: ThreadId)
    requires After(steps).Some? && Inv(After(steps).value)
    requires After(steps).value.published == [] && Enabled(After(steps).value, Interrupt(t))
    ensures var more := steps + [Interrupt(t)] + [Finish(t)] + [SetDone(t)];
            After(more).Some? && LeftBlank(After(more).value, t)
            && After(more).value.cache.lastFetchAt == After(steps).value.cache.lastFetchAt
            && After(more).value.clock == After(steps).value.clock
            && After(more).value.cache.negative == After(steps).value.cache.negative
  {
    var s := After(steps).value;
    assert ThreadInv(s, t, s.threads[t]);
    AfterOne(steps, Interrupt(t));
    AfterOne(steps + [Interrupt(t)], Finish(t));
    AfterOne(steps + [Interrupt(t)] + [Finish(t)], SetDone(t));
  }

  lemma BlankDecides(s: Sys, t: ThreadId, kid: Kid)
    requires LeftBlank(s, t)
    ensures Enabled(s, Arrive(t, kid)) && Enabled(Next(s, Arrive(t, kid)), Decide(t))
    ensures var s' := Next(Next(s, Arrive(t, kid)), Decide(t));
            && s'.published == [] && s'.clock == s.clock && t in s'.threads
            && (SlotClaimed(s.cache, s.clock) ==> s'.threads[t] == UnknownKey(kid))
            && (!SlotClaimed(s.cache, s.clock) ==>
                  s'.threads[t] == UnknownKey(kid)
                  || (s'.threads[t].Requesting? && s'.threads[t].attempt < |s'.attempts|
                      && s'.cache.lastFetchAt == Some(s.clock)))
  {
    var s1 := Next(s, Arrive(t, kid));
    assert s1.threads[t] == Clocked(kid, s.clock);
  }

  /** Back at once, the same thread is refused, or claims a fetch of its own. */
  lemma BlankReturns(steps: seq<Step>, t: ThreadId, kid: Kid) returns (more: seq<Step>)
    requires After(steps).Some? && LeftBlank(After(steps).value, t)
    ensures more == steps + [Arrive(t, kid)] + [Decide(t)] && After(more).Some?
    ensures var s, s' := After(steps).value, After(more).value;
            && s'.published == [] && s'.clock == s.clock && t in s'.threads
            && (s'.threads[t] == UnknownKey(kid)
                || (Enabled(s', Interrupt(t)) && s'.cache.lastFetchAt == Some(s.clock)))
            && (SlotClaimed(s.cache, s.clock) ==> s'.threads[t] == UnknownKey(kid))
  {
    more := steps + [Arrive(t, kid)] + [Decide(t)];
    BlankDecides(After(steps).value, t, kid);
    AfterOne(steps, Arrive(t, kid));
    AfterOne(steps + [Arrive(t, kid)], Decide(t));
  }

  lemma ToldUnknown(s: Sys, t: ThreadId, kid: Kid)
    requires s.published == [] && t in s.threads && s.threads[t] == UnknownKey(kid)
    ensures !Sound(s)
  {
    assert !Denied(s, kid);
  }

  /** From any reachable state with nothing published, interrupting a fetch leads
      to an unsound refusal: the interrupted caller need only come back, twice at
      most, and be told its key is unknown though no fetch has ever succeeded. */
  lemma EarlyInterruptMisleads(steps: seq<Step>, t: ThreadId, kid: Kid) returns (more: seq<Step>)
    requires After(steps).Some? && After(steps).value.published == []
    requires Enabled(After(steps).value, Interrupt(t))
    ensures steps + [Interrupt(t)] <= more && After(more).Some? && !Sound(After(more).value)
    ensures After(more).value.published == []
  {
    Always(steps);
    InterruptLeavesBlank(steps, t);
    var ended := steps + [Interrupt(t)] + [Finish(t)] + [SetDone(t)];
    more := BlankReturns(ended, t, kid);
    var s := After(more).value;
    if s.threads[t] == UnknownKey(kid) {
      ToldUnknown(s, t, kid);
    } else {
      Always(more);
      InterruptLeavesBlank(more, t);
      var again := more + [Interrupt(t)] + [Finish(t)] + [SetDone(t)];
      assert SlotClaimed(After(again).value.cache, After(again).value.clock);
      more := BlankReturns(again, t, kid);
      ToldUnknown(After(more).value, t, kid);
    }
  }

  /** A fetch interrupted by something that is no `Exception` leaves no error
      behind: the very next caller is told its key is unknown, though no fetch
      has ever succeeded. */
  lemma InterruptedFetchMisleads() returns (steps: seq<Step>)
    ensures After(steps).Some? && !Sound(After(steps).value) && After(steps).value.published == []
  {
    ClaimingClaims();
    steps := EarlyInterruptMisleads(CLAIMING, 0, "k");
  }

  // ---------------------------------------------------------------------
  // Exactly the interrupts before the first publication
  // ---------------------------------------------------------------------

  lemma {:induction false} PublishedStays(steps: seq<Step>, i: nat)
    requires After(steps).Some? && i <= |steps|
    ensures After(steps[..i]).Some? && After(steps[..i]).value.published <= After(steps).value.published
    decreases |steps| - i
  {
    if i == |steps| {
      assert steps[..i] == steps;
    } else {
      PublishedStays(steps, i + 1);
      assert steps[..i + 1][..i] == steps[..i];
    }
  }

  /** Once something is published, no later interrupt is early. */
  lemma LateFromHere(steps: seq<Step>, more: seq<Step>)
    requires After(steps + more).Some? && LateInterrupts(steps)
    requires After(steps).Some? && After(steps).value.published != []
    ensures LateInterrupts(steps + more)
  {
    var all := steps + more;
    forall i | 0 <= i < |all| && all[i].Interrupt?
      ensures After(all[..i]).Some? && After(all[..i]).value.published != []
    {
      PublishedStays(all, i);
      if i < |steps| {
        assert all[..i] == steps[..i] && all[i] == steps[i];
      } else {
        PublishedStays(all[..i], |steps|);
        assert all[..i][..|steps|] == steps;
      }
    }
  }

  /** An interrupt is harmless, whatever follows it, if and only if some fetch has
      published by then. */
  lemma HarmlessInterruptIff(steps: seq<Step>, t: ThreadId)
    requires After(steps).Some? && LateInterrupts(steps) && Enabled(After(steps).value, Interrupt(t))
    ensures (forall more | steps + [Interrupt(t)] <= more && After(more).Some? :: Sound(After(more).value))
            <==> After(steps).value.published != []
  {
    if After(steps).value.published == [] {
      var more := EarlyInterruptMisleads(steps, t, "k");
      assert steps + [Interrupt(t)] <= more && After(more).Some? && !Sound(After(more).value);
    } else {
      forall more | steps + [Interrupt(t)] <= more && After(more).Some? ensures Sound(After(more).value) {
        assert steps + more[|steps|..] == more;
        LateFromHere(steps, more[|steps|..]);
        UnknownOnlyIfDenied(more);
      }
    }
  }

  /** Fetches are interrupted only after a number of publications that `allowed` admits. */
  ghost predicate Obeys(steps: seq<Step>, allowed: nat -> bool) {
    forall i :: 0 <= i < |steps| && steps[i].Interrupt? ==>
      After(steps[..i]).Some? && allowed(|After(steps[..i]).value.published|)
  }

  /** Whenever else interrupts may come, "unknown signing key" is always a checked
      statement if and only if none may come before the first publication. */
  lemma UnknownIsSoundIff(allowed: nat -> bool)
    ensures (forall steps | After(steps).Some? && Obeys(steps, allowed) :: Sound(After(steps).value))
            <==> !allowed(0)
  {
    if allowed(0) {
      var steps := InterruptedFetchMisleads();
      forall i | 0 <= i < |steps| && steps[i].Interrupt?
        ensures After(steps[..i]).Some? && allowed(|After(steps[..i]).value.published|)
      {
        PublishedStays(steps, i);
      }
      assert Obeys(steps, allowed) && !Sound(After(steps).value);
    } else {
      forall steps | After(steps).Some? && Obeys(steps, allowed) ensures Sound(After(steps).value) {
        UnknownOnlyIfDenied(steps);
      }
    }
  }

  lemma RecheckedFrom(s: Sys, t: ThreadId)
    requires Inv(s) && Checked(s, false) && Enabled(s, Recheck(t))
    ensures s.published != [] && s.cache.keys == s.published[|s.published| - 1]
  {
    assert ThreadChecked(s, s.threads[t], false);
  }

  lemma OwnFetchPublished(s: Sys, t: ThreadId)
    requires Inv(s) && Checked(s, true) && Enabled(s, Recheck(t))
    ensures var own := s.attempts[s.threads[t].attempt].published;
            own.Some? && own.value < |s.published|
  {
    assert ThreadChecked(s, s.threads[t], true);
  }

  /** A caller that rechecks after a fetch, its own or one it rode, follows some
      fetch's publication, and that very fetch's where nothing was interrupted; it
      is served exactly when the latest published map has its kid, with that
      map's key. */
  lemma RiderIsServed(steps: seq<Step>, t: ThreadId)
    requires After(steps).Some? && LateInterrupts(steps)
    requires Enabled(After(steps).value, Recheck(t))
    ensures var s := After(steps).value;
            var pc := s.threads[t];
            && s.published != [] && pc.attempt < |s.attempts|
            && (Uninterrupted(steps) ==>
                  s.attempts[pc.attempt].published.Some? && s.attempts[pc.attempt].published.value < |s.published|)
            && var latest := s.published[|s.published| - 1];
               Next(s, Recheck(t)).threads[t]
               == if pc.kid in latest then Served(pc.kid, latest[pc.kid]) else UnknownKey(pc.kid)
  {
    var s := After(steps).value;
    CheckedAlways(steps, false);
    RecheckedFrom(s, t);
    if Uninterrupted(steps) {
      CheckedAlways(steps, true);
      OwnFetchPublished(s, t);
    }
    RecheckServes(s, t);
  }
}
