/**
  Riders are released in every interleaving: how far a fetch is from its end is
  its own thread's business alone.
 */
module JwksRelease {
  import opened Common
  import opened JwksCache
  import opened JwksSystem

  /** How many steps of its own a fetch is from letting its riders go. */
  function Rank(s: Sys, a: nat): (rank: nat)
    requires a < |s.attempts|
    ensures rank <= 3
  {
    var t := s.attempts[a].owner;
    if s.attempts[a].done || t !in s.threads then 0
    else match s.threads[t]
      case Requesting(_, _) => 3
      case Ending(_, _, _) => 2
      case Signalling(_, _, _) => 1
      case _ => 0
  }

  /** A step by which the thread that owns attempt `a` takes its fetch further. */
  predicate OwnStep(s: Sys, step: Step, a: nat)
    requires a < |s.attempts|
  {
    (step.Publish? || step.RequestFails? || step.Interrupt? || step.Finish? || step.SetDone?)
    && step.t == s.attempts[a].owner && Enabled(s, step) && s.threads[step.t].attempt == a
  }

  lemma OwnStepLowers(s: Sys, step: Step, a: nat)
    requires Inv(s) && a < |s.attempts| && OwnStep(s, step, a)
    ensures a < |Next(s, step).attempts| && Next(s, step).attempts[a].owner == s.attempts[a].owner
    ensures Rank(Next(s, step), a) == Rank(s, a) - 1
  {
    assert ThreadInv(s, step.t, s.threads[step.t]);
  }

  lemma DoneStays(s: Sys, step: Step, a: nat)
    requires Inv(s) && Enabled(s, step) && a < |s.attempts| && s.attempts[a].done
    ensures a < |Next(s, step).attempts| && Next(s, step).attempts[a].owner == s.attempts[a].owner
    ensures Next(s, step).attempts[a].done && !OwnStep(s, step, a)
  {
    if !step.Tick? && step.t in s.threads {
      assert ThreadInv(s, step.t, s.threads[step.t]);
    }
  }

  /** The owner's place in its fetch, which only its own steps change. */
  lemma OwnerStays(s: Sys, step: Step, a: nat)
    requires Inv(s) && Enabled(s, step) && a < |s.attempts| && !s.attempts[a].done && !OwnStep(s, step, a)
    ensures a < |Next(s, step).attempts| && Next(s, step).attempts[a].owner == s.attempts[a].owner
    ensures !Next(s, step).attempts[a].done
    ensures var t := s.attempts[a].owner;
            t in s.threads && t in Next(s, step).threads && Next(s, step).threads[t] == s.threads[t]
  {
    assert Fetching(s, a);
    if !step.Tick? && step.t in s.threads {
      assert ThreadInv(s, step.t, s.threads[step.t]);
    }
  }

  lemma OtherStepKeeps(s: Sys, step: Step, a: nat)
    requires Inv(s) && Enabled(s, step) && a < |s.attempts| && !OwnStep(s, step, a)
    ensures a < |Next(s, step).attempts| && Next(s, step).attempts[a].owner == s.attempts[a].owner
    ensures Rank(Next(s, step), a) == Rank(s, a)
  {
    if s.attempts[a].done {
      DoneStays(s, step, a);
    } else {
      OwnerStays(s, step, a);
    }
  }

  /** The owner's own steps lower the rank by one, and no other step changes it. */
  lemma RankStep(s: Sys, step: Step, a: nat)
    requires Inv(s) && Enabled(s, step) && a < |s.attempts|
    ensures a < |Next(s, step).attempts|
    ensures Rank(Next(s, step), a) == Rank(s, a) - if OwnStep(s, step, a) then 1 else 0
    ensures Next(s, step).attempts[a].owner == s.attempts[a].owner
  {
    if OwnStep(s, step, a) {
      OwnStepLowers(s, step, a);
    } else {
      OtherStepKeeps(s, step, a);
    }
  }

  /** While the rank is above nought the owner's next step is always enabled, and
      at nought so is the waking of everyone who rides along. */
  lemma OwnerCanGoOn(s: Sys, a: nat, end: Step)
    requires Inv(s) && a < |s.attempts|
    requires (end.Publish? || end.RequestFails? || end.Interrupt?) && end.t == s.attempts[a].owner
    ensures Rank(s, a) == 3 ==> OwnStep(s, end, a)
    ensures Rank(s, a) == 2 ==> OwnStep(s, Finish(end.t), a)
    ensures Rank(s, a) == 1 ==> OwnStep(s, SetDone(end.t), a)
    ensures Rank(s, a) == 0 <==> s.attempts[a].done
    ensures forall t :: t in s.threads && s.threads[t].Riding? && s.threads[t].attempt == a ==>
              (Enabled(s, Wake(t)) <==> Rank(s, a) == 0)
  {
    if !s.attempts[a].done {
      assert Fetching(s, a);
      assert ThreadInv(s, end.t, s.threads[end.t]);
    }
  }

  /** How many of the steps that follow are the owner's own. */
  function OwnSteps(steps: seq<Step>, more: seq<Step>, a: nat): nat {
    if more == [] then 0
    else
      var n := |more| - 1;
      var s := After(steps + more[..n]);
      OwnSteps(steps, more[..n], a)
      + if s.Some? && a < |s.value.attempts| && OwnStep(s.value, more[n], a) then 1 else 0
  }

  lemma {:induction false} RankCountsDown(steps: seq<Step>, more: seq<Step>, a: nat)
    requires After(steps).Some? && a < |After(steps).value.attempts| && After(steps + more).Some?
    ensures var s, s' := After(steps).value, After(steps + more).value;
            a < |s'.attempts| && Rank(s', a) + OwnSteps(steps, more, a) == Rank(s, a)
  {
    if more == [] {
      assert steps + more == steps;
    } else {
      var n := |more| - 1;
      var all, front := steps + more, steps + more[..n];
      assert all[..|all| - 1] == front && all[|all| - 1] == more[n];
      assert After(front).Some? && After(all) == Some(Next(After(front).value, more[n]));
      RankCountsDown(steps, more[..n], a);
      Always(front);
      RankStep(After(front).value, more[n], a);
    }
  }

  /** Whatever everybody else does in between, a fetch lets its riders go after
      exactly as many steps of its own thread as its rank, at most three: until
      then that thread can go on, and from then on every rider can wake. */
  lemma RidersAreReleased(steps: seq<Step>, more: seq<Step>, t: ThreadId)
    requires After(steps).Some? && After(steps + more).Some?
    requires var s' := After(steps + more).value; t in s'.threads && s'.threads[t].Riding?
    requires After(steps + more).value.threads[t].attempt < |After(steps).value.attempts|
    ensures var s, s' := After(steps).value, After(steps + more).value;
            var a := s'.threads[t].attempt;
            && OwnSteps(steps, more, a) <= Rank(s, a) <= 3
            && (Enabled(s', Wake(t)) <==> OwnSteps(steps, more, a) == Rank(s, a))
            && (OwnSteps(steps, more, a) < Rank(s, a) ==> exists step :: a < |s'.attempts| && OwnStep(s', step, a))
  {
    var s' := After(steps + more).value;
    var a := s'.threads[t].attempt;
    RankCountsDown(steps, more, a);
    Always(steps + more);
    var owner := s'.attempts[a].owner;
    OwnerCanGoOn(s', a, Interrupt(owner));
    if Rank(s', a) > 0 {
      var step := if Rank(s', a) == 3 then Interrupt(owner) else if Rank(s', a) == 2 then Finish(owner) else SetDone(owner);
      assert OwnStep(s', step, a);
    }
  }
}
