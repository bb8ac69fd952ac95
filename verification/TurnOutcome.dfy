/**
  What the end of a turn says and saves, for whatever the orchestrator emits, in
  whatever order: the one `done` the client is sent, its title, and the id and
  the parts of the one message persisted.
 */
module TurnOutcome {
  import opened Common
  import opened Frames
  import opened TurnStream
  import opened Agreement

  ghost predicate NoDone(emits: seq<Event>) {
    forall i :: 0 <= i < |emits| ==> !emits[i].Done?
  }

  ghost predicate NoError(emits: seq<Event>) {
    forall i :: 0 <= i < |emits| ==> !emits[i].Error?
  }

  ghost predicate FirstDone(emits: seq<Event>, i: nat) {
    i < |emits| && emits[i].Done? && NoDone(emits[..i])
  }

  ghost predicate FirstError(emits: seq<Event>, i: nat) {
    i < |emits| && emits[i].Error? && NoError(emits[..i])
  }

  /** The first `accepted` emitted says it is the conversation's first turn. */
  ghost predicate OpensTurnOne(emits: seq<Event>) {
    exists i :: 0 <= i < |emits| && emits[i] == Accepted(1) && forall j :: 0 <= j < i ==> !emits[j].Accepted?
  }

  // ---------------------------------------------------------------------
  // What the state remembers of the emissions
  // ---------------------------------------------------------------------

  lemma {:induction false} CountsAll(env: Envelope, emits: seq<Event>)
    ensures EmittedAll(env, emits).eventSeq == |emits| && EmittedAll(env, emits).outcome == None
  {
    if emits != [] {
      CountsAll(env, emits[..|emits| - 1]);
    }
  }

  lemma HeldStep(s: State, env: Envelope, e: Event)
    ensures Emitted(s, env, e).pendingDone
            == s.pendingDone + if e.Done? then [Frame(env.turnId, env.messageId, s.eventSeq + 1, e)] else []
  {
    assert s.pendingDone + [] == s.pendingDone;
  }

  lemma {:induction false} NothingHeld(env: Envelope, emits: seq<Event>)
    requires NoDone(emits)
    ensures EmittedAll(env, emits).pendingDone == []
  {
    if emits != [] {
      NothingHeld(env, emits[..|emits| - 1]);
      HeldStep(EmittedAll(env, emits[..|emits| - 1]), env, emits[|emits| - 1]);
    }
  }

  lemma {:induction false} HoldsFirst(env: Envelope, emits: seq<Event>, i: nat)
    requires FirstDone(emits, i)
    ensures EmittedAll(env, emits).pendingDone != []
    ensures EmittedAll(env, emits).pendingDone[0] == Frame(env.turnId, env.messageId, i + 1, emits[i])
  {
    var front, e := emits[..|emits| - 1], emits[|emits| - 1];
    CountsAll(env, front);
    HeldStep(EmittedAll(env, front), env, e);
    if i == |front| {
      NothingHeld(env, front);
    } else {
      assert front[..i] == emits[..i];
      HoldsFirst(env, front, i);
    }
  }

  lemma OpensStep(emits: seq<Event>)
    requires emits != []
    ensures var front, last := emits[..|emits| - 1], emits[|emits| - 1];
            OpensTurnOne(emits) <==>
              OpensTurnOne(front) || (last == Accepted(1) && forall j :: 0 <= j < |front| ==> !front[j].Accepted?)
  {
    var front, last := emits[..|emits| - 1], emits[|emits| - 1];
    if OpensTurnOne(front) {
      var i :| 0 <= i < |front| && front[i] == Accepted(1) && forall j :: 0 <= j < i ==> !front[j].Accepted?;
      assert emits[i] == Accepted(1);
    }
    if OpensTurnOne(emits) {
      var i :| 0 <= i < |emits| && emits[i] == Accepted(1) && forall j :: 0 <= j < i ==> !emits[j].Accepted?;
      assert i < |front| ==> front[i] == Accepted(1);
    }
  }

  lemma IndexesStep(s: State, env: Envelope, e: Event)
    ensures Emitted(s, env, e).turnIndexes == s.turnIndexes + if e.Accepted? then [e.turnIndex] else []
  {
    assert s.turnIndexes + [] == s.turnIndexes;
  }

  lemma {:induction false} KnowsItsTurn(env: Envelope, emits: seq<Event>)
    ensures var indexes := EmittedAll(env, emits).turnIndexes;
            && (indexes == [] <==> forall j :: 0 <= j < |emits| ==> !emits[j].Accepted?)
            && (indexes != [] && indexes[0] == 1 <==> OpensTurnOne(emits))
  {
    if emits != [] {
      var front := emits[..|emits| - 1];
      KnowsItsTurn(env, front);
      IndexesStep(EmittedAll(env, front), env, emits[|emits| - 1]);
      OpensStep(emits);
      assert forall j :: 0 <= j < |front| ==> front[j] == emits[j];
    }
  }

  // ---------------------------------------------------------------------
  // The `done` the client is sent
  // ---------------------------------------------------------------------

  /** The title a `done` carries: the one computed, just when the turn went well,
      is the conversation's first and no replay. */
  ghost function TitleSent(env: Envelope, emits: seq<Event>, ending: Ending): Option<string> {
    if ending.Returned? && ending.ok && OpensTurnOne(emits) && !ending.replayed then env.title else None
  }

  /** After a return with a `done` emitted, the last thing queued is that `done`,
      the first one, under the turn's ids and its own number: its own usage, the
      orchestrator's word on whether it is a replay, and the title above. */
  lemma DoneSent(env: Envelope, emits: seq<Event>, ending: Ending, i: nat)
    requires ending.Returned? && FirstDone(emits, i)
    ensures var log := Ran(env, emits, ending).log;
            |log| >= 2 && log[|log| - 1] == Sentinel
            && log[|log| - 2] == Queue(Frame(env.turnId, env.messageId, i + 1,
                                             Done(emits[i].usage, TitleSent(env, emits, ending), ending.replayed)))
  {
    AlwaysHoldsDone(env, emits);
    HoldsFirst(env, emits, i);
    KnowsItsTurn(env, emits);
  }

  ghost predicate HasDone(log: seq<Action>) {
    exists i :: 0 <= i < |log| && log[i].Queue? && log[i].frame.event.Done?
  }

  lemma HasDoneAppend(log: seq<Action>, a: Action)
    ensures HasDone(log + [a]) <==> HasDone(log) || (a.Queue? && a.frame.event.Done?)
  {
    if HasDone(log) {
      var i :| 0 <= i < |log| && log[i].Queue? && log[i].frame.event.Done?;
      assert (log + [a])[i] == log[i];
    }
    assert (log + [a])[|log|] == a;
  }

  lemma SavingSendsNoDone(s: State, env: Envelope)
    ensures HasDone(PersistedOnce(s, env).log) <==> HasDone(s.log)
  {
    HasDoneAppend(s.log, Persist(s.parts, PersistId(env, s.outcome)));
  }

  lemma EmittingSendsNoDone(s: State, env: Envelope, e: Event)
    ensures HasDone(Emitted(s, env, e).log) <==> HasDone(s.log)
    ensures (s.persisted ==> s.log != []) ==> (Emitted(s, env, e).persisted ==> Emitted(s, env, e).log != [])
  {
    var n := Numbered(env, s.eventSeq + 1, e);
    var s1 := s.(eventSeq := s.eventSeq + 1, parts := PersistEvent(s.parts, e));
    SavingSendsNoDone(s1, env);
    HasDoneAppend(s.log, Queue(n));
    HasDoneAppend(PersistedOnce(s1, env).log, Queue(n));
  }

  lemma {:induction false} EmitsSendNoDone(env: Envelope, emits: seq<Event>)
    ensures !HasDone(EmittedAll(env, emits).log)
    ensures EmittedAll(env, emits).persisted ==> EmittedAll(env, emits).log != []
  {
    if emits != [] {
      EmitsSendNoDone(env, emits[..|emits| - 1]);
      EmittingSendsNoDone(EmittedAll(env, emits[..|emits| - 1]), env, emits[|emits| - 1]);
    }
  }

  /** A `done` is queued just when the orchestrator returned and had emitted one,
      and then nothing queued before it is one. */
  lemma DoneSentIff(env: Envelope, emits: seq<Event>, ending: Ending)
    ensures var log := Ran(env, emits, ending).log;
            && (HasDone(log) <==> ending.Returned? && !NoDone(emits))
            && |log| >= 2 && !HasDone(log[..|log| - 2])
  {
    AlwaysHoldsDone(env, emits);
    EmitsSendNoDone(env, emits);
    var s := EmittedAll(env, emits);
    if ending.Raised? {
      EmittingSendsNoDone(s, env, INTERNAL_ERROR);
      NoDoneAtEnd(Emitted(s, env, INTERNAL_ERROR), env);
    } else if ending.Aborted? {
      NoDoneAtEnd(s, env);
    } else {
      FinalizedSends(s.(outcome := Some(ending)), env, ending);
      if NoDone(emits) {
        NothingHeld(env, emits);
      } else {
        FirstDoneExists(emits);
        var i: nat :| FirstDone(emits, i);
        HoldsFirst(env, emits, i);
      }
    }
  }

  lemma NoDoneAtEnd(s: State, env: Envelope)
    requires !HasDone(s.log) && (s.persisted ==> s.log != [])
    ensures var log := PersistedOnce(s, env).log + [Sentinel];
            !HasDone(log) && |log| >= 2 && !HasDone(log[..|log| - 2])
  {
    var log := PersistedOnce(s, env).log;
    SavingSendsNoDone(s, env);
    HasDoneAppend(log, Sentinel);
    assert forall i :: 0 <= i < |log| - 1 ==> (log + [Sentinel])[..|log| - 1][i] == log[i];
  }

  lemma FinalizedSends(s: State, env: Envelope, ending: Ending)
    requires ending.Returned? && HoldsDone(s) && !HasDone(s.log) && (s.persisted ==> s.log != [])
    ensures var log := PersistedOnce(Finalized(s, env, ending), env).log + [Sentinel];
            && (HasDone(log) <==> s.pendingDone != [])
            && |log| >= 2 && !HasDone(log[..|log| - 2])
  {
    if s.pendingDone == [] {
      NoDoneAtEnd(s, env);
    } else {
      var saved := PersistedOnce(s, env).log;
      var done := Queue(Titled(s.pendingDone[0], TitleOf(env, s.turnIndexes, ending), ending.replayed));
      SavingSendsNoDone(s, env);
      HasDoneAppend(saved, done);
      HasDoneAppend(saved + [done], Sentinel);
      assert (saved + [done] + [Sentinel])[..|saved|] == saved;
    }
  }

  lemma {:induction false} FirstDoneExists(emits: seq<Event>)
    requires !NoDone(emits)
    ensures exists i: nat :: FirstDone(emits, i)
  {
    var front := emits[..|emits| - 1];
    if NoDone(front) {
      assert FirstDone(emits, |front|);
    } else {
      FirstDoneExists(front);
      var i: nat :| FirstDone(front, i);
      assert front[..i] == emits[..i];
      assert FirstDone(emits, i);
    }
  }

  // ---------------------------------------------------------------------
  // The message persisted
  // ---------------------------------------------------------------------

  function Persists(log: seq<Action>): seq<Action> {
    if log == [] then []
    else Persists(log[..|log| - 1]) + if log[|log| - 1].Persist? then [log[|log| - 1]] else []
  }

  lemma PersistsSnoc(log: seq<Action>, a: Action)
    ensures Persists(log + [a]) == Persists(log) + if a.Persist? then [a] else []
  {
    assert (log + [a])[..|log|] == log;
  }

  lemma SavingPersists(s: State, env: Envelope)
    ensures Persists(PersistedOnce(s, env).log)
            == Persists(s.log) + if s.persisted then [] else [Persist(s.parts, PersistId(env, s.outcome))]
  {
    if s.persisted {
      assert Persists(s.log) + [] == Persists(s.log);
    } else {
      PersistsSnoc(s.log, Persist(s.parts, PersistId(env, s.outcome)));
    }
  }

  lemma QueuingPersists(s: State, f: Frame)
    ensures Persists(Queued(s, f).log) == Persists(s.log)
  {
    PersistsSnoc(s.log, Queue(f));
  }

  /** Emitting persists nothing but the first `error`. */
  lemma EmittingPersists(s: State, env: Envelope, e: Event)
    ensures var s' := Emitted(s, env, e);
            && s'.parts == PersistEvent(s.parts, e)
            && s'.persisted == (s.persisted || e.Error?)
            && Persists(s'.log)
               == Persists(s.log)
                  + if e.Error? && !s.persisted then [Persist(s.parts, PersistId(env, s.outcome))] else []
  {
    var f := Numbered(env, s.eventSeq + 1, e);
    var s1 := s.(eventSeq := s.eventSeq + 1, parts := PersistEvent(s.parts, e));
    assert Persists(s.log) + [] == Persists(s.log);
    match e {
      case Error(_) =>
        SavingPersists(s1, env);
        QueuingPersists(PersistedOnce(s1, env), f);
      case Accepted(turnIndex) => QueuingPersists(s1.(turnIndexes := s1.turnIndexes + [turnIndex]), f);
      case Done(_, _, _) =>
      case _ => QueuingPersists(s1, f);
    }
  }

  /** While no `error` was emitted nothing is persisted, and the transcript is the
      fold of everything emitted. */
  lemma {:induction false} NotYetPersisted(env: Envelope, emits: seq<Event>)
    requires NoError(emits)
    ensures var s := EmittedAll(env, emits);
            !s.persisted && Persists(s.log) == [] && s.parts == PersistAll(FramesOf(env, emits))
  {
    if emits != [] {
      var front, e := emits[..|emits| - 1], emits[|emits| - 1];
      NotYetPersisted(env, front);
      FramesSnoc(env, emits);
      EmittingPersists(EmittedAll(env, front), env, e);
    }
  }

  /** The first `error` persists what was emitted before it, under the turn's own
      id; nothing emitted later persists anything. */
  lemma {:induction false} PersistedAtError(env: Envelope, emits: seq<Event>, i: nat)
    requires FirstError(emits, i)
    ensures var s := EmittedAll(env, emits);
            s.persisted && Persists(s.log) == [Persist(PersistAll(FramesOf(env, emits[..i])), env.turnId)]
  {
    var front, e := emits[..|emits| - 1], emits[|emits| - 1];
    CountsAll(env, front);
    EmittingPersists(EmittedAll(env, front), env, e);
    if i == |front| {
      NotYetPersisted(env, front);
    } else {
      assert front[..i] == emits[..i];
      PersistedAtError(env, front, i);
    }
  }

  lemma FinalizingPersists(s: State, env: Envelope, ending: Ending)
    requires ending.Returned? && HoldsDone(s)
    ensures Persists(PersistedOnce(Finalized(s, env, ending), env).log)
            == Persists(s.log) + if s.persisted then [] else [Persist(s.parts, PersistId(env, s.outcome))]
  {
    SavingPersists(s, env);
    if s.pendingDone != [] {
      QueuingPersists(PersistedOnce(s, env),
                      Titled(s.pendingDone[0], TitleOf(env, s.turnIndexes, ending), ending.replayed));
    }
  }

  lemma SentinelPersists(log: seq<Action>)
    ensures Persists(log + [Sentinel]) == Persists(log)
  {
    PersistsSnoc(log, Sentinel);
  }

  /** The run's persists are those of the emissions and, where these have made
      none, one more: under the id the orchestrator returned, if it did. */
  lemma RunPersists(env: Envelope, emits: seq<Event>, ending: Ending)
    ensures var s := EmittedAll(env, emits);
            var id := if ending.Returned? && ending.turnRunId.Some? then ending.turnRunId.value else env.turnId;
            Persists(Ran(env, emits, ending).log)
            == Persists(s.log) + if s.persisted then [] else [Persist(s.parts, id)]
  {
    var s := EmittedAll(env, emits);
    CountsAll(env, emits);
    AlwaysHoldsDone(env, emits);
    if ending.Raised? {
      var ended := Emitted(s, env, INTERNAL_ERROR);
      EmittingPersists(s, env, INTERNAL_ERROR);
      SentinelPersists(ended.log);
    } else if ending.Aborted? {
      SavingPersists(s, env);
      SentinelPersists(PersistedOnce(s, env).log);
    } else {
      var ended := s.(outcome := Some(ending));
      FinalizingPersists(ended, env, ending);
      SentinelPersists(PersistedOnce(Finalized(ended, env, ending), env).log);
    }
  }

  /** Every run persists one message. With an `error` emitted it is the fold of
      what came before the first, under the turn's own id; without, the fold of
      everything, under the run id the orchestrator returned or else the turn's. */
  lemma OneMessagePersisted(env: Envelope, emits: seq<Event>, ending: Ending)
    ensures NoError(emits) ==>
              Persists(Ran(env, emits, ending).log)
              == [Persist(PersistAll(FramesOf(env, emits)),
                          if ending.Returned? && ending.turnRunId.Some? then ending.turnRunId.value else env.turnId)]
    ensures forall i: nat :: FirstError(emits, i) ==>
              Persists(Ran(env, emits, ending).log)
              == [Persist(PersistAll(FramesOf(env, emits[..i])), env.turnId)]
  {
    RunPersists(env, emits, ending);
    if NoError(emits) {
      NotYetPersisted(env, emits);
    }
    forall i: nat | FirstError(emits, i)
      ensures Persists(Ran(env, emits, ending).log)
              == [Persist(PersistAll(FramesOf(env, emits[..i])), env.turnId)]
    {
      PersistedAtError(env, emits, i);
    }
  }

  // ---------------------------------------------------------------------
  // A replayed turn
  // ---------------------------------------------------------------------

  lemma ReplayEmits(env: Envelope, turnIndex: int, parts: seq<Part>, usage: string)
    ensures var emits := ReplayEvents(turnIndex, parts, usage);
            && |emits| == |parts| + 2 && FirstDone(emits, |parts| + 1) && NoError(emits)
            && emits[|parts| + 1].usage == usage && Carries(FramesOf(env, emits), emits)
  {
    var emits := ReplayEvents(turnIndex, parts, usage);
    assert emits[0] == Accepted(turnIndex);
    assert forall i :: 1 <= i <= |parts| ==> emits[i] == NewPart(parts[i - 1]);
    assert emits[|parts| + 1] == Done(usage, None, true);
    assert forall i :: 0 <= i < |parts| + 1 ==> emits[..|parts| + 1][i] == emits[i];
  }

  /** A duplicate of a finished turn persists the parts it finished with, once,
      under the finished run's own id, and its `done` says that it is a replay
      and names no title, whatever turn it was. */
  lemma ReplayedTurn(env: Envelope, turnIndex: int, parts: seq<Part>, usage: string, original: string)
    ensures var log := Ran(env, ReplayEvents(turnIndex, parts, usage), Returned(true, Some(original), true)).log;
            && Persists(log) == [Persist(parts, original)]
            && |log| >= 2
            && log[|log| - 2] == Queue(Frame(env.turnId, env.messageId, |parts| + 2, Done(usage, None, true)))
  {
    var emits, ending := ReplayEvents(turnIndex, parts, usage), Returned(true, Some(original), true);
    ReplayEmits(env, turnIndex, parts, usage);
    ReplayIsIdentity(FramesOf(env, emits), turnIndex, parts, usage);
    OneMessagePersisted(env, emits, ending);
    DoneSent(env, emits, ending, |parts| + 1);
  }
}
