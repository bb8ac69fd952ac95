/**
  One turn of `stream_turn`: frames are folded and queued as they are emitted,
  the assistant message is persisted once, the `done` frame is held until the
  orchestrator has returned, and a sentinel ends the queue.
 */
module TurnStream {
  import opened Common
  import opened Frames

  /** How `execute_turn` ended; `Aborted` is by something that is no `Exception`,
      which only the final clause meets. */
  datatype Ending = Returned(ok: bool, turnRunId: Option<string>, replayed: bool) | Raised | Aborted

  datatype Action = Persist(parts: seq<Part>, turnId: string) | Queue(frame: Frame) | Sentinel

  /** The turn's ids, and what computing a title yields if it is attempted. */
  datatype Envelope = Envelope(turnId: string, messageId: string, title: Option<string>)

  const INTERNAL_ERROR := Error(Json("internal_error"))

  datatype State = State(
    eventSeq: nat,
    parts: seq<Part>,
    pendingDone: seq<Frame>,
    turnIndexes: seq<int>,
    persisted: bool,
    outcome: Option<Ending>,
    log: seq<Action>)

  const INITIAL := State(0, [], [], [], false, None, [])

  function PersistId(env: Envelope, outcome: Option<Ending>): string {
    if outcome.Some? && outcome.value.Returned? && outcome.value.turnRunId.Some?
    then outcome.value.turnRunId.value else env.turnId
  }

  function PersistedOnce(s: State, env: Envelope): State {
    if s.persisted then s
    else s.(persisted := true, log := s.log + [Persist(s.parts, PersistId(env, s.outcome))])
  }

  function Queued(s: State, f: Frame): State {
    s.(log := s.log + [Queue(f)])
  }

  function Sent(s0: State, env: Envelope, f: Frame): State {
    var s := s0.(parts := PersistEvent(s0.parts, f.event));
    match f.event
    case Accepted(turnIndex) => Queued(s.(turnIndexes := s.turnIndexes + [turnIndex]), f)
    case Done(_, _, _) => s.(pendingDone := s.pendingDone + [f])
    case Error(_) => Queued(PersistedOnce(s, env), f)
    case _ => Queued(s, f)
  }

  function Numbered(env: Envelope, n: nat, e: Event): Frame {
    Frame(env.turnId, env.messageId, n, e)
  }

  function Emitted(s: State, env: Envelope, e: Event): State {
    Sent(s.(eventSeq := s.eventSeq + 1), env, Numbered(env, s.eventSeq + 1, e))
  }

  function EmittedAll(env: Envelope, emits: seq<Event>): State {
    if emits == [] then INITIAL
    else Emitted(EmittedAll(env, emits[..|emits| - 1]), env, emits[|emits| - 1])
  }

  /** `_inject_done_title` */
  function Titled(f: Frame, title: Option<string>, replayed: bool): Frame
    requires f.event.Done?
  {
    f.(event := f.event.(title := title, replayed := replayed))
  }

  function TitleOf(env: Envelope, turnIndexes: seq<int>, outcome: Ending): Option<string>
    requires outcome.Returned?
  {
    if outcome.ok && turnIndexes != [] && turnIndexes[0] == 1 && !outcome.replayed then env.title else None
  }

  ghost predicate HoldsDone(s: State) {
    forall i :: 0 <= i < |s.pendingDone| ==> s.pendingDone[i].event.Done?
  }

  function Finalized(s: State, env: Envelope, outcome: Ending): State
    requires outcome.Returned? && HoldsDone(s)
  {
    if s.pendingDone == [] then s
    else
      Queued(PersistedOnce(s, env),
             Titled(s.pendingDone[0], TitleOf(env, s.turnIndexes, outcome), outcome.replayed))
  }

  lemma {:induction false} AlwaysHoldsDone(env: Envelope, emits: seq<Event>)
    ensures HoldsDone(EmittedAll(env, emits))
  {
    if emits != [] {
      AlwaysHoldsDone(env, emits[..|emits| - 1]);
    }
  }

  /** The whole worker-thread run: emits, then the ending, then the safety net. */
  ghost function Ran(env: Envelope, emits: seq<Event>, ending: Ending): State {
    AlwaysHoldsDone(env, emits);
    var s := EmittedAll(env, emits);
    var ended :=
      if ending.Aborted? then s
      else if ending.Raised? then Emitted(s, env, INTERNAL_ERROR)
      else Finalized(s.(outcome := Some(ending)), env, ending);
    var saved := PersistedOnce(ended, env);
    saved.(log := saved.log + [Sentinel])
  }

  class LiveTurn {
    const env: Envelope
    var eventSeq: nat
    var assistant: seq<Part>
    var pendingDone: seq<Frame>
    var turnIndexes: seq<int>
    var persisted: bool
    var outcome: Option<Ending>
    ghost var log: seq<Action>

    ghost function Now(): State
      reads this
    {
      State(eventSeq, assistant, pendingDone, turnIndexes, persisted, outcome, log)
    }

    constructor (env: Envelope)
      ensures this.env == env && Now() == INITIAL
    {
      this.env := env;
      eventSeq, assistant, pendingDone, turnIndexes := 0, [], [], [];
      persisted, outcome, log := false, None, [];
    }

    method PersistOnce()
      modifies this
      ensures Now() == PersistedOnce(old(Now()), env)
      ensures old(persisted) ==> log == old(log)
      ensures !old(persisted) ==>
                var returned := outcome.Some? && outcome.value.Returned? && outcome.value.turnRunId.Some?;
                log == old(log) + [Persist(assistant, if returned then outcome.value.turnRunId.value else env.turnId)]
    {
      if persisted {
        return;
      }
      persisted := true;
      var persistedTurnId := env.turnId;
      if outcome.Some? && outcome.value.Returned? && outcome.value.turnRunId.Some? {
        persistedTurnId := outcome.value.turnRunId.value;
      }
      log := log + [Persist(assistant, persistedTurnId)];
    }

    method Record(f: Frame)
      modifies this`assistant
      ensures assistant == PersistEvent(old(assistant), f.event)
    {
      match f.event {
        case Tool(payload) =>
          var i := 0;
          while i < |assistant| && !IsTool(assistant[i], ToolSeqOf(payload))
            invariant 0 <= i <= |assistant| && assistant == old(assistant)
            invariant forall j :: 0 <= j < i ==> !IsTool(assistant[j], ToolSeqOf(payload))
          {
            i := i + 1;
          }
          assert i == FindTool(assistant, ToolSeqOf(payload));
          var part := Part("tool_event", payload);
          if i < |assistant| {
            assistant := assistant[i := part];
          } else {
            assistant := assistant + [part];
          }
        case NewPart(part) =>
          assistant := assistant + [part];
        case Token(text) =>
          if assistant != [] && assistant[|assistant| - 1].kind == "text" {
            var tail := assistant[|assistant| - 1];
            assistant := assistant[|assistant| - 1 := Part("text", Markdown(MarkdownOf(tail.payload) + text))];
          } else {
            assistant := assistant + [Part("text", Markdown(text))];
          }
        case _ =>
      }
    }

    method Send(f: Frame)
      modifies this
      ensures Now() == Sent(old(Now()), env, f)
    {
      Record(f);
      if f.event.Accepted? {
        turnIndexes := turnIndexes + [f.event.turnIndex];
      } else if f.event.Done? {
        pendingDone := pendingDone + [f];
        return;
      } else if f.event.Error? {
        PersistOnce();
        log := log + [Queue(f)];
        return;
      }
      log := log + [Queue(f)];
    }

    method Emit(e: Event)
      modifies this
      ensures Now() == Emitted(old(Now()), env, e)
    {
      eventSeq := eventSeq + 1;
      Send(Numbered(env, eventSeq, e));
    }

    method FinalizeTurn(result: Ending)
      requires result.Returned? && HoldsDone(Now())
      modifies this
      ensures Now() == Finalized(old(Now()), env, result)
      ensures old(pendingDone) == [] ==> Now() == old(Now())
      ensures old(pendingDone) != [] ==>
                var held := old(pendingDone)[0];
                var titled := result.ok && old(turnIndexes) != [] && old(turnIndexes)[0] == 1 && !result.replayed;
                && persisted && log != []
                && log[|log| - 1] == Queue(held.(event := Done(held.event.usage, if titled then env.title else None,
                                                               result.replayed)))
    {
      if pendingDone == [] {
        return;
      }
      var frame := pendingDone[0];
      var title := None;
      if result.ok && turnIndexes != [] && turnIndexes[0] == 1 && !result.replayed {
        title := env.title;
      }
      PersistOnce();
      log := log + [Queue(Titled(frame, title, result.replayed))];
    }

    /** The turn: what the orchestrator emits and how it ends are its inputs. */
    method RunTurnSync(emits: seq<Event>, ending: Ending)
      requires Now() == INITIAL
      modifies this
      ensures Now() == Ran(env, emits, ending)
    {
      for i := 0 to |emits|
        invariant Now() == EmittedAll(env, emits[..i])
      {
        assert emits[..i + 1][..i] == emits[..i];
        Emit(emits[i]);
      }
      assert emits[..|emits|] == emits;
      AlwaysHoldsDone(env, emits);
      if ending.Raised? {
        Emit(INTERNAL_ERROR);
      } else if ending.Returned? {
        outcome := Some(ending);
        FinalizeTurn(ending);
      }
      PersistOnce();
      log := log + [Sentinel];
    }
  }

  // ---------------------------------------------------------------------
  // What reaches the client and the database
  // ---------------------------------------------------------------------

  /** The orchestrator's contract: a `done` or an `error` is the last thing it emits. */
  ghost predicate Disciplined(emits: seq<Event>) {
    forall i :: 0 <= i < |emits| && IsTerminal(emits[i]) ==> i == |emits| - 1
  }

  predicate EndsTerminal(emits: seq<Event>) {
    emits != [] && IsTerminal(emits[|emits| - 1])
  }

  function FramesOf(env: Envelope, emits: seq<Event>): seq<Frame> {
    seq(|emits|, i requires 0 <= i < |emits| => Numbered(env, i + 1, emits[i]))
  }

  /** The emitted frames before the terminal one. */
  function Body(env: Envelope, emits: seq<Event>): seq<Frame> {
    FramesOf(env, if EndsTerminal(emits) then emits[..|emits| - 1] else emits)
  }

  function FirstTurnIndex(emits: seq<Event>): seq<int> {
    if emits == [] then []
    else
      FirstTurnIndex(emits[..|emits| - 1])
      + if emits[|emits| - 1].Accepted? then [emits[|emits| - 1].turnIndex] else []
  }

  /** The terminal frames queued, after everything else. */
  function Closing(env: Envelope, emits: seq<Event>, ending: Ending): seq<Frame> {
    var n := |emits|;
    (if !EndsTerminal(emits) then []
     else if emits[n - 1].Error? then [Numbered(env, n, emits[n - 1])]
     else if !ending.Returned? then []
     else [Titled(Numbered(env, n, emits[n - 1]), TitleOf(env, FirstTurnIndex(emits), ending), ending.replayed)])
    + (if ending.Raised? then [Numbered(env, n + 1, INTERNAL_ERROR)] else [])
  }

  function Queues(frames: seq<Frame>): seq<Action> {
    seq(|frames|, i requires 0 <= i < |frames| => Queue(frames[i]))
  }

  function SavedId(env: Envelope, emits: seq<Event>, ending: Ending): string {
    if EndsTerminal(emits) && emits[|emits| - 1].Error? then env.turnId else PersistId(env, Some(ending))
  }

  /** Where a turn stands after emitting no terminal frame. */
  function Running(env: Envelope, emits: seq<Event>): State {
    var frames := FramesOf(env, emits);
    State(|emits|, PersistAll(frames), [], FirstTurnIndex(emits), false, None, Queues(frames))
  }

  lemma FramesSnoc(env: Envelope, emits: seq<Event>)
    requires emits != []
    ensures var front, last := emits[..|emits| - 1], Numbered(env, |emits|, emits[|emits| - 1]);
            && FramesOf(env, emits) == FramesOf(env, front) + [last]
            && Queues(FramesOf(env, emits)) == Queues(FramesOf(env, front)) + [Queue(last)]
            && PersistAll(FramesOf(env, emits)) == PersistEvent(PersistAll(FramesOf(env, front)), last.event)
  {
    var front, last := emits[..|emits| - 1], Numbered(env, |emits|, emits[|emits| - 1]);
    assert FramesOf(env, emits) == FramesOf(env, front) + [last];
    assert FramesOf(env, emits)[..|front|] == FramesOf(env, front);
  }

  lemma RunningStep(env: Envelope, emits: seq<Event>)
    requires emits != [] && !IsTerminal(emits[|emits| - 1])
    ensures Emitted(Running(env, emits[..|emits| - 1]), env, emits[|emits| - 1]) == Running(env, emits)
  {
    FramesSnoc(env, emits);
    var before := FirstTurnIndex(emits[..|emits| - 1]);
    assert before + [] == before;
  }

  lemma {:induction false} BodyState(env: Envelope, emits: seq<Event>)
    requires forall i :: 0 <= i < |emits| ==> !IsTerminal(emits[i])
    ensures EmittedAll(env, emits) == Running(env, emits)
  {
    if emits != [] {
      BodyState(env, emits[..|emits| - 1]);
      RunningStep(env, emits);
    }
  }

  lemma QueuesFew(a: Frame, b: Frame)
    ensures Queues([]) == [] && Queues([a]) == [Queue(a)] && Queues([a, b]) == [Queue(a), Queue(b)]
  {
  }

  /** Everything the turn does, in order: each frame before the terminal one is
      queued as emitted; then the message is persisted, once, as the fold of
      exactly those frames; only then the terminal frames are queued, a held
      `done` only after a normal return; the sentinel comes last. */
  lemma TurnLog(env: Envelope, emits: seq<Event>, ending: Ending)
    requires Disciplined(emits)
    ensures Ran(env, emits, ending).log
            == Queues(Body(env, emits))
               + ([Persist(PersistAll(Body(env, emits)), SavedId(env, emits, ending))]
                  + Queues(Closing(env, emits, ending)) + [Sentinel])
  {
    if EndsTerminal(emits) {
      TerminatedLog(env, emits, ending);
    } else {
      UnterminatedLog(env, emits, ending);
    }
  }

  lemma UnterminatedLog(env: Envelope, emits: seq<Event>, ending: Ending)
    requires Disciplined(emits) && !EndsTerminal(emits)
    ensures Ran(env, emits, ending).log
            == Queues(FramesOf(env, emits))
               + ([Persist(PersistAll(FramesOf(env, emits)), PersistId(env, Some(ending)))]
                  + Queues(Closing(env, emits, ending)) + [Sentinel])
  {
    BodyState(env, emits);
    var raised := Numbered(env, |emits| + 1, INTERNAL_ERROR);
    var body, frames := Queues(FramesOf(env, emits)), FramesOf(env, emits);
    var saved := [Persist(PersistAll(frames), PersistId(env, Some(ending)))];
    QueuesFew(raised, raised);
    if ending.Raised? {
      assert Closing(env, emits, ending) == [raised];
      assert Ran(env, emits, ending).log == body + saved + [Queue(raised)] + [Sentinel];
    } else {
      assert Closing(env, emits, ending) == [];
      assert Ran(env, emits, ending).log == body + saved + [Sentinel];
    }
  }

  lemma TerminatedLog(env: Envelope, emits: seq<Event>, ending: Ending)
    requires Disciplined(emits) && EndsTerminal(emits)
    ensures Ran(env, emits, ending).log
            == Queues(Body(env, emits))
               + ([Persist(PersistAll(Body(env, emits)), SavedId(env, emits, ending))]
                  + Queues(Closing(env, emits, ending)) + [Sentinel])
  {
    if emits[|emits| - 1].Error? {
      LogAfterError(env, emits, ending);
    } else if ending.Raised? {
      LogAfterDoneRaised(env, emits);
    } else if ending.Aborted? {
      LogAfterDoneAborted(env, emits);
    } else {
      LogAfterDone(env, emits, ending);
    }
  }

  lemma TerminalState(env: Envelope, emits: seq<Event>)
    requires Disciplined(emits) && EndsTerminal(emits)
    ensures var n := |emits| - 1;
            EmittedAll(env, emits)
            == Emitted(State(n, PersistAll(Body(env, emits)), [], FirstTurnIndex(emits), false, None,
                             Queues(Body(env, emits))),
                       env, emits[n])
  {
    var front := emits[..|emits| - 1];
    BodyState(env, front);
    FirstTurnIndexTerminal(emits);
    assert Body(env, emits) == FramesOf(env, front);
  }

  lemma FirstTurnIndexTerminal(emits: seq<Event>)
    requires EndsTerminal(emits)
    ensures FirstTurnIndex(emits) == FirstTurnIndex(emits[..|emits| - 1])
  {
    assert FirstTurnIndex(emits[..|emits| - 1]) + [] == FirstTurnIndex(emits[..|emits| - 1]);
  }

  /** After an `error` frame: persisted under the turn's own id, then queued. */
  lemma ErrorState(env: Envelope, emits: seq<Event>)
    requires Disciplined(emits) && EndsTerminal(emits) && emits[|emits| - 1].Error?
    ensures var n := |emits| - 1;
            EmittedAll(env, emits)
            == State(n + 1, PersistAll(Body(env, emits)), [], FirstTurnIndex(emits), true, None,
                     Queues(Body(env, emits)) + [Persist(PersistAll(Body(env, emits)), env.turnId)]
                       + [Queue(Numbered(env, n + 1, emits[n]))])
  {
    TerminalState(env, emits);
  }

  lemma LogAfterError(env: Envelope, emits: seq<Event>, ending: Ending)
    requires Disciplined(emits) && EndsTerminal(emits) && emits[|emits| - 1].Error?
    ensures Ran(env, emits, ending).log
            == Queues(Body(env, emits))
               + ([Persist(PersistAll(Body(env, emits)), env.turnId)]
                  + Queues(Closing(env, emits, ending)) + [Sentinel])
  {
    var n := |emits| - 1;
    var last, raised := Numbered(env, n + 1, emits[n]), Numbered(env, n + 2, INTERNAL_ERROR);
    var body, saved := Queues(Body(env, emits)), [Persist(PersistAll(Body(env, emits)), env.turnId)];
    ErrorState(env, emits);
    QueuesFew(last, raised);
    if ending.Raised? {
      assert Closing(env, emits, ending) == [last, raised];
      assert Ran(env, emits, ending).log == body + saved + [Queue(last)] + [Queue(raised)] + [Sentinel];
    } else {
      assert Closing(env, emits, ending) == [last];
      assert Ran(env, emits, ending).log == body + saved + [Queue(last)] + [Sentinel];
    }
  }

  lemma LogAfterDoneAborted(env: Envelope, emits: seq<Event>)
    requires Disciplined(emits) && EndsTerminal(emits) && emits[|emits| - 1].Done?
    ensures Ran(env, emits, Aborted).log
            == Queues(Body(env, emits))
               + ([Persist(PersistAll(Body(env, emits)), env.turnId)]
                  + Queues(Closing(env, emits, Aborted)) + [Sentinel])
  {
    TerminalState(env, emits);
    assert Closing(env, emits, Aborted) == [] && Queues([]) == [];
  }

  lemma LogAfterDoneRaised(env: Envelope, emits: seq<Event>)
    requires Disciplined(emits) && EndsTerminal(emits) && emits[|emits| - 1].Done?
    ensures Ran(env, emits, Raised).log
            == Queues(Body(env, emits))
               + ([Persist(PersistAll(Body(env, emits)), env.turnId)]
                  + Queues(Closing(env, emits, Raised)) + [Sentinel])
  {
    var raised := Numbered(env, |emits| + 1, INTERNAL_ERROR);
    TerminalState(env, emits);
    QueuesFew(raised, raised);
    assert Closing(env, emits, Raised) == [raised];
  }

  lemma LogAfterDone(env: Envelope, emits: seq<Event>, ending: Ending)
    requires Disciplined(emits) && EndsTerminal(emits) && emits[|emits| - 1].Done? && ending.Returned?
    ensures Ran(env, emits, ending).log
            == Queues(Body(env, emits))
               + ([Persist(PersistAll(Body(env, emits)), PersistId(env, Some(ending)))]
                  + Queues(Closing(env, emits, ending)) + [Sentinel])
  {
    var n := |emits| - 1;
    AlwaysHoldsDone(env, emits);
    TerminalState(env, emits);
    var last := Numbered(env, n + 1, emits[n]);
    assert EmittedAll(env, emits).pendingDone == [last];
    var titled := Titled(last, TitleOf(env, FirstTurnIndex(emits), ending), ending.replayed);
    QueuesFew(titled, titled);
    assert Closing(env, emits, ending) == [titled];
  }

  function QueuedFrames(log: seq<Action>): seq<Frame> {
    if log == [] then []
    else QueuedFrames(log[..|log| - 1]) + if log[|log| - 1].Queue? then [log[|log| - 1].frame] else []
  }

  lemma {:induction false} QueuedAppend(a: seq<Action>, b: seq<Action>)
    ensures QueuedFrames(a + b) == QueuedFrames(a) + QueuedFrames(b)
  {
    if b == [] {
      assert a + b == a;
    } else {
      QueuedAppend(a, b[..|b| - 1]);
      assert (a + b)[..|a + b| - 1] == a + b[..|b| - 1];
      assert (a + b)[|a + b| - 1] == b[|b| - 1];
    }
  }

  lemma {:induction false} QueuedQueues(frames: seq<Frame>)
    ensures QueuedFrames(Queues(frames)) == frames
  {
    if frames != [] {
      QueuedQueues(frames[..|frames| - 1]);
      assert Queues(frames)[..|frames| - 1] == Queues(frames[..|frames| - 1]);
    }
  }

  lemma QueuedSaved(parts: seq<Part>, id: string, closing: seq<Frame>)
    ensures QueuedFrames([Persist(parts, id)] + Queues(closing) + [Sentinel]) == closing
  {
    var saved := [Persist(parts, id)];
    QueuedQueues(closing);
    QueuedAppend(saved + Queues(closing), [Sentinel]);
    QueuedAppend(saved, Queues(closing));
    assert QueuedFrames(saved) == [] && QueuedFrames([Sentinel]) == [];
  }

  lemma TurnQueue(env: Envelope, emits: seq<Event>, ending: Ending)
    requires Disciplined(emits)
    ensures QueuedFrames(Ran(env, emits, ending).log) == Body(env, emits) + Closing(env, emits, ending)
  {
    var body, closing := Body(env, emits), Closing(env, emits, ending);
    var id := SavedId(env, emits, ending);
    TurnLog(env, emits, ending);
    QueuedQueues(body);
    QueuedSaved(PersistAll(body), id, closing);
    QueuedAppend(Queues(body), [Persist(PersistAll(body), id)] + Queues(closing) + [Sentinel]);
  }

  ghost predicate Increasing(frames: seq<Frame>, from: int, upTo: int) {
    && (forall i, j :: 0 <= i < j < |frames| ==> frames[i].eventSeq < frames[j].eventSeq)
    && (forall i :: 0 <= i < |frames| ==> from <= frames[i].eventSeq <= upTo)
  }

  lemma BodyNumbers(env: Envelope, emits: seq<Event>)
    ensures Increasing(Body(env, emits), 1, |Body(env, emits)|)
  {
  }

  lemma ClosingNumbers(env: Envelope, emits: seq<Event>, ending: Ending)
    ensures Increasing(Closing(env, emits, ending), |Body(env, emits)| + 1, |emits| + 1)
  {
  }

  lemma IncreasingAppend(a: seq<Frame>, b: seq<Frame>, m: int, n: int)
    requires 0 <= m && Increasing(a, 1, m) && Increasing(b, m + 1, n)
    ensures forall i, j :: 0 <= i < j < |a + b| ==> 1 <= (a + b)[i].eventSeq < (a + b)[j].eventSeq
  {
    var q := a + b;
    forall i, j | 0 <= i < j < |q| ensures 1 <= q[i].eventSeq < q[j].eventSeq {
      assert q[i] == if i < |a| then a[i] else b[i - |a|];
      assert q[j] == if j < |a| then a[j] else b[j - |a|];
    }
  }

  /** Queued frame numbers strictly increase from 1, so a client never mistakes
      one for a duplicate. */
  lemma QueuedNumbersIncrease(env: Envelope, emits: seq<Event>, ending: Ending)
    requires Disciplined(emits)
    ensures var q := QueuedFrames(Ran(env, emits, ending).log);
            forall i, j :: 0 <= i < j < |q| ==> 1 <= q[i].eventSeq < q[j].eventSeq
  {
    TurnQueue(env, emits, ending);
    BodyNumbers(env, emits);
    ClosingNumbers(env, emits, ending);
    IncreasingAppend(Body(env, emits), Closing(env, emits, ending), |Body(env, emits)|, |emits| + 1);
  }

  function Terminals(frames: seq<Frame>): nat {
    if frames == [] then 0
    else Terminals(frames[..|frames| - 1]) + if IsTerminal(frames[|frames| - 1].event) then 1 else 0
  }

  lemma {:induction false} TerminalsAppend(body: seq<Frame>, closing: seq<Frame>)
    requires forall i :: 0 <= i < |body| ==> !IsTerminal(body[i].event)
    requires forall i :: 0 <= i < |closing| ==> IsTerminal(closing[i].event)
    ensures Terminals(body + closing) == |closing|
    decreases |body| + |closing|
  {
    if closing != [] {
      assert (body + closing)[..|body + closing| - 1] == body + closing[..|closing| - 1];
      TerminalsAppend(body, closing[..|closing| - 1]);
    } else if body != [] {
      assert body + closing == body && body[..|body| - 1] + [] == body[..|body| - 1];
      TerminalsAppend(body[..|body| - 1], []);
    }
  }

  lemma ClosingIsTerminal(env: Envelope, emits: seq<Event>, ending: Ending)
    requires Disciplined(emits)
    ensures forall i :: 0 <= i < |Closing(env, emits, ending)| ==> IsTerminal(Closing(env, emits, ending)[i].event)
    ensures forall i :: 0 <= i < |Body(env, emits)| ==> !IsTerminal(Body(env, emits)[i].event)
  {
  }

  /** How many terminal frames a run sends: the error it ends in or the error it
      had emitted, or both; or its `done`, once it has returned. */
  function TerminalCount(emits: seq<Event>, ending: Ending): nat {
    (if EndsTerminal(emits) && (emits[|emits| - 1].Error? || ending.Returned?) then 1 else 0)
    + (if ending.Raised? then 1 else 0)
  }

  /** What the client is sent holds that many terminal frames, last: exactly one
      unless the orchestrator returned without one or was aborted without having
      emitted an error (then none), or raised after it had emitted one (then two). */
  lemma OneTerminalIff(env: Envelope, emits: seq<Event>, ending: Ending)
    requires Disciplined(emits)
    ensures var q := QueuedFrames(Ran(env, emits, ending).log);
            var erred := EndsTerminal(emits) && emits[|emits| - 1].Error?;
            && Terminals(q) == TerminalCount(emits, ending)
            && (Terminals(q) == 1 <==> if ending.Raised? then !erred
                                       else if ending.Aborted? then erred else EndsTerminal(emits))
            && (Terminals(q) == 2 <==> ending.Raised? && erred) && Terminals(q) <= 2
            && (forall i :: 0 <= i < |q| - Terminals(q) ==> !IsTerminal(q[i].event))
  {
    TurnQueue(env, emits, ending);
    ClosingIsTerminal(env, emits, ending);
    TerminalsAppend(Body(env, emits), Closing(env, emits, ending));
  }

  /** The error parts a turn's closing frames add to what the client shows. */
  function ErrorParts(frames: seq<Frame>): seq<Part> {
    if frames == [] then []
    else
      ErrorParts(frames[..|frames| - 1])
      + if frames[|frames| - 1].event.Error? then [Part("error", frames[|frames| - 1].event.payload)] else []
  }

  lemma {:induction false} ErrorPartsStep(shown: seq<Part>, closing: seq<Frame>)
    requires closing != [] && IsTerminal(closing[|closing| - 1].event)
    ensures FoldEvent(shown + ErrorParts(closing[..|closing| - 1]), closing[|closing| - 1].event)
            == shown + ErrorParts(closing)
  {
    var before := ErrorParts(closing[..|closing| - 1]);
    assert before + [] == before;
  }

  lemma {:induction false} FoldClosing(body: seq<Frame>, closing: seq<Frame>)
    requires forall i :: 0 <= i < |closing| ==> IsTerminal(closing[i].event)
    ensures FoldAll(body + closing) == FoldAll(body) + ErrorParts(closing)
  {
    if closing == [] {
      assert body + closing == body;
    } else {
      FoldClosing(body, closing[..|closing| - 1]);
      assert (body + closing)[..|body + closing| - 1] == body + closing[..|closing| - 1];
      ErrorPartsStep(FoldAll(body), closing);
    }
  }

  /** What the client shows at the end of a turn is the persisted message,
      followed by nothing but the error parts of that turn's terminal frames. */
  lemma ClientShowsWhatIsPersisted(env: Envelope, emits: seq<Event>, ending: Ending)
    requires Disciplined(emits)
    ensures FoldAll(QueuedFrames(Ran(env, emits, ending).log))
            == PersistAll(Body(env, emits)) + ErrorParts(Closing(env, emits, ending))
  {
    TurnQueue(env, emits, ending);
    ClosingIsTerminal(env, emits, ending);
    FoldClosing(Body(env, emits), Closing(env, emits, ending));
    ShownIsPersistedPlusError(Body(env, emits));
  }
}
