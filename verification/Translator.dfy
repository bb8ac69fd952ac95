/**
  The compiled form of a turn: frames become the chat SDK's chunks. The state
  is the open text run, the number of runs opened, whether a terminal frame was
  seen, and the turn id the first frame named.
 */
module Translator {
  import opened Common
  import opened Frames

  // The id a data chunk reconciles under; the decimal printer of the real ids
  // (`tool-7`, `text-3`) is injective, so the number stands for the string.
  datatype DataId = PhaseId(phase: string) | ToolId(toolSeq: Option<int>)

  datatype Chunk =
    | Start(messageId: string, turn: string, turnIndex: int)
    | TextStart(run: nat)
    | TextDelta(run: nat, delta: string)
    | TextEnd(run: nat)
    | Data(kind: string, id: Option<DataId>, payload: Payload, transient: bool)
    | Finish(turnId: Option<string>, ok: bool, usage: string, title: Option<string>)
    | ErrorText

  datatype State = State(open: Option<nat>, runs: nat, finished: bool, turnId: Option<string>)

  const INITIAL := State(None, 0, false, None)

  function CloseText(s: State): seq<Chunk> {
    if s.open.Some? then [TextEnd(s.open.value)] else []
  }

  /** What a frame other than a token contributes, once any open run is closed. */
  function OwnChunks(f: Frame, turnId: Option<string>): seq<Chunk> {
    match f.event
    case Accepted(turnIndex) => [Start(f.messageId, f.turnId, turnIndex)]
    case Phase(phase, payload) => [Data("phase", Some(PhaseId(phase)), payload, true)]
    case Tool(payload) => [Data("tool_event", Some(ToolId(ToolSeqOf(payload))), payload, false)]
    case NewPart(part) => [Data(part.kind, None, part.payload, false)]
    case Done(usage, title, _) => [Finish(turnId, true, usage, title)]
    case Error(payload) => [Data("error", None, payload, false), Finish(turnId, false, "", None)]
    case _ => []
  }

  /** One frame: the new state and the chunks it turns into. */
  function Translated(s0: State, f: Frame): (State, seq<Chunk>) {
    var s := if s0.turnId == None then s0.(turnId := Some(f.turnId)) else s0;
    if f.event.Token? then
      if s.open == None then
        var run := s.runs + 1;
        (s.(open := Some(run), runs := run), [TextStart(run), TextDelta(run, f.event.text)])
      else
        (s, [TextDelta(s.open.value, f.event.text)])
    else
      var own := OwnChunks(f, s.turnId);
      (s.(open := None, finished := s.finished || IsTerminal(f.event)), CloseText(s) + own)
  }

  function Ended(s: State): (State, seq<Chunk>) {
    if s.finished then (s, [])
    else (s.(finished := true, open := None), CloseText(s) + [ErrorText])
  }

  /** The whole turn translated frame by frame, before `end()`. */
  function Emitted(frames: seq<Frame>): (State, seq<Chunk>) {
    if frames == [] then (INITIAL, [])
    else
      var (s, chunks) := Emitted(frames[..|frames| - 1]);
      var (s', more) := Translated(s, frames[|frames| - 1]);
      (s', chunks + more)
  }

  /** The chunk stream of a turn: every frame, then `end()`. */
  function ChunkStream(frames: seq<Frame>): seq<Chunk> {
    Emitted(frames).1 + Ended(Emitted(frames).0).1
  }

  /** The translator object: `translate` and `end` over mutable closure variables. */
  class FrameTranslator {
    var openText: Option<nat>
    var textRuns: nat
    var finished: bool
    var turnId: Option<string>

    function Current(): State
      reads this
    {
      State(openText, textRuns, finished, turnId)
    }

    constructor ()
      ensures Current() == INITIAL
    {
      openText, textRuns, finished, turnId := None, 0, false, None;
    }

    method Close() returns (out: seq<Chunk>)
      modifies this`openText
      ensures Current() == old(Current()).(open := None)
      ensures out == old(CloseText(Current()))
    {
      if openText == None {
        return [];
      }
      out := [TextEnd(openText.value)];
      openText := None;
    }

    method Translate(frame: Frame) returns (out: seq<Chunk>)
      modifies this
      ensures (Current(), out) == Translated(old(Current()), frame)
    {
      if turnId == None {
        turnId := Some(frame.turnId);
      }
      if frame.event.Token? {
        out := [];
        if openText == None {
          textRuns := textRuns + 1;
          openText := Some(textRuns);
          out := out + [TextStart(textRuns)];
        }
        out := out + [TextDelta(openText.value, frame.event.text)];
        assert |out| == 1 ==> out == [TextDelta(openText.value, frame.event.text)];
        assert |out| == 2 ==> out == [TextStart(textRuns), TextDelta(textRuns, frame.event.text)];
        return;
      }
      out := Close();
      ghost var close := out;
      match frame.event {
        case Accepted(turnIndex) =>
          out := out + [Start(frame.messageId, frame.turnId, turnIndex)];
        case Phase(phase, payload) =>
          out := out + [Data("phase", Some(PhaseId(phase)), payload, true)];
        case Tool(payload) =>
          out := out + [Data("tool_event", Some(ToolId(ToolSeqOf(payload))), payload, false)];
        case NewPart(part) =>
          out := out + [Data(part.kind, None, part.payload, false)];
        case Done(usage, title, _) =>
          finished := true;
          out := out + [Finish(turnId, true, usage, title)];
        case Error(payload) =>
          finished := true;
          out := out + [Data("error", None, payload, false)];
          out := out + [Finish(turnId, false, "", None)];
        case _ =>
      }
      assert out == close + OwnChunks(frame, turnId);
    }

    method End() returns (out: seq<Chunk>)
      modifies this
      ensures (Current(), out) == Ended(old(Current()))
    {
      if finished {
        return [];
      }
      finished := true;
      out := Close();
      out := out + [ErrorText];
    }
  }

  /** The route's loop: every frame of the turn, then `end()`. */
  method TranslateTurn(frames: seq<Frame>) returns (out: seq<Chunk>)
    ensures out == ChunkStream(frames)
  {
    var translator := new FrameTranslator();
    out := [];
    for i := 0 to |frames|
      invariant (translator.Current(), out) == Emitted(frames[..i])
    {
      var chunks := translator.Translate(frames[i]);
      out := out + chunks;
      assert frames[..i + 1][..i] == frames[..i];
    }
    assert frames[..|frames|] == frames;
    var rest := translator.End();
    out := out + rest;
  }

  // ---------------------------------------------------------------------
  // Bracketing: a checker that reads chunks alone, knowing nothing of frames
  // ---------------------------------------------------------------------

  datatype Scan = Scan(open: Option<nat>, highest: nat, closed: bool, ok: bool)

  const FRESH := Scan(None, 0, false, true)

  /** Text chunks only inside their own run, run ids never reused, nothing else
      inside an open run, nothing at all after a finish or an error. */
  function Check(s: Scan, c: Chunk): Scan {
    var live := s.ok && !s.closed;
    match c
    case TextStart(run) =>
      Scan(Some(run), run, s.closed, live && s.open == None && s.highest < run)
    case TextDelta(run, _) => s.(ok := live && s.open == Some(run))
    case TextEnd(run) => s.(open := None, ok := live && s.open == Some(run))
    case Finish(_, _, _, _) => s.(closed := true, ok := live && s.open == None)
    case ErrorText => s.(closed := true, ok := live && s.open == None)
    case _ => s.(ok := live && s.open == None)
  }

  function CheckAll(s: Scan, chunks: seq<Chunk>): Scan
    decreases |chunks|
  {
    if chunks == [] then s else CheckAll(Check(s, chunks[0]), chunks[1..])
  }

  predicate WellBracketed(chunks: seq<Chunk>) {
    var s := CheckAll(FRESH, chunks);
    s.ok && s.closed && s.open == None
  }

  /** Nothing but unknown frames follows a terminal frame. */
  ghost predicate TerminalLast(frames: seq<Frame>) {
    forall i, j :: 0 <= i < j < |frames| && IsTerminal(frames[i].event) ==> frames[j].event.Unknown?
  }

  lemma {:induction false} CheckAppend(s: Scan, a: seq<Chunk>, b: seq<Chunk>)
    ensures CheckAll(s, a + b) == CheckAll(CheckAll(s, a), b)
    decreases |a|
  {
    if a == [] {
      assert a + b == b;
    } else {
      assert (a + b)[1..] == a[1..] + b;
      CheckAppend(Check(s, a[0]), a[1..], b);
    }
  }

  /** Once the checker has rejected, no continuation is accepted. */
  lemma {:induction false} RejectionIsFinal(s: Scan, chunks: seq<Chunk>)
    requires !s.ok
    ensures !CheckAll(s, chunks).ok
    decreases |chunks|
  {
    if chunks != [] {
      RejectionIsFinal(Check(s, chunks[0]), chunks[1..]);
    }
  }

  lemma CheckFew(s: Scan, a: Chunk, b: Chunk)
    ensures CheckAll(s, [a]) == Check(s, a)
    ensures CheckAll(s, [a, b]) == Check(Check(s, a), b)
  {
    assert [a, b][1..] == [b];
    assert CheckAll(Check(s, a), [b]) == CheckAll(Check(Check(s, a), b), []);
  }

  ghost predicate Agrees(s: State, c: Scan) {
    c.ok && c.open == s.open && c.highest == s.runs && c.closed == s.finished && (c.closed ==> c.open == None)
  }

  lemma CheckToken(s: State, c: Scan, f: Frame)
    requires Agrees(s, c) && f.event.Token?
    ensures var (s', more) := Translated(s, f);
            var c' := CheckAll(c, more);
            if c.closed then !c'.ok else Agrees(s', c') && !c'.closed
  {
    var more := Translated(s, f).1;
    CheckFew(c, more[0], more[|more| - 1]);
  }

  lemma CheckClose(s: State, c: Scan)
    requires Agrees(s, c)
    ensures CheckAll(c, CloseText(s)) == c.(open := None)
  {
    if s.open.Some? {
      CheckFew(c, TextEnd(s.open.value), TextEnd(s.open.value));
    }
  }

  /** A non-token frame's own chunks, after its close. */
  lemma CheckOwn(c: Scan, f: Frame, turnId: Option<string>)
    requires c.ok && c.open == None && !f.event.Token?
    ensures var c' := CheckAll(c, OwnChunks(f, turnId));
            if c.closed && !f.event.Unknown? then !c'.ok
            else c' == c.(closed := c.closed || IsTerminal(f.event))
  {
    var own := OwnChunks(f, turnId);
    if own != [] {
      CheckFew(c, own[0], own[|own| - 1]);
      assert |own| == 1 ==> own == [own[0]];
    }
  }

  lemma CheckRest(s: State, c: Scan, f: Frame)
    requires Agrees(s, c) && !f.event.Token?
    ensures var (s', more) := Translated(s, f);
            var c' := CheckAll(c, more);
            if c.closed && !f.event.Unknown? then !c'.ok
            else Agrees(s', c') && c'.closed == (c.closed || IsTerminal(f.event))
  {
    var turnId := if s.turnId == None then Some(f.turnId) else s.turnId;
    CheckAppend(c, CloseText(s), OwnChunks(f, turnId));
    CheckClose(s, c);
    CheckOwn(c.(open := None), f, turnId);
  }

  /** One frame from a state the checker agrees with. */
  lemma CheckFrame(s: State, c: Scan, f: Frame)
    requires Agrees(s, c)
    ensures var (s', more) := Translated(s, f);
            var c' := CheckAll(c, more);
            if c.closed && !f.event.Unknown? then !c'.ok
            else Agrees(s', c') && c'.closed == (c.closed || IsTerminal(f.event))
  {
    if f.event.Token? {
      CheckToken(s, c, f);
    } else {
      CheckRest(s, c, f);
    }
  }

  ghost predicate Terminated(frames: seq<Frame>) {
    exists i :: 0 <= i < |frames| && IsTerminal(frames[i].event)
  }

  lemma TerminalLastStep(frames: seq<Frame>)
    requires frames != []
    ensures var front := frames[..|frames| - 1];
            var last := frames[|frames| - 1].event;
            && (TerminalLast(frames) <==> TerminalLast(front) && (Terminated(front) ==> last.Unknown?))
            && (Terminated(frames) <==> Terminated(front) || IsTerminal(last))
  {
    var n := |frames| - 1;
    var front := frames[..n];
    assert forall i :: 0 <= i < n ==> front[i] == frames[i];
    if Terminated(front) {
      var i :| 0 <= i < n && IsTerminal(front[i].event);
      assert IsTerminal(frames[i].event);
    }
    if !TerminalLast(front) {
      var i, j :| 0 <= i < j < n && IsTerminal(front[i].event) && !front[j].event.Unknown?;
      assert IsTerminal(frames[i].event) && !frames[j].event.Unknown?;
    }
  }

  lemma {:induction false} ScanFrames(frames: seq<Frame>)
    ensures var (s, chunks) := Emitted(frames);
            var c := CheckAll(FRESH, chunks);
            if TerminalLast(frames) then Agrees(s, c) && c.closed == Terminated(frames) else !c.ok
  {
    if frames != [] {
      var n := |frames| - 1;
      var (s, chunks) := Emitted(frames[..n]);
      var c := CheckAll(FRESH, chunks);
      var more := Translated(s, frames[n]).1;
      ScanFrames(frames[..n]);
      TerminalLastStep(frames);
      CheckAppend(FRESH, chunks, more);
      if c.ok {
        CheckFrame(s, c, frames[n]);
      } else {
        RejectionIsFinal(c, more);
      }
    }
  }

  /** The chunk stream of a turn, cut off or not, is properly bracketed with
      fresh run ids and exactly one terminator, at its end, if and only if the
      turn's terminal frame is followed by unknown frames alone. */
  lemma WellBracketedIff(frames: seq<Frame>)
    ensures WellBracketed(ChunkStream(frames)) <==> TerminalLast(frames)
  {
    ScanFrames(frames);
    var (s, chunks) := Emitted(frames);
    var c := CheckAll(FRESH, chunks);
    var tail := Ended(s).1;
    CheckAppend(FRESH, chunks, tail);
    if TerminalLast(frames) {
      if !s.finished {
        CheckFew(c, tail[0], tail[|tail| - 1]);
        assert |tail| == 1 ==> tail == [ErrorText];
      }
    } else {
      RejectionIsFinal(c, tail);
    }
  }
}
