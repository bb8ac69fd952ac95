/**
  The frames of one chat turn and the two direct folds of a frame stream into
  message parts: the browser's (`applyEventTo`) and the server's persisted one
  (`_record_transcript_frame` over `TurnTranscriptBuffer`).
 */
module Frames {
  import opened Common

  /** A JSON payload, read only at the two keys the folds look at. */
  datatype Payload =
    | Markdown(text: string)
    | ToolInfo(toolSeq: int, rest: string)
    | Json(text: string)

  datatype Part = Part(kind: string, payload: Payload)

  datatype Event =
    | Accepted(turnIndex: int)
    | Phase(phase: string, payload: Payload)
    | Tool(payload: Payload)
    | Token(text: string)
    | NewPart(part: Part)
    | Done(usage: string, title: Option<string>, replayed: bool)
    | Error(payload: Payload)
    | Unknown(name: string)

  datatype Frame = Frame(turnId: string, messageId: string, eventSeq: int, event: Event)

  // Reading an absent key gives `undefined` in the browser: it prints as
  // "undefined" and is equal to itself.
  function MarkdownOf(p: Payload): string {
    if p.Markdown? then p.text else "undefined"
  }

  function ToolSeqOf(p: Payload): Option<int> {
    if p.ToolInfo? then Some(p.toolSeq) else None
  }

  predicate IsTool(p: Part, s: Option<int>) {
    p.kind == "tool_event" && ToolSeqOf(p.payload) == s
  }

  predicate IsTerminal(e: Event) {
    e.Done? || e.Error?
  }

  /** Index of the first tool_event part of sequence number `s`, or |parts|. */
  function FindTool(parts: seq<Part>, s: Option<int>): (i: nat)
    ensures i <= |parts|
    ensures i < |parts| ==> IsTool(parts[i], s)
    ensures forall j :: 0 <= j < i ==> !IsTool(parts[j], s)
  {
    if parts == [] then 0
    else if IsTool(parts[0], s) then 0
    else 1 + FindTool(parts[1..], s)
  }

  function UpsertTool(parts: seq<Part>, payload: Payload): seq<Part> {
    var i := FindTool(parts, ToolSeqOf(payload));
    var part := Part("tool_event", payload);
    if i < |parts| then parts[i := part] else parts + [part]
  }

  function FoldToken(parts: seq<Part>, text: string): seq<Part> {
    if parts != [] && parts[|parts| - 1].kind == "text" then
      parts[|parts| - 1 := Part("text", Markdown(MarkdownOf(parts[|parts| - 1].payload) + text))]
    else
      parts + [Part("text", Markdown(text))]
  }

  /** What one frame does to the parts the browser shows. */
  function FoldEvent(parts: seq<Part>, e: Event): seq<Part> {
    match e
    case Tool(payload) => UpsertTool(parts, payload)
    case Token(text) => FoldToken(parts, text)
    case NewPart(part) => parts + [part]
    case Error(payload) => parts + [Part("error", payload)]
    case _ => parts
  }

  /** What one frame does to the parts the server persists. */
  function PersistEvent(parts: seq<Part>, e: Event): seq<Part> {
    match e
    case Tool(payload) => UpsertTool(parts, payload)
    case Token(text) => FoldToken(parts, text)
    case NewPart(part) => parts + [part]
    case _ => parts
  }

  function FoldAll(frames: seq<Frame>): seq<Part> {
    if frames == [] then []
    else FoldEvent(FoldAll(frames[..|frames| - 1]), frames[|frames| - 1].event)
  }

  function PersistAll(frames: seq<Frame>): seq<Part> {
    if frames == [] then []
    else PersistEvent(PersistAll(frames[..|frames| - 1]), frames[|frames| - 1].event)
  }

  ghost predicate NoErrors(frames: seq<Frame>) {
    forall i :: 0 <= i < |frames| ==> !frames[i].event.Error?
  }

  /** An error frame ends the turn: whatever comes before it, nothing but one
      trailing error part separates what is shown from what is persisted. */
  lemma {:induction false} ShownIsPersistedPlusError(frames: seq<Frame>)
    requires forall i :: 0 <= i < |frames| - 1 ==> !frames[i].event.Error?
    ensures frames != [] && frames[|frames| - 1].event.Error? ==>
              FoldAll(frames) == PersistAll(frames) + [Part("error", frames[|frames| - 1].event.payload)]
    ensures NoErrors(frames) ==> FoldAll(frames) == PersistAll(frames)
  {
    if frames != [] {
      ShownIsPersistedPlusError(frames[..|frames| - 1]);
    }
  }

  ghost predicate UniqueTools(parts: seq<Part>) {
    forall i, j, s :: 0 <= i < j < |parts| && IsTool(parts[i], s) ==> !IsTool(parts[j], s)
  }

  lemma FoldKeepsTools(parts: seq<Part>, e: Event)
    requires UniqueTools(parts) && (e.NewPart? ==> e.part.kind != "tool_event")
    ensures UniqueTools(FoldEvent(parts, e))
  {
  }

  /** When only tool frames make tool_event parts, no tool is shown twice. */
  lemma {:induction false} OneToolPartPerSequence(frames: seq<Frame>)
    requires forall i :: 0 <= i < |frames| && frames[i].event.NewPart? ==> frames[i].event.part.kind != "tool_event"
    ensures UniqueTools(FoldAll(frames))
  {
    if frames != [] {
      OneToolPartPerSequence(frames[..|frames| - 1]);
      FoldKeepsTools(FoldAll(frames[..|frames| - 1]), frames[|frames| - 1].event);
    }
  }
}
