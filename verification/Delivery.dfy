/**
  The chat store's `applyEventTo`: frames of several messages arrive
  interleaved and at least once, and are folded into the message list.
 */
module Delivery {
  import opened Common
  import opened Frames

  // `lastSeq` is absent on messages loaded from history and then reads as 0.
  datatype Message = Message(id: string, role: string, parts: seq<Part>, lastSeq: Option<int>)

  function LastSeq(m: Message): int {
    if m.lastSeq.Some? then m.lastSeq.value else 0
  }

  function FindMessage(msgs: seq<Message>, id: string): (i: nat)
    ensures i <= |msgs|
    ensures i < |msgs| ==> msgs[i].id == id
    ensures forall j :: 0 <= j < i ==> msgs[j].id != id
  {
    if msgs == [] then 0 else if msgs[0].id == id then 0 else 1 + FindMessage(msgs[1..], id)
  }

  function Apply(msgs: seq<Message>, f: Frame): seq<Message> {
    var i := FindMessage(msgs, f.messageId);
    if f.event.Accepted? then
      if i < |msgs| then msgs else msgs + [Message(f.messageId, "assistant", [], Some(f.eventSeq))]
    else
      var m := if i < |msgs| then msgs[i] else Message(f.messageId, "assistant", [], Some(0));
      if f.eventSeq <= LastSeq(m) then msgs
      else
        var m' := m.(parts := FoldEvent(m.parts, f.event), lastSeq := Some(f.eventSeq));
        if i < |msgs| then msgs[i := m'] else msgs + [m']
  }

  function ApplyAll(msgs: seq<Message>, frames: seq<Frame>): seq<Message> {
    if frames == [] then msgs else Apply(ApplyAll(msgs, frames[..|frames| - 1]), frames[|frames| - 1])
  }

  /** `applyEventTo` itself: copy the list, then push and assign into the copy. */
  method ApplyEventTo(messages: seq<Message>, e: Frame) returns (result: seq<Message>)
    ensures result == Apply(messages, e)
  {
    var msgs := messages;
    var at := FindMessage(msgs, e.messageId);
    if e.event.Accepted? {
      if at < |msgs| {
        return messages;
      }
      msgs := msgs + [Message(e.messageId, "assistant", [], Some(e.eventSeq))];
      return msgs;
    }
    if at == |msgs| {
      msgs := msgs + [Message(e.messageId, "assistant", [], Some(0))];
    }
    if e.eventSeq <= LastSeq(msgs[at]) {
      return messages;
    }
    msgs := msgs[at := msgs[at].(lastSeq := Some(e.eventSeq))];
    var parts := msgs[at].parts;
    match e.event {
      case Tool(payload) =>
        var i := 0;
        while i < |parts| && !IsTool(parts[i], ToolSeqOf(payload))
          invariant 0 <= i <= |parts|
          invariant forall j :: 0 <= j < i ==> !IsTool(parts[j], ToolSeqOf(payload))
        {
          i := i + 1;
        }
        assert i == FindTool(parts, ToolSeqOf(payload));
        var part := Part("tool_event", payload);
        if i < |parts| {
          parts := parts[i := part];
        } else {
          parts := parts + [part];
        }
      case Token(text) =>
        if parts != [] && parts[|parts| - 1].kind == "text" {
          var tail := parts[|parts| - 1];
          parts := parts[|parts| - 1 := Part("text", Markdown(MarkdownOf(tail.payload) + text))];
        } else {
          parts := parts + [Part("text", Markdown(text))];
        }
      case NewPart(part) => parts := parts + [part];
      case Error(payload) => parts := parts + [Part("error", payload)];
      case _ =>
    }
    msgs := msgs[at := msgs[at].(parts := parts)];
    result := msgs;
  }

  // ---------------------------------------------------------------------
  // At-least-once delivery
  // ---------------------------------------------------------------------

  /** The deliveries with every repeat removed, first arrivals kept in place. */
  function Once(frames: seq<Frame>): seq<Frame> {
    if frames == [] then []
    else
      var front := frames[..|frames| - 1];
      var last := frames[|frames| - 1];
      if last in front then Once(front) else Once(front) + [last]
  }

  ghost predicate Numbered(frames: seq<Frame>) {
    forall i :: 0 <= i < |frames| ==> frames[i].eventSeq >= 1
  }

  /** A frame the list has nothing left to learn from. */
  ghost predicate Absorbs(msgs: seq<Message>, f: Frame) {
    Apply(msgs, f) == msgs
  }

  /** The list only ever grows, and a message's `lastSeq` never goes back. */
  ghost predicate Extends(msgs: seq<Message>, later: seq<Message>) {
    && |msgs| <= |later|
    && (forall i :: 0 <= i < |msgs| ==> later[i].id == msgs[i].id && LastSeq(msgs[i]) <= LastSeq(later[i]))
  }

  ghost predicate UniqueIds(msgs: seq<Message>) {
    forall i, j :: 0 <= i < j < |msgs| ==> msgs[i].id != msgs[j].id
  }

  lemma {:induction false} MonotoneAndUnique(msgs: seq<Message>, frames: seq<Frame>)
    ensures Extends(msgs, ApplyAll(msgs, frames))
    ensures UniqueIds(msgs) ==> UniqueIds(ApplyAll(msgs, frames))
  {
    if frames != [] {
      MonotoneAndUnique(msgs, frames[..|frames| - 1]);
    }
  }

  lemma FindIsFirst(msgs: seq<Message>, id: string, i: nat)
    requires i < |msgs| && msgs[i].id == id
    requires forall j :: 0 <= j < i ==> msgs[j].id != id
    ensures FindMessage(msgs, id) == i
  {
  }

  lemma AbsorbedOnceApplied(msgs: seq<Message>, f: Frame)
    requires f.eventSeq >= 1
    ensures Absorbs(Apply(msgs, f), f)
  {
    var later := Apply(msgs, f);
    var i := FindMessage(msgs, f.messageId);
    if i == |msgs| {
      assert later[i].id == f.messageId;
    }
    FindIsFirst(later, f.messageId, i);
  }

  lemma AbsorbedForever(msgs: seq<Message>, f: Frame, g: Frame)
    requires f.eventSeq >= 1 && Absorbs(msgs, f)
    ensures Absorbs(Apply(msgs, g), f)
  {
    var later := Apply(msgs, g);
    var i := FindMessage(msgs, f.messageId);
    assert i == |msgs| ==> |Apply(msgs, f)| == |msgs| + 1;
    assert forall j :: 0 <= j < |msgs| ==> later[j].id == msgs[j].id && LastSeq(msgs[j]) <= LastSeq(later[j]);
    FindIsFirst(later, f.messageId, i);
  }

  lemma {:induction false} SeenIsAbsorbed(msgs: seq<Message>, frames: seq<Frame>, f: Frame)
    requires Numbered(frames) && f in frames
    ensures Absorbs(ApplyAll(msgs, frames), f)
  {
    var front := frames[..|frames| - 1];
    var last := frames[|frames| - 1];
    if f in front {
      SeenIsAbsorbed(msgs, front, f);
      AbsorbedForever(ApplyAll(msgs, front), f, last);
    } else {
      assert f == last;
      AbsorbedOnceApplied(ApplyAll(msgs, front), f);
    }
  }

  /** Whatever the order, the interleaving and the number of repeats, delivering
      a list of numbered frames leaves the messages delivering each once leaves. */
  lemma {:induction false} AtLeastOnceIsOnce(msgs: seq<Message>, frames: seq<Frame>)
    requires Numbered(frames)
    ensures ApplyAll(msgs, frames) == ApplyAll(msgs, Once(frames))
  {
    if frames != [] {
      var front := frames[..|frames| - 1];
      var last := frames[|frames| - 1];
      AtLeastOnceIsOnce(msgs, front);
      if last in front {
        SeenIsAbsorbed(msgs, front, last);
      } else {
        assert Once(frames)[..|Once(front)|] == Once(front);
      }
    }
  }

  // ---------------------------------------------------------------------
  // Interleaving: each message sees its own frames alone
  // ---------------------------------------------------------------------

  function Only(frames: seq<Frame>, id: string): seq<Frame> {
    if frames == [] then []
    else
      var front := Only(frames[..|frames| - 1], id);
      var last := frames[|frames| - 1];
      if last.messageId == id then front + [last] else front
  }

  function Lookup(msgs: seq<Message>, id: string): Option<Message> {
    var i := FindMessage(msgs, id);
    if i < |msgs| then Some(msgs[i]) else None
  }

  lemma ApplyIsLocal(msgs: seq<Message>, f: Frame, id: string)
    ensures f.messageId != id ==> Lookup(Apply(msgs, f), id) == Lookup(msgs, id)
    ensures f.messageId == id ==>
              Lookup(Apply(msgs, f), id)
              == var m := Lookup(msgs, id);
                 if f.event.Accepted? then
                   if m.Some? then m else Some(Message(id, "assistant", [], Some(f.eventSeq)))
                 else
                   var m0 := if m.Some? then m.value else Message(id, "assistant", [], Some(0));
                   if f.eventSeq <= LastSeq(m0) then m
                   else Some(m0.(parts := FoldEvent(m0.parts, f.event), lastSeq := Some(f.eventSeq)))
  {
    var later := Apply(msgs, f);
    var i := FindMessage(msgs, id);
    assert forall j :: 0 <= j < |msgs| ==> later[j].id == msgs[j].id;
    if i < |msgs| {
      assert FindMessage(later, id) == i;
    } else if |later| > |msgs| && f.messageId == id {
      assert later[i].id == id;
      assert FindMessage(later, id) == i;
    } else {
      assert FindMessage(later, id) == |later|;
    }
  }

  /** Beside any other messages, a message is what its own frames alone make of it. */
  lemma {:induction false} InterleavingIsInvisible(msgs: seq<Message>, frames: seq<Frame>, id: string)
    ensures Lookup(ApplyAll(msgs, frames), id) == Lookup(ApplyAll(msgs, Only(frames, id)), id)
  {
    if frames != [] {
      var front := frames[..|frames| - 1];
      var last := frames[|frames| - 1];
      InterleavingIsInvisible(msgs, front, id);
      ApplyIsLocal(ApplyAll(msgs, front), last, id);
      if last.messageId == id {
        ApplyIsLocal(ApplyAll(msgs, Only(front, id)), last, id);
        assert Only(frames, id)[..|Only(front, id)|] == Only(front, id);
      }
    }
  }

  ghost predicate Increasing(frames: seq<Frame>) {
    && Numbered(frames)
    && (forall i, j :: 0 <= i < j < |frames| ==> frames[i].eventSeq < frames[j].eventSeq)
  }

  /** A new message's frames in order, beside any others: its parts are the direct
      fold of them. */
  lemma {:induction false} OrderedIsFolded(msgs: seq<Message>, frames: seq<Frame>, id: string)
    requires Lookup(msgs, id) == None && Increasing(frames) && frames != []
    requires forall i :: 0 <= i < |frames| ==> frames[i].messageId == id
    ensures var m := Lookup(ApplyAll(msgs, frames), id);
            m.Some? && m.value.parts == FoldAll(frames) && LastSeq(m.value) <= frames[|frames| - 1].eventSeq
  {
    var front := frames[..|frames| - 1];
    var last := frames[|frames| - 1];
    ApplyIsLocal(ApplyAll(msgs, front), last, id);
    if front != [] {
      OrderedIsFolded(msgs, front, id);
      assert frames[|front| - 1].eventSeq < last.eventSeq;
    }
  }

  lemma {:induction false} OnceCommutesWithOnly(frames: seq<Frame>, id: string)
    ensures Only(Once(frames), id) == Once(Only(frames, id))
    ensures forall f :: f in Only(frames, id) <==> f in frames && f.messageId == id
  {
    if frames != [] {
      var front := frames[..|frames| - 1];
      var last := frames[|frames| - 1];
      OnceCommutesWithOnly(front, id);
      assert Once(front) + [last] != [] && (Once(front) + [last])[..|Once(front)|] == Once(front);
      assert (Only(front, id) + [last])[..|Only(front, id)|] == Only(front, id);
      assert frames == front + [last];
    }
  }

  lemma {:induction false} OnlyBelongs(frames: seq<Frame>, id: string)
    ensures forall i :: 0 <= i < |Only(frames, id)| ==> Only(frames, id)[i].messageId == id
  {
    if frames != [] {
      OnlyBelongs(frames[..|frames| - 1], id);
    }
  }

  /** End to end: any messages already there, any interleaving, any later repeats.
      If a new message's first arrivals are in order, it shows the direct fold of
      exactly its own frames. */
  lemma DeliveredMessage(msgs: seq<Message>, frames: seq<Frame>, id: string)
    requires Numbered(frames) && Lookup(msgs, id) == None
    requires Only(frames, id) != [] && Increasing(Once(Only(frames, id)))
    ensures var m := Lookup(ApplyAll(msgs, frames), id);
            m.Some? && m.value.parts == FoldAll(Once(Only(frames, id)))
  {
    var mine := Once(Only(frames, id));
    AtLeastOnceIsOnce(msgs, frames);
    InterleavingIsInvisible(msgs, Once(frames), id);
    OnceCommutesWithOnly(frames, id);
    OnlyBelongs(Once(frames), id);
    OnceNonEmpty(Only(frames, id));
    OrderedIsFolded(msgs, mine, id);
  }

  // ---------------------------------------------------------------------
  // One part per tool, however delivered
  // ---------------------------------------------------------------------

  ghost predicate ToolsShownOnce(msgs: seq<Message>) {
    forall i :: 0 <= i < |msgs| ==> UniqueTools(msgs[i].parts)
  }

  /** Where only tool frames make tool parts, no message ever shows a tool twice,
      in whatever order and how often its frames arrive. */
  lemma {:induction false} OneToolPartEach(msgs: seq<Message>, frames: seq<Frame>)
    requires ToolsShownOnce(msgs)
    requires forall i :: 0 <= i < |frames| && frames[i].event.NewPart? ==> frames[i].event.part.kind != "tool_event"
    ensures ToolsShownOnce(ApplyAll(msgs, frames))
  {
    if frames != [] {
      var front, last := frames[..|frames| - 1], frames[|frames| - 1];
      OneToolPartEach(msgs, front);
      ApplyKeepsTools(ApplyAll(msgs, front), last);
    }
  }

  lemma ApplyKeepsTools(msgs: seq<Message>, f: Frame)
    requires ToolsShownOnce(msgs)
    requires f.event.NewPart? ==> f.event.part.kind != "tool_event"
    ensures ToolsShownOnce(Apply(msgs, f))
  {
    var i := FindMessage(msgs, f.messageId);
    var parts := if i < |msgs| then msgs[i].parts else [];
    FoldKeepsTools(parts, f.event);
  }

  lemma {:induction false} OnceNonEmpty(frames: seq<Frame>)
    requires frames != []
    ensures Once(frames) != []
  {
    if |frames| > 1 {
      OnceNonEmpty(frames[..|frames| - 1]);
    }
  }
}
