/**
  Translating a turn's frames to chunks, reducing the chunks and reading the
  message back agrees with folding the frames directly, exactly on the turns
  whose tool frames can be reconciled.
 */
module Agreement {
  import opened Common
  import opened Frames
  import opened Translator
  import opened UiMessage

  /** The message the browser holds after the whole translated stream. */
  function Streamed(frames: seq<Frame>): seq<UiPart> {
    ReduceAll([], ChunkStream(frames))
  }

  /** Which kind of frame was the first to name a tool: a tool frame or a part frame. */
  datatype Mention = Nobody | ByTool | ByPart

  function FirstBy(frames: seq<Frame>, s: Option<int>): Mention {
    if frames == [] then Nobody
    else
      var m := FirstBy(frames[..|frames| - 1], s);
      if m != Nobody then m
      else match frames[|frames| - 1].event
        case Tool(payload) => if ToolSeqOf(payload) == s then ByTool else Nobody
        case NewPart(part) => if IsTool(part, s) then ByPart else Nobody
        case _ => Nobody
  }

  /** No part frame carries a phase marker, and no tool frame updates a tool
      that a part frame named first. */
  predicate Reconcilable(frames: seq<Frame>) {
    frames == [] ||
    (Reconcilable(frames[..|frames| - 1]) &&
     Updatable(frames[..|frames| - 1], frames[|frames| - 1].event))
  }

  predicate Updatable(before: seq<Frame>, e: Event) {
    match e
    case NewPart(part) => part.kind != "phase"
    case Tool(payload) => FirstBy(before, ToolSeqOf(payload)) != ByPart
    case _ => true
  }

  // ---------------------------------------------------------------------
  // The message after the frames alone, before `end()`
  // ---------------------------------------------------------------------

  function After(frames: seq<Frame>): seq<UiPart> {
    ReduceAll([], Emitted(frames).1)
  }

  predicate IsUiTool(p: UiPart, s: Option<int>) {
    p.UiData? && IsTool(Part(p.kind, p.payload), s)
  }

  function FindUiTool(ui: seq<UiPart>, s: Option<int>): (i: nat)
    ensures i <= |ui|
    ensures i < |ui| ==> IsUiTool(ui[i], s)
    ensures forall j :: 0 <= j < i ==> !IsUiTool(ui[j], s)
  {
    if ui == [] then 0 else if IsUiTool(ui[0], s) then 0 else 1 + FindUiTool(ui[1..], s)
  }

  function UiFirstBy(ui: seq<UiPart>, s: Option<int>): Mention {
    var i := FindUiTool(ui, s);
    if i == |ui| then Nobody else if ui[i].id.Some? then ByTool else ByPart
  }

  /** An id on a tool part names that part's own sequence number. */
  ghost predicate TrueIds(ui: seq<UiPart>) {
    forall i :: 0 <= i < |ui| && ui[i].UiData? && ui[i].kind == "tool_event" && ui[i].id.Some?
      ==> ui[i].id.value == ToolId(ToolSeqOf(ui[i].payload))
  }

  /** An open run is the last part of the message; every run there was opened. */
  ghost predicate RunsFit(s: State, ui: seq<UiPart>) {
    && (s.open.Some? ==> ui != [] && ui[|ui| - 1].UiText? && ui[|ui| - 1].run == s.open.value && !ui[|ui| - 1].done)
  }

  /** The message with its open run, if any, closed. */
  function Closed(s: State, ui: seq<UiPart>): seq<UiPart>
    requires s.open.Some? ==> ui != [] && ui[|ui| - 1].UiText?
  {
    if s.open.Some? then ui[|ui| - 1 := ui[|ui| - 1].(done := true)] else ui
  }

  /** What a frame other than a token writes into a message with no open run. */
  function Written(closed: seq<UiPart>, e: Event): seq<UiPart> {
    match e
    case Tool(payload) =>
      var id := ToolId(ToolSeqOf(payload));
      var i := FindData(closed, "tool_event", id);
      var part := UiData("tool_event", Some(id), payload);
      if i < |closed| then closed[i := part] else closed + [part]
    case NewPart(part) => closed + [UiData(part.kind, None, part.payload)]
    case Error(payload) => closed + [UiData("error", None, payload)]
    case _ => closed
  }

  function TokenOnUi(s: State, ui: seq<UiPart>, text: string): seq<UiPart>
    requires s.open.Some? ==> ui != [] && ui[|ui| - 1].UiText?
  {
    if s.open.Some? then ui[|ui| - 1 := ui[|ui| - 1].(text := ui[|ui| - 1].text + text)]
    else ui + [UiText(s.runs + 1, text, false)]
  }

  /** What a frame does to the streamed message, in one piece. */
  function FrameOnUi(s: State, ui: seq<UiPart>, e: Event): seq<UiPart>
    requires s.open.Some? ==> ui != [] && ui[|ui| - 1].UiText?
  {
    if e.Token? then TokenOnUi(s, ui, e.text) else Written(Closed(s, ui), e)
  }

  lemma ReduceFew(ui: seq<UiPart>, a: Chunk, b: Chunk)
    ensures ReduceAll(ui, [a]) == Reduce(ui, a)
    ensures ReduceAll(ui, [a, b]) == Reduce(Reduce(ui, a), b)
  {
    assert [a, b][1..] == [b];
    assert ReduceAll(Reduce(ui, a), [b]) == ReduceAll(Reduce(Reduce(ui, a), b), []);
  }

  lemma ReduceToken(s: State, ui: seq<UiPart>, f: Frame)
    requires RunsFit(s, ui) && f.event.Token?
    ensures ReduceAll(ui, Translated(s, f).1) == FrameOnUi(s, ui, f.event)
  {
    var more := Translated(s, f).1;
    ReduceFew(ui, more[0], more[|more| - 1]);
    if s.open == None {
      var started := ui + [UiText(s.runs + 1, "", false)];
      assert Reduce(ui, more[0]) == started;
      assert started[|started| - 1].text + f.event.text == f.event.text;
      assert Reduce(started, more[1]) == ui + [UiText(s.runs + 1, f.event.text, false)];
    }
  }

  lemma ReduceClose(s: State, ui: seq<UiPart>)
    requires RunsFit(s, ui)
    ensures ReduceAll(ui, CloseText(s)) == Closed(s, ui)
  {
    if s.open.Some? {
      ReduceFew(ui, TextEnd(s.open.value), ErrorText);
    }
  }

  lemma ReduceOwn(closed: seq<UiPart>, f: Frame, turnId: Option<string>)
    requires !f.event.Token?
    ensures ReduceAll(closed, OwnChunks(f, turnId)) == Written(closed, f.event)
  {
    var own := OwnChunks(f, turnId);
    if own != [] {
      ReduceFew(closed, own[0], own[|own| - 1]);
      assert |own| == 1 ==> own == [own[0]];
    }
  }

  lemma ReduceFrame(s: State, ui: seq<UiPart>, f: Frame)
    requires RunsFit(s, ui)
    ensures ReduceAll(ui, Translated(s, f).1) == FrameOnUi(s, ui, f.event)
  {
    if f.event.Token? {
      ReduceToken(s, ui, f);
    } else {
      var turnId := if s.turnId == None then Some(f.turnId) else s.turnId;
      ReduceAppend(ui, CloseText(s), OwnChunks(f, turnId));
      ReduceClose(s, ui);
      ReduceOwn(ReduceAll(ui, CloseText(s)), f, turnId);
    }
  }

  /** Reading the message back is blind to run flags on its last part. */
  lemma ClosingIsInvisible(ui: seq<UiPart>)
    requires ui != [] && ui[|ui| - 1].UiText?
    ensures MessageParts(ui[|ui| - 1 := ui[|ui| - 1].(done := true)]) == MessageParts(ui)
  {
    var n := |ui| - 1;
    assert ui[n := ui[n].(done := true)][..n] == ui[..n];
  }

  lemma MessagePartsSnoc(ui: seq<UiPart>, p: UiPart)
    ensures MessageParts(ui + [p]) == Absorb(MessageParts(ui), p)
  {
    assert (ui + [p])[..|ui|] == ui;
  }

  /** A tool part of the message sits, unmerged, behind everything before it. */
  lemma {:induction false} ToolPosition(ui: seq<UiPart>, i: nat)
    requires i < |ui| && ui[i].UiData? && ui[i].kind == "tool_event"
    ensures var before := MessageParts(ui[..i]);
            MessageParts(ui[..i + 1]) == before + [Part("tool_event", ui[i].payload)]
            && MessageParts(ui[..i + 1]) <= MessageParts(ui)
  {
    assert ui[..i + 1][..i] == ui[..i];
    if i + 1 == |ui| {
      assert ui[..i + 1] == ui;
    } else {
      var front := ui[..|ui| - 1];
      ToolPosition(front, i);
      assert front[..i] == ui[..i] && front[..i + 1] == ui[..i + 1];
    }
  }

  lemma AbsorbUpdate(out: seq<Part>, k: nat, payload: Payload, p: UiPart)
    requires k < |out| && out[k].kind == "tool_event"
    ensures k < |Absorb(out, p)| && Absorb(out, p)[k].kind == "tool_event"
    ensures Absorb(out[k := Part("tool_event", payload)], p) == Absorb(out, p)[k := Part("tool_event", payload)]
  {
  }

  lemma {:induction false} ToolUpdate(ui: seq<UiPart>, i: nat, id: Option<DataId>, payload: Payload)
    requires i < |ui| && ui[i].UiData? && ui[i].kind == "tool_event"
    ensures var k := |MessageParts(ui[..i])|;
            k < |MessageParts(ui)| && MessageParts(ui)[k].kind == "tool_event"
            && MessageParts(ui[i := UiData("tool_event", id, payload)])
               == MessageParts(ui)[k := Part("tool_event", payload)]
  {
    var ui' := ui[i := UiData("tool_event", id, payload)];
    var n := |ui| - 1;
    if i == n {
      assert ui'[..n] == ui[..n];
    } else {
      var front := ui[..n];
      assert ui'[..n] == front[i := UiData("tool_event", id, payload)];
      assert front[..i] == ui[..i];
      ToolUpdate(front, i, id, payload);
      AbsorbUpdate(MessageParts(front), |MessageParts(front[..i])|, payload, ui[n]);
    }
  }

  lemma {:induction false} NoToolNoPart(ui: seq<UiPart>, s: Option<int>)
    requires forall j :: 0 <= j < |ui| ==> !IsUiTool(ui[j], s)
    ensures forall k :: 0 <= k < |MessageParts(ui)| ==> !IsTool(MessageParts(ui)[k], s)
  {
    if ui != [] {
      NoToolNoPart(ui[..|ui| - 1], s);
    }
  }

  /** The first tool part in the message is the first in the parts read back. */
  lemma FirstToolPosition(ui: seq<UiPart>, s: Option<int>)
    ensures var i := FindUiTool(ui, s);
            FindTool(MessageParts(ui), s) == if i < |ui| then |MessageParts(ui[..i])| else |MessageParts(ui)|
    ensures FindUiTool(ui, s) < |ui| ==> FindTool(MessageParts(ui), s) < |MessageParts(ui)|
  {
    var i := FindUiTool(ui, s);
    var parts := MessageParts(ui);
    NoToolNoPart(ui[..i], s);
    if i < |ui| {
      ToolPosition(ui, i);
      var before := MessageParts(ui[..i]);
      assert forall k :: 0 <= k < |before| ==> parts[k] == before[k];
      assert IsTool(parts[|before|], s);
    } else {
      assert ui[..i] == ui;
    }
  }

  // ---------------------------------------------------------------------
  // The invariant carried over the frames of a turn
  // ---------------------------------------------------------------------

  ghost predicate Tracks(frames: seq<Frame>) {
    var s := Emitted(frames).0;
    var ui := After(frames);
    && RunsFit(s, ui)
    && TrueIds(ui)
    && (forall t :: UiFirstBy(ui, t) == FirstBy(frames, t))
  }

  lemma AfterStep(frames: seq<Frame>)
    requires frames != []
    requires RunsFit(Emitted(frames[..|frames| - 1]).0, After(frames[..|frames| - 1]))
    ensures After(frames) == FrameOnUi(Emitted(frames[..|frames| - 1]).0, After(frames[..|frames| - 1]),
                                       frames[|frames| - 1].event)
  {
    var front := frames[..|frames| - 1];
    var (s, chunks) := Emitted(front);
    ReduceAppend([], chunks, Translated(s, frames[|frames| - 1]).1);
    ReduceFrame(s, After(front), frames[|frames| - 1]);
  }

  /** Appending a part, or rewriting one without touching its tool identity,
      changes who named a tool first only when nobody had. */
  lemma FirstByAppend(ui: seq<UiPart>, p: UiPart, t: Option<int>)
    ensures UiFirstBy(ui + [p], t)
            == if UiFirstBy(ui, t) != Nobody || !IsUiTool(p, t) then UiFirstBy(ui, t)
               else if p.id.Some? then ByTool else ByPart
  {
    var ui' := ui + [p];
    assert forall q :: 0 <= q < |ui| ==> IsUiTool(ui'[q], t) == IsUiTool(ui[q], t);
    assert ui'[|ui|] == p;
    assert FindUiTool(ui', t) == FindUiTool(ui, t) || FindUiTool(ui, t) == |ui|;
  }

  lemma FirstByUpdate(ui: seq<UiPart>, k: nat, p: UiPart, t: Option<int>)
    requires k < |ui| && IsUiTool(p, t) == IsUiTool(ui[k], t)
    requires IsUiTool(p, t) ==> p.id.Some? == ui[k].id.Some?
    ensures UiFirstBy(ui[k := p], t) == UiFirstBy(ui, t)
  {
    var ui' := ui[k := p];
    var i := FindUiTool(ui, t);
    var j := FindUiTool(ui', t);
    assert forall q :: 0 <= q < |ui| ==> IsUiTool(ui'[q], t) == IsUiTool(ui[q], t);
    assert i == j;
  }

  lemma FirstByClosed(s: State, ui: seq<UiPart>, t: Option<int>)
    requires RunsFit(s, ui)
    ensures UiFirstBy(Closed(s, ui), t) == UiFirstBy(ui, t)
    ensures TrueIds(ui) ==> TrueIds(Closed(s, ui))
  {
    if s.open.Some? {
      FirstByUpdate(ui, |ui| - 1, Closed(s, ui)[|ui| - 1], t);
    }
  }

  lemma FirstByToken(s: State, ui: seq<UiPart>, text: string, t: Option<int>)
    requires RunsFit(s, ui)
    ensures UiFirstBy(TokenOnUi(s, ui, text), t) == UiFirstBy(ui, t)
  {
    if s.open.Some? {
      FirstByUpdate(ui, |ui| - 1, TokenOnUi(s, ui, text)[|ui| - 1], t);
    } else {
      FirstByAppend(ui, UiText(s.runs + 1, text, false), t);
    }
  }

  lemma FirstByTool(closed: seq<UiPart>, payload: Payload, t: Option<int>)
    requires TrueIds(closed)
    ensures UiFirstBy(Written(closed, Tool(payload)), t)
            == if UiFirstBy(closed, t) == Nobody && ToolSeqOf(payload) == t then ByTool else UiFirstBy(closed, t)
  {
    var id := ToolId(ToolSeqOf(payload));
    var i := FindData(closed, "tool_event", id);
    var part := UiData("tool_event", Some(id), payload);
    if i < |closed| {
      FirstByUpdate(closed, i, part, t);
      if ToolSeqOf(payload) == t {
        assert IsUiTool(closed[i], t);
        assert FindUiTool(closed, t) <= i;
      }
    } else {
      FirstByAppend(closed, part, t);
    }
  }

  lemma FirstByFrame(s: State, ui: seq<UiPart>, e: Event, t: Option<int>)
    requires RunsFit(s, ui) && TrueIds(ui)
    ensures UiFirstBy(FrameOnUi(s, ui, e), t)
            == if UiFirstBy(ui, t) != Nobody then UiFirstBy(ui, t)
               else if e.Tool? && ToolSeqOf(e.payload) == t then ByTool
               else if e.NewPart? && IsTool(e.part, t) then ByPart
               else Nobody
  {
    FirstByClosed(s, ui, t);
    match e {
      case Token(text) => FirstByToken(s, ui, text, t);
      case Tool(payload) => FirstByTool(Closed(s, ui), payload, t);
      case NewPart(part) => FirstByAppend(Closed(s, ui), UiData(part.kind, None, part.payload), t);
      case Error(payload) => FirstByAppend(Closed(s, ui), UiData("error", None, payload), t);
      case _ =>
    }
  }

  lemma WrittenKeepsIds(closed: seq<UiPart>, e: Event)
    requires TrueIds(closed)
    ensures TrueIds(Written(closed, e))
  {
  }

  /** After any frame an open run is still the last part, and ids are still true. */
  lemma FrameFits(s: State, ui: seq<UiPart>, f: Frame)
    requires RunsFit(s, ui) && TrueIds(ui)
    ensures RunsFit(Translated(s, f).0, FrameOnUi(s, ui, f.event)) && TrueIds(FrameOnUi(s, ui, f.event))
  {
    if !f.event.Token? {
      FirstByClosed(s, ui, None);
      WrittenKeepsIds(Closed(s, ui), f.event);
    }
  }

  lemma {:induction false} TracksAlways(frames: seq<Frame>)
    ensures Tracks(frames)
  {
    if frames != [] {
      TracksAlways(frames[..|frames| - 1]);
      TracksStep(frames);
    }
  }

  lemma TracksStep(frames: seq<Frame>)
    requires frames != [] && Tracks(frames[..|frames| - 1])
    ensures Tracks(frames)
  {
    var front, f := frames[..|frames| - 1], frames[|frames| - 1];
    AfterStep(frames);
    FrameFits(Emitted(front).0, After(front), f);
    forall t ensures UiFirstBy(After(frames), t) == FirstBy(frames, t) {
      FirstByFrame(Emitted(front).0, After(front), f.event, t);
    }
  }

  /** The tool step: upserting by id in the message is upserting by sequence
      number in the parts, unless a part frame named the tool first. */
  lemma ToolStep(ui: seq<UiPart>, payload: Payload)
    requires TrueIds(ui) && UiFirstBy(ui, ToolSeqOf(payload)) != ByPart
    ensures var id := ToolId(ToolSeqOf(payload));
            var i := FindData(ui, "tool_event", id);
            var part := UiData("tool_event", Some(id), payload);
            MessageParts(if i < |ui| then ui[i := part] else ui + [part]) == UpsertTool(MessageParts(ui), payload)
  {
    var t := ToolSeqOf(payload);
    var i := FindUiTool(ui, t);
    var j := FindData(ui, "tool_event", ToolId(t));
    assert j < |ui| ==> IsUiTool(ui[j], t);
    FirstToolPosition(ui, t);
    if i < |ui| {
      assert ui[i].id == Some(ToolId(t));
      assert i == j;
      ToolUpdate(ui, i, Some(ToolId(t)), payload);
    } else {
      MessagePartsSnoc(ui, UiData("tool_event", Some(ToolId(t)), payload));
    }
  }

  lemma TokenStep(s: State, ui: seq<UiPart>, text: string)
    requires RunsFit(s, ui)
    ensures MessageParts(FrameOnUi(s, ui, Token(text))) == FoldToken(MessageParts(ui), text)
  {
    if s.open.Some? {
      var n := |ui| - 1;
      var before := MessageParts(ui[..n]);
      assert ui[n := ui[n].(text := ui[n].text + text)][..n] == ui[..n];
      if before != [] && before[|before| - 1].kind == "text" {
        var md := MarkdownOf(before[|before| - 1].payload);
        assert md + (ui[n].text + text) == (md + ui[n].text) + text;
      }
    } else {
      MessagePartsSnoc(ui, UiText(s.runs + 1, text, false));
    }
  }

  lemma {:induction false} AgreeBeforeEnd(frames: seq<Frame>)
    requires Reconcilable(frames)
    ensures MessageParts(After(frames)) == FoldAll(frames)
  {
    if frames != [] {
      var front := frames[..|frames| - 1];
      var e := frames[|frames| - 1].event;
      AgreeBeforeEnd(front);
      TracksAlways(front);
      AfterStep(frames);
      FrameStep(Emitted(front).0, After(front), e);
    }
  }

  lemma ClosedIsInvisible(s: State, ui: seq<UiPart>)
    requires RunsFit(s, ui)
    ensures MessageParts(Closed(s, ui)) == MessageParts(ui)
  {
    if s.open.Some? {
      ClosingIsInvisible(ui);
    }
  }

  lemma WrittenStep(closed: seq<UiPart>, e: Event)
    requires TrueIds(closed) && !e.Token?
    requires e.Tool? ==> UiFirstBy(closed, ToolSeqOf(e.payload)) != ByPart
    requires e.NewPart? ==> e.part.kind != "phase"
    ensures MessageParts(Written(closed, e)) == FoldEvent(MessageParts(closed), e)
  {
    match e {
      case Tool(payload) => ToolStep(closed, payload);
      case NewPart(part) => MessagePartsSnoc(closed, UiData(part.kind, None, part.payload));
      case Error(payload) => MessagePartsSnoc(closed, UiData("error", None, payload));
      case _ =>
    }
  }

  lemma FrameStep(s: State, ui: seq<UiPart>, e: Event)
    requires RunsFit(s, ui) && TrueIds(ui)
    requires e.Tool? ==> UiFirstBy(ui, ToolSeqOf(e.payload)) != ByPart
    requires e.NewPart? ==> e.part.kind != "phase"
    ensures MessageParts(FrameOnUi(s, ui, e)) == FoldEvent(MessageParts(ui), e)
  {
    if e.Token? {
      TokenStep(s, ui, e.text);
    } else {
      ClosedIsInvisible(s, ui);
      FirstByClosed(s, ui, if e.Tool? then ToolSeqOf(e.payload) else None);
      WrittenStep(Closed(s, ui), e);
    }
  }

  /** `end()` adds no part. */
  lemma EndIsInvisible(frames: seq<Frame>)
    ensures MessageParts(Streamed(frames)) == MessageParts(After(frames))
  {
    TracksAlways(frames);
    var (s, chunks) := Emitted(frames);
    ReduceAppend([], chunks, Ended(s).1);
    if !s.finished {
      ReduceAppend(After(frames), CloseText(s), [ErrorText]);
      ReduceClose(s, After(frames));
      ReduceFew(ReduceAll(After(frames), CloseText(s)), ErrorText, ErrorText);
      ClosedIsInvisible(s, After(frames));
    }
  }

  // ---------------------------------------------------------------------
  // Where the two part ways they never meet again: counting
  // ---------------------------------------------------------------------

  function Count(parts: seq<Part>, kind: string): nat {
    if parts == [] then 0
    else Count(parts[..|parts| - 1], kind) + if parts[|parts| - 1].kind == kind then 1 else 0
  }

  function CountUi(ui: seq<UiPart>, kind: string): nat {
    if ui == [] then 0
    else
      CountUi(ui[..|ui| - 1], kind)
      + if ui[|ui| - 1].UiData? && ui[|ui| - 1].kind == kind then 1 else 0
  }

  lemma CountSnoc(parts: seq<Part>, p: Part, kind: string)
    ensures Count(parts + [p], kind) == Count(parts, kind) + if p.kind == kind then 1 else 0
  {
    assert (parts + [p])[..|parts|] == parts;
  }

  lemma {:induction false} CountUpdate(parts: seq<Part>, i: nat, p: Part, kind: string)
    requires i < |parts| && p.kind == parts[i].kind
    ensures Count(parts[i := p], kind) == Count(parts, kind)
  {
    var n := |parts| - 1;
    if i == n {
      assert parts[i := p][..n] == parts[..n];
    } else {
      assert parts[i := p][..n] == parts[..n][i := p];
      CountUpdate(parts[..n], i, p, kind);
    }
  }

  lemma CountToken(parts: seq<Part>, text: string, kind: string)
    requires kind != "text"
    ensures Count(FoldToken(parts, text), kind) == Count(parts, kind)
  {
    if parts != [] && parts[|parts| - 1].kind == "text" {
      CountUpdate(parts, |parts| - 1, FoldToken(parts, text)[|parts| - 1], kind);
    } else {
      CountSnoc(parts, Part("text", Markdown(text)), kind);
    }
  }

  lemma {:induction false} CountRead(ui: seq<UiPart>)
    ensures Count(MessageParts(ui), "phase") == 0
    ensures Count(MessageParts(ui), "tool_event") == CountUi(ui, "tool_event")
  {
    if ui != [] {
      var n := |ui| - 1;
      CountRead(ui[..n]);
      match ui[n] {
        case UiText(_, text, _) =>
          CountToken(MessageParts(ui[..n]), text, "phase");
          CountToken(MessageParts(ui[..n]), text, "tool_event");
        case UiData(kind, _, payload) =>
          CountSnoc(MessageParts(ui[..n]), Part(kind, payload), "phase");
          CountSnoc(MessageParts(ui[..n]), Part(kind, payload), "tool_event");
        case UiOther(_) =>
      }
    }
  }

  lemma CountUiSnoc(ui: seq<UiPart>, p: UiPart)
    ensures CountUi(ui + [p], "tool_event")
            == CountUi(ui, "tool_event") + if p.UiData? && p.kind == "tool_event" then 1 else 0
  {
    assert (ui + [p])[..|ui|] == ui;
  }

  lemma {:induction false} CountUiUpdate(ui: seq<UiPart>, i: nat, p: UiPart)
    requires i < |ui|
    requires (p.UiData? && p.kind == "tool_event") == (ui[i].UiData? && ui[i].kind == "tool_event")
    ensures CountUi(ui[i := p], "tool_event") == CountUi(ui, "tool_event")
  {
    var n := |ui| - 1;
    if i == n {
      assert ui[i := p][..n] == ui[..n];
    } else {
      assert ui[i := p][..n] == ui[..n][i := p];
      CountUiUpdate(ui[..n], i, p);
    }
  }

  ghost predicate HasId(ui: seq<UiPart>, t: Option<int>) {
    FindData(ui, "tool_event", ToolId(t)) < |ui|
  }

  lemma CountUiClosed(s: State, ui: seq<UiPart>)
    requires RunsFit(s, ui)
    ensures CountUi(Closed(s, ui), "tool_event") == CountUi(ui, "tool_event")
    ensures forall id :: FindData(Closed(s, ui), "tool_event", id) == FindData(ui, "tool_event", id)
  {
    if s.open.Some? {
      CountUiUpdate(ui, |ui| - 1, Closed(s, ui)[|ui| - 1]);
      forall id ensures FindData(Closed(s, ui), "tool_event", id) == FindData(ui, "tool_event", id) {
        SameIds(ui, Closed(s, ui), id);
      }
    }
  }

  lemma CountUiToken(s: State, ui: seq<UiPart>, text: string)
    requires RunsFit(s, ui)
    ensures CountUi(TokenOnUi(s, ui, text), "tool_event") == CountUi(ui, "tool_event")
  {
    if s.open.Some? {
      CountUiUpdate(ui, |ui| - 1, TokenOnUi(s, ui, text)[|ui| - 1]);
    } else {
      CountUiSnoc(ui, UiText(s.runs + 1, text, false));
    }
  }

  lemma CountUiWritten(closed: seq<UiPart>, e: Event)
    requires !e.Token?
    ensures CountUi(Written(closed, e), "tool_event")
            == CountUi(closed, "tool_event")
               + (if e.Tool? && !HasId(closed, ToolSeqOf(e.payload)) then 1
                  else if e.NewPart? && e.part.kind == "tool_event" then 1 else 0)
  {
    match e {
      case Tool(payload) =>
        var id := ToolId(ToolSeqOf(payload));
        var i := FindData(closed, "tool_event", id);
        if i < |closed| {
          CountUiUpdate(closed, i, UiData("tool_event", Some(id), payload));
        } else {
          CountUiSnoc(closed, UiData("tool_event", Some(id), payload));
        }
      case NewPart(part) => CountUiSnoc(closed, UiData(part.kind, None, part.payload));
      case Error(payload) => CountUiSnoc(closed, UiData("error", None, payload));
      case _ =>
    }
  }

  /** How many tool parts one frame adds to the streamed message. */
  lemma CountUiFrame(s: State, ui: seq<UiPart>, e: Event)
    requires RunsFit(s, ui)
    ensures CountUi(FrameOnUi(s, ui, e), "tool_event")
            == CountUi(ui, "tool_event")
               + (if e.Tool? && !HasId(ui, ToolSeqOf(e.payload)) then 1
                  else if e.NewPart? && e.part.kind == "tool_event" then 1 else 0)
  {
    if e.Token? {
      CountUiToken(s, ui, e.text);
    } else {
      CountUiClosed(s, ui);
      CountUiWritten(Closed(s, ui), e);
    }
  }

  lemma SameIds(a: seq<UiPart>, b: seq<UiPart>, id: DataId)
    requires |a| == |b|
    requires forall i :: 0 <= i < |a| ==> a[i] == b[i] || (a[i].UiText? && b[i].UiText?)
    ensures FindData(a, "tool_event", id) == FindData(b, "tool_event", id)
  {
  }

  lemma HasIdWritten(closed: seq<UiPart>, e: Event, t: Option<int>)
    requires !e.Token?
    ensures HasId(Written(closed, e), t) <==> HasId(closed, t) || (e.Tool? && ToolSeqOf(e.payload) == t)
  {
    var ui' := Written(closed, e);
    var i := FindData(closed, "tool_event", ToolId(t));
    if i < |closed| {
      assert ui'[i].UiData? && ui'[i].kind == "tool_event" && ui'[i].id == Some(ToolId(t));
    }
    var j := FindData(ui', "tool_event", ToolId(t));
    if j < |ui'| && !(e.Tool? && ToolSeqOf(e.payload) == t) {
      assert j < |closed| && ui'[j] == closed[j];
    }
    if e.Tool? && ToolSeqOf(e.payload) == t {
      assert ui'[i] == UiData("tool_event", Some(ToolId(t)), e.payload);
    }
  }

  lemma HasIdToken(s: State, ui: seq<UiPart>, text: string, t: Option<int>)
    requires RunsFit(s, ui)
    ensures HasId(TokenOnUi(s, ui, text), t) <==> HasId(ui, t)
  {
    var ui' := TokenOnUi(s, ui, text);
    var i, j := FindData(ui, "tool_event", ToolId(t)), FindData(ui', "tool_event", ToolId(t));
    assert i < |ui| ==> ui'[i] == ui[i];
    assert j < |ui'| ==> j < |ui| && ui'[j] == ui[j];
  }

  lemma HasIdFrame(s: State, ui: seq<UiPart>, e: Event, t: Option<int>)
    requires RunsFit(s, ui)
    ensures HasId(FrameOnUi(s, ui, e), t) <==> HasId(ui, t) || (e.Tool? && ToolSeqOf(e.payload) == t)
  {
    if e.Token? {
      HasIdToken(s, ui, e.text, t);
    } else {
      CountUiClosed(s, ui);
      HasIdWritten(Closed(s, ui), e, t);
    }
  }

  predicate ToolsUpdatable(frames: seq<Frame>) {
    frames == [] ||
    (ToolsUpdatable(frames[..|frames| - 1]) &&
     (frames[|frames| - 1].event.Tool? ==> Updatable(frames[..|frames| - 1], frames[|frames| - 1].event)))
  }

  ghost predicate Shows(parts: seq<Part>, t: Option<int>) {
    exists i :: 0 <= i < |parts| && IsTool(parts[i], t)
  }

  lemma ShownIsFound(parts: seq<Part>, t: Option<int>)
    ensures Shows(parts, t) <==> FindTool(parts, t) < |parts|
  {
  }

  lemma ShownByEvent(parts: seq<Part>, e: Event, t: Option<int>)
    ensures Shows(FoldEvent(parts, e), t)
            <==> Shows(parts, t) || (e.Tool? && ToolSeqOf(e.payload) == t) || (e.NewPart? && IsTool(e.part, t))
  {
    var parts' := FoldEvent(parts, e);
    if Shows(parts, t) {
      var i :| 0 <= i < |parts| && IsTool(parts[i], t);
      assert IsTool(parts'[i], t);
    }
    if e.Tool? {
      assert IsTool(parts'[FindTool(parts, ToolSeqOf(e.payload))], ToolSeqOf(e.payload));
    }
    if e.NewPart? {
      assert parts'[|parts|] == e.part;
    }
    if Shows(parts', t) {
      var i :| 0 <= i < |parts'| && IsTool(parts'[i], t);
      assert i < |parts| && parts'[i] == parts[i] ==> Shows(parts, t);
    }
  }

  /** The direct fold shows a tool exactly when some frame has named it. */
  lemma {:induction false} NamedIsShown(frames: seq<Frame>, t: Option<int>)
    ensures Shows(FoldAll(frames), t) <==> FirstBy(frames, t) != Nobody
  {
    if frames != [] {
      NamedIsShown(frames[..|frames| - 1], t);
      ShownByEvent(FoldAll(frames[..|frames| - 1]), frames[|frames| - 1].event, t);
    }
  }

  ghost predicate Excess(frames: seq<Frame>) {
    var shown := Count(FoldAll(frames), "tool_event");
    var streamed := CountUi(After(frames), "tool_event");
    && shown <= streamed
    && (forall t :: FirstBy(frames, t) == ByPart && HasId(After(frames), t) ==> shown < streamed)
    && (!ToolsUpdatable(frames) ==> shown < streamed)
    && (forall t :: HasId(After(frames), t) ==> FirstBy(frames, t) != Nobody)
    && (forall t :: FirstBy(frames, t) == ByTool ==> HasId(After(frames), t))
  }

  lemma CountFold(frames: seq<Frame>)
    requires frames != []
    ensures var front := frames[..|frames| - 1];
            var e := frames[|frames| - 1].event;
            Count(FoldAll(frames), "tool_event")
            == Count(FoldAll(front), "tool_event")
               + (if e.Tool? && FirstBy(front, ToolSeqOf(e.payload)) == Nobody then 1
                  else if e.NewPart? && e.part.kind == "tool_event" then 1 else 0)
  {
    var front := frames[..|frames| - 1];
    var parts := FoldAll(front);
    match frames[|frames| - 1].event {
      case Tool(payload) =>
        var t := ToolSeqOf(payload);
        NamedIsShown(front, t);
        ShownIsFound(parts, t);
        var i := FindTool(parts, t);
        if i < |parts| {
          CountUpdate(parts, i, Part("tool_event", payload), "tool_event");
        } else {
          CountSnoc(parts, Part("tool_event", payload), "tool_event");
        }
      case Token(text) => CountToken(parts, text, "tool_event");
      case NewPart(part) => CountSnoc(parts, part, "tool_event");
      case Error(payload) => CountSnoc(parts, Part("error", payload), "tool_event");
      case _ =>
    }
  }

  lemma {:induction false} ExcessAlways(frames: seq<Frame>)
    ensures Excess(frames)
  {
    if frames != [] {
      var front := frames[..|frames| - 1];
      var e := frames[|frames| - 1].event;
      var s := Emitted(front).0;
      ExcessAlways(front);
      TracksAlways(front);
      AfterStep(frames);
      CountFold(frames);
      CountUiFrame(s, After(front), e);
      forall t ensures HasId(After(frames), t) <==> HasId(After(front), t) || (e.Tool? && ToolSeqOf(e.payload) == t) {
        HasIdFrame(s, After(front), e, t);
      }
    }
  }

  lemma {:induction false} PhasePartsStay(frames: seq<Frame>)
    requires Count(FoldAll(frames), "phase") == 0
    ensures Reconcilable(frames) <==> ToolsUpdatable(frames)
  {
    if frames != [] {
      var parts := FoldAll(frames[..|frames| - 1]);
      match frames[|frames| - 1].event {
        case Tool(payload) =>
          var i := FindTool(parts, ToolSeqOf(payload));
          if i < |parts| {
            CountUpdate(parts, i, Part("tool_event", payload), "phase");
          } else {
            CountSnoc(parts, Part("tool_event", payload), "phase");
          }
        case Token(text) => CountToken(parts, text, "phase");
        case NewPart(part) => CountSnoc(parts, part, "phase");
        case Error(payload) => CountSnoc(parts, Part("error", payload), "phase");
        case _ =>
      }
      PhasePartsStay(frames[..|frames| - 1]);
    }
  }

  /** The compiled pipeline and the direct fold show the same parts if and only
      if the turn is reconcilable. */
  lemma AgreeIff(frames: seq<Frame>)
    ensures MessageParts(Streamed(frames)) == FoldAll(frames) <==> Reconcilable(frames)
  {
    EndIsInvisible(frames);
    if Reconcilable(frames) {
      AgreeBeforeEnd(frames);
    } else if MessageParts(Streamed(frames)) == FoldAll(frames) {
      CountRead(After(frames));
      PhasePartsStay(frames);
      ExcessAlways(frames);
      assert false;
    }
  }

  /** Part kinds that belong to no frame of their own are always reconcilable:
      the turns every producer emits today. */
  lemma {:induction false} OrdinaryTurnsAreReconcilable(frames: seq<Frame>)
    requires forall i :: 0 <= i < |frames| && frames[i].event.NewPart? ==>
               frames[i].event.part.kind != "phase" && frames[i].event.part.kind != "tool_event"
    ensures Reconcilable(frames)
    ensures forall s :: FirstBy(frames, s) != ByPart
  {
    if frames != [] {
      OrdinaryTurnsAreReconcilable(frames[..|frames| - 1]);
    }
  }

  // ---------------------------------------------------------------------
  // Replay of a finished turn: its persisted parts, one part frame each
  // ---------------------------------------------------------------------

  function ReplayEvents(turnIndex: int, parts: seq<Part>, usage: string): seq<Event> {
    [Accepted(turnIndex)] + seq(|parts|, i requires 0 <= i < |parts| => NewPart(parts[i])) + [Done(usage, None, true)]
  }

  ghost predicate Carries(frames: seq<Frame>, events: seq<Event>) {
    |frames| == |events| && forall i :: 0 <= i < |frames| ==> frames[i].event == events[i]
  }

  /** A replay shows and persists again exactly the parts persisted the first
      time: tool parts stay apart and no text part merges. It streams them, too,
      just when none of them is a phase marker. */
  lemma ReplayIsIdentity(frames: seq<Frame>, turnIndex: int, parts: seq<Part>, usage: string)
    requires Carries(frames, ReplayEvents(turnIndex, parts, usage))
    ensures FoldAll(frames) == PersistAll(frames) == parts
    ensures MessageParts(Streamed(frames)) == parts <==> forall i :: 0 <= i < |parts| ==> parts[i].kind != "phase"
  {
    var n := |parts| + 1;
    ReplayFrames(frames, turnIndex, parts, usage);
    ReplayPrefix(frames, parts, n);
    assert parts[..|parts|] == parts;
    DoneAddsNothing(frames);
    AgreeIff(frames);
  }

  lemma ReplayFrames(frames: seq<Frame>, turnIndex: int, parts: seq<Part>, usage: string)
    requires Carries(frames, ReplayEvents(turnIndex, parts, usage))
    ensures |frames| == |parts| + 2 && frames[0].event.Accepted? && frames[|frames| - 1].event.Done?
    ensures forall i :: 1 <= i <= |parts| ==> frames[i].event == NewPart(parts[i - 1])
  {
  }

  lemma DoneAddsNothing(frames: seq<Frame>)
    requires frames != [] && frames[|frames| - 1].event.Done?
    ensures var front := frames[..|frames| - 1];
            FoldAll(frames) == FoldAll(front) && PersistAll(frames) == PersistAll(front)
            && Reconcilable(frames) == Reconcilable(front)
  {
  }

  lemma {:induction false} ReplayPrefix(frames: seq<Frame>, parts: seq<Part>, n: nat)
    requires 1 <= n <= |parts| + 1 && n <= |frames| && frames[0].event.Accepted?
    requires forall i :: 1 <= i < n ==> frames[i].event == NewPart(parts[i - 1])
    ensures FoldAll(frames[..n]) == PersistAll(frames[..n]) == parts[..n - 1]
    ensures Reconcilable(frames[..n]) <==> forall i :: 0 <= i < n - 1 ==> parts[i].kind != "phase"
  {
    assert frames[..n][..n - 1] == frames[..n - 1];
    if n == 1 {
      assert frames[..0] == [];
    } else {
      ReplayPrefix(frames, parts, n - 1);
      assert parts[..n - 1] == parts[..n - 2] + [parts[n - 2]];
    }
  }
}
