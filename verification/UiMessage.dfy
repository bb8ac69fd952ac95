/**
  The browser's message: the chat SDK's reducer over chunks (a specification:
  text parts keyed by run, data parts upserted by kind and id, transient parts
  not stored), and the two adapters between SDK parts and persisted parts.
 */
module UiMessage {
  import opened Common
  import opened Frames
  import opened Translator

  // `run` is the streamed run a text part belongs to; 0 for one loaded from
  // history. `UiOther` is any SDK part that is neither text nor data.
  datatype UiPart =
    | UiText(run: nat, text: string, done: bool)
    | UiData(kind: string, id: Option<DataId>, payload: Payload)
    | UiOther(tag: string)

  function FindRun(ui: seq<UiPart>, run: nat): (i: nat)
    ensures i <= |ui|
    ensures i < |ui| ==> ui[i].UiText? && ui[i].run == run && !ui[i].done
  {
    if ui == [] then 0
    else
      var last := ui[|ui| - 1];
      if last.UiText? && last.run == run && !last.done then |ui| - 1
      else
        var i := FindRun(ui[..|ui| - 1], run);
        if i < |ui| - 1 then i else |ui|
  }

  function FindData(ui: seq<UiPart>, kind: string, id: DataId): (i: nat)
    ensures i <= |ui|
    ensures i < |ui| ==> ui[i].UiData? && ui[i].kind == kind && ui[i].id == Some(id)
    ensures forall j :: 0 <= j < i ==> !(ui[j].UiData? && ui[j].kind == kind && ui[j].id == Some(id))
  {
    if ui == [] then 0
    else if ui[0].UiData? && ui[0].kind == kind && ui[0].id == Some(id) then 0
    else 1 + FindData(ui[1..], kind, id)
  }

  /** One chunk applied to the message being streamed. */
  function Reduce(ui: seq<UiPart>, c: Chunk): seq<UiPart> {
    match c
    case TextStart(run) => ui + [UiText(run, "", false)]
    case TextDelta(run, delta) =>
      var i := FindRun(ui, run);
      if i < |ui| then ui[i := ui[i].(text := ui[i].text + delta)] else ui
    case TextEnd(run) =>
      var i := FindRun(ui, run);
      if i < |ui| then ui[i := ui[i].(done := true)] else ui
    case Data(kind, id, payload, transient) =>
      if transient then ui
      else
        var i := if id.Some? then FindData(ui, kind, id.value) else |ui|;
        if i < |ui| then ui[i := UiData(kind, id, payload)] else ui + [UiData(kind, id, payload)]
    case _ => ui
  }

  function ReduceAll(ui: seq<UiPart>, chunks: seq<Chunk>): seq<UiPart>
    decreases |chunks|
  {
    if chunks == [] then ui else ReduceAll(Reduce(ui, chunks[0]), chunks[1..])
  }

  lemma {:induction false} ReduceAppend(ui: seq<UiPart>, a: seq<Chunk>, b: seq<Chunk>)
    ensures ReduceAll(ui, a + b) == ReduceAll(ReduceAll(ui, a), b)
    decreases |a|
  {
    if a == [] {
      assert a + b == b;
    } else {
      assert (a + b)[1..] == a[1..] + b;
      ReduceAppend(Reduce(ui, a[0]), a[1..], b);
    }
  }

  // ---------------------------------------------------------------------
  // toMessageParts / fromMessageParts
  // ---------------------------------------------------------------------

  /** What one SDK part adds to the persisted parts built so far. */
  function Absorb(out: seq<Part>, p: UiPart): seq<Part> {
    match p
    case UiText(_, text, _) => FoldToken(out, text)
    case UiData(kind, _, payload) => if kind == "phase" then out else out + [Part(kind, payload)]
    case UiOther(_) => out
  }

  function MessageParts(ui: seq<UiPart>): seq<Part> {
    if ui == [] then [] else Absorb(MessageParts(ui[..|ui| - 1]), ui[|ui| - 1])
  }

  function FromPart(p: Part): UiPart {
    if p.kind == "text" then UiText(0, MarkdownOf(p.payload), true)
    else if p.kind == "tool_event" then UiData("tool_event", Some(ToolId(ToolSeqOf(p.payload))), p.payload)
    else UiData(p.kind, None, p.payload)
  }

  function FromMessageParts(parts: seq<Part>): seq<UiPart> {
    seq(|parts|, i requires 0 <= i < |parts| => FromPart(parts[i]))
  }

  method ToMessageParts(parts: seq<UiPart>) returns (out: seq<Part>)
    ensures out == MessageParts(parts)
  {
    out := [];
    for i := 0 to |parts|
      invariant out == MessageParts(parts[..i])
    {
      var part := parts[i];
      assert parts[..i + 1][..i] == parts[..i];
      if part.UiOther? || (part.UiData? && part.kind == "phase") {
        continue;
      }
      if part.UiText? {
        if out != [] && out[|out| - 1].kind == "text" {
          var md := MarkdownOf(out[|out| - 1].payload) + part.text;
          out := out[|out| - 1 := Part("text", Markdown(md))];
        } else {
          out := out + [Part("text", Markdown(part.text))];
        }
        continue;
      }
      out := out + [Part(part.kind, part.payload)];
    }
    assert parts[..|parts|] == parts;
  }

  /** Saving after loading. */
  function Resaved(parts: seq<Part>): seq<Part> {
    MessageParts(FromMessageParts(parts))
  }

  /** No phase part, no two text parts in a row, every text part a markdown one. */
  ghost predicate Normal(parts: seq<Part>) {
    forall i :: 0 <= i < |parts| ==>
      && parts[i].kind != "phase"
      && (parts[i].kind == "text" ==> parts[i].payload.Markdown?)
      && (parts[i].kind == "text" && i > 0 ==> parts[i - 1].kind != "text")
  }

  function AllText(parts: seq<Part>): string {
    if parts == [] then ""
    else
      var last := parts[|parts| - 1];
      AllText(parts[..|parts| - 1]) + if last.kind == "text" then MarkdownOf(last.payload) else ""
  }

  function NonText(parts: seq<Part>): seq<Part> {
    if parts == [] then []
    else
      var last := parts[|parts| - 1];
      NonText(parts[..|parts| - 1]) + if last.kind == "text" || last.kind == "phase" then [] else [last]
  }

  lemma ResavedStep(parts: seq<Part>)
    requires parts != []
    ensures Resaved(parts) == Absorb(Resaved(parts[..|parts| - 1]), FromPart(parts[|parts| - 1]))
  {
    var n := |parts| - 1;
    assert FromMessageParts(parts)[..n] == FromMessageParts(parts[..n]);
  }

  lemma AllTextSnoc(out: seq<Part>, p: Part)
    ensures AllText(out + [p]) == AllText(out) + if p.kind == "text" then MarkdownOf(p.payload) else ""
    ensures NonText(out + [p]) == NonText(out) + if p.kind == "text" || p.kind == "phase" then [] else [p]
  {
    assert (out + [p])[..|out|] == out;
  }

  lemma TokenKeeps(out: seq<Part>, text: string)
    ensures AllText(FoldToken(out, text)) == AllText(out) + text
    ensures NonText(FoldToken(out, text)) == NonText(out)
  {
    if out != [] && out[|out| - 1].kind == "text" {
      var n := |out| - 1;
      assert FoldToken(out, text)[..n] == out[..n];
      assert AllText(out[..n]) + (MarkdownOf(out[n].payload) + text)
          == (AllText(out[..n]) + MarkdownOf(out[n].payload)) + text;
    } else {
      AllTextSnoc(out, Part("text", Markdown(text)));
    }
  }

  lemma AbsorbKeeps(out: seq<Part>, p: Part)
    ensures AllText(Absorb(out, FromPart(p))) == AllText(out) + if p.kind == "text" then MarkdownOf(p.payload) else ""
    ensures NonText(Absorb(out, FromPart(p)))
            == NonText(out) + if p.kind == "text" || p.kind == "phase" then [] else [p]
  {
    if p.kind == "text" {
      TokenKeeps(out, MarkdownOf(p.payload));
    } else if p.kind != "phase" {
      AllTextSnoc(out, p);
    }
  }

  lemma AbsorbNormal(out: seq<Part>, p: Part)
    requires Normal(out)
    ensures Normal(Absorb(out, FromPart(p)))
  {
  }

  /** Saving after loading always yields a normal list, and loses no text and no
      other part but phase markers. */
  lemma {:induction false} ResavedPreserves(parts: seq<Part>)
    ensures Normal(Resaved(parts))
    ensures AllText(Resaved(parts)) == AllText(parts)
    ensures NonText(Resaved(parts)) == NonText(parts)
  {
    if parts != [] {
      ResavedPreserves(parts[..|parts| - 1]);
      ResavedStep(parts);
      AbsorbKeeps(Resaved(parts[..|parts| - 1]), parts[|parts| - 1]);
      AbsorbNormal(Resaved(parts[..|parts| - 1]), parts[|parts| - 1]);
    }
  }

  lemma {:induction false} NormalIsFixed(parts: seq<Part>)
    requires Normal(parts)
    ensures Resaved(parts) == parts
  {
    if parts != [] {
      NormalIsFixed(parts[..|parts| - 1]);
      ResavedStep(parts);
    }
  }

  /** Loading then saving is the identity exactly on normal lists, and on any
      list a second round changes nothing more. */
  lemma RoundTripIff(parts: seq<Part>)
    ensures Resaved(parts) == parts <==> Normal(parts)
    ensures Resaved(Resaved(parts)) == Resaved(parts)
  {
    ResavedPreserves(parts);
    NormalIsFixed(Resaved(parts));
    if Normal(parts) {
      NormalIsFixed(parts);
    }
  }

  // ---------------------------------------------------------------------
  // Streaming into a loaded message
  // ---------------------------------------------------------------------

  lemma {:induction false} LoadedToolIsFound(parts: seq<Part>, s: Option<int>)
    ensures FindData(FromMessageParts(parts), "tool_event", ToolId(s)) == FindTool(parts, s)
  {
    if parts != [] {
      assert FromMessageParts(parts)[1..] == FromMessageParts(parts[1..]);
      LoadedToolIsFound(parts[1..], s);
    }
  }

  /** A tool's chunk finds the tool in a loaded message as a tool frame finds it
      in the persisted parts: loading first or folding first is the same. */
  lemma LoadedToolIsUpdated(parts: seq<Part>, payload: Payload)
    ensures Reduce(FromMessageParts(parts), Data("tool_event", Some(ToolId(ToolSeqOf(payload))), payload, false))
            == FromMessageParts(UpsertTool(parts, payload))
  {
    LoadedToolIsFound(parts, ToolSeqOf(payload));
    var streamed := Reduce(FromMessageParts(parts),
                           Data("tool_event", Some(ToolId(ToolSeqOf(payload))), payload, false));
    var folded := FromMessageParts(UpsertTool(parts, payload));
    assert forall i :: 0 <= i < |folded| ==> streamed[i] == folded[i];
  }

  lemma {:induction false} LoadedTextIsClosed(parts: seq<Part>, run: nat)
    ensures FindRun(FromMessageParts(parts), run) == |parts|
  {
    if parts != [] {
      assert FromMessageParts(parts)[..|parts| - 1] == FromMessageParts(parts[..|parts| - 1]);
      LoadedTextIsClosed(parts[..|parts| - 1], run);
    }
  }

  /** No other chunk changes what was loaded: text that streams in starts a part
      of its own. */
  lemma LoadedPartsStay(parts: seq<Part>, c: Chunk)
    requires c.Data? ==> c.id == None || c.transient
    ensures FromMessageParts(parts) <= Reduce(FromMessageParts(parts), c)
    ensures c.TextDelta? || c.TextEnd? ==> Reduce(FromMessageParts(parts), c) == FromMessageParts(parts)
  {
    if c.TextDelta? || c.TextEnd? {
      LoadedTextIsClosed(parts, c.run);
    }
  }
}
