/**
  The envelope sink of `events.py`: frames numbered from 1, and the parts of a
  tool dispatch streamed early through the turn's one emitter closure.
 */
module Sink {
  import opened Common
  import opened Frames

  /** One tool dispatch: what its skill streamed early, and what it returned.
      `early` and `parts` are the skill's; `extras` are the proof and artifact
      parts the sink derives from the result. */
  datatype Dispatch = Dispatch(skill: string, early: seq<Part>, ok: bool, parts: seq<Part>, extras: seq<Part>)

  function ToolFrame(toolSeq: int, skill: string, status: string): Event {
    Tool(ToolInfo(toolSeq, skill + ":" + status))
  }

  function WireStatus(ok: bool): string {
    if ok then "done" else "error"
  }

  function AsEvents(parts: seq<Part>): seq<Event> {
    seq(|parts|, i requires 0 <= i < |parts| => NewPart(parts[i]))
  }

  function EventsOf(frames: seq<Frame>): seq<Event> {
    seq(|frames|, i requires 0 <= i < |frames| => frames[i].event)
  }

  /** Python's `xs[n:]`: empty past the end. */
  function From(parts: seq<Part>, n: nat): seq<Part> {
    if n <= |parts| then parts[n..] else []
  }

  class SseEnvelopeSink {
    const turnId: string
    const messageId: string
    var eventSeq: nat
    var toolResultParts: map<int, seq<Part>>
    var streamedCounts: map<int, nat>
    var sent: seq<Frame>

    ghost predicate Valid()
      reads this`sent, this`eventSeq
    {
      && eventSeq == |sent|
      && (forall i :: 0 <= i < |sent| ==>
            sent[i].turnId == turnId && sent[i].messageId == messageId && sent[i].eventSeq == i + 1)
    }

    function Wire(): seq<Event>
      reads this`sent
    {
      EventsOf(sent)
    }

    constructor (turnId: string, messageId: string)
      ensures Valid() && Wire() == [] && streamedCounts == map[] && toolResultParts == map[]
      ensures this.turnId == turnId && this.messageId == messageId
    {
      this.turnId, this.messageId := turnId, messageId;
      eventSeq, toolResultParts, streamedCounts, sent := 0, map[], map[], [];
    }

    method Push(e: Event)
      requires Valid()
      modifies this`eventSeq, this`sent
      ensures Valid() && Wire() == old(Wire()) + [e]
    {
      eventSeq := eventSeq + 1;
      sent := sent + [Frame(turnId, messageId, eventSeq, e)];
    }

    method PushParts(parts: seq<Part>)
      requires Valid()
      modifies this`eventSeq, this`sent
      ensures Valid() && Wire() == old(Wire()) + AsEvents(parts)
    {
      for i := 0 to |parts|
        invariant Valid() && Wire() == old(Wire()) + AsEvents(parts[..i])
      {
        Push(NewPart(parts[i]));
      }
      assert parts[..|parts|] == parts;
    }

    /** `part_emitter`: from here on the closure for `toolSeq` is live. */
    method PartEmitter(toolSeq: int)
      requires Valid()
      modifies this`streamedCounts
      ensures Valid() && Wire() == old(Wire())
      ensures streamedCounts == old(streamedCounts)[toolSeq := 0]
    {
      streamedCounts := streamedCounts[toolSeq := 0];
    }

    /** The closure `part_emitter(toolSeq)` returned, called with one part. */
    method EmitPart(toolSeq: int, part: Part)
      requires Valid()
      modifies this`eventSeq, this`sent, this`streamedCounts
      ensures Valid()
      ensures toolSeq !in old(streamedCounts) ==>
                Wire() == old(Wire()) && streamedCounts == old(streamedCounts)
      ensures toolSeq in old(streamedCounts) ==>
                Wire() == old(Wire()) + [NewPart(part)]
                && streamedCounts == old(streamedCounts)[toolSeq := old(streamedCounts)[toolSeq] + 1]
    {
      if toolSeq !in streamedCounts {
        return;
      }
      Push(NewPart(part));
      streamedCounts := streamedCounts[toolSeq := streamedCounts[toolSeq] + 1];
    }

    method HandleToolDone(toolSeq: int, d: Dispatch)
      requires Valid()
      modifies this`eventSeq, this`sent, this`streamedCounts, this`toolResultParts
      ensures Valid()
      ensures streamedCounts == old(streamedCounts) - {toolSeq}
      ensures toolResultParts == old(toolResultParts)[toolSeq := d.parts]
      ensures var streamed := if toolSeq in old(streamedCounts) then old(streamedCounts)[toolSeq] else 0;
              Wire() == old(Wire()) + ([ToolFrame(toolSeq, d.skill, WireStatus(d.ok))]
                                       + AsEvents(From(d.parts, streamed) + d.extras))
    {
      toolResultParts := toolResultParts[toolSeq := d.parts];
      Push(ToolFrame(toolSeq, d.skill, WireStatus(d.ok)));
      var streamed := if toolSeq in streamedCounts then streamedCounts[toolSeq] else 0;
      streamedCounts := streamedCounts - {toolSeq};
      var late := From(d.parts, streamed);
      PushParts(late);
      PushParts(d.extras);
      ghost var end := [ToolFrame(toolSeq, d.skill, WireStatus(d.ok))];
      assert AsEvents(late + d.extras) == AsEvents(late) + AsEvents(d.extras);
      Associate(old(Wire()), end, AsEvents(late + d.extras));
      Associate(old(Wire()) + end, AsEvents(late), AsEvents(d.extras));
    }

    /** One dispatch of the agent loop: announce it, run the skill, which calls
        the turn's closure for tool 1 whatever its own number, announce its end. */
    method DispatchOne(toolSeq: int, d: Dispatch)
      requires Valid() && toolSeq >= 1
      requires streamedCounts == if toolSeq == 1 then map[1 := 0] else map[]
      modifies this`eventSeq, this`sent, this`streamedCounts, this`toolResultParts
      ensures Valid() && streamedCounts == map[]
      ensures Wire() == old(Wire()) + DispatchEvents(toolSeq, d)
    {
      Push(ToolFrame(toolSeq, d.skill, "start"));
      ghost var before := Wire();
      for i := 0 to |d.early|
        invariant Valid()
        invariant streamedCounts == if toolSeq == 1 then map[1 := i] else map[]
        invariant Wire() == before + if toolSeq == 1 then AsEvents(d.early[..i]) else []
      {
        EmitPart(1, d.early[i]);
      }
      assert d.early[..|d.early|] == d.early;
      HandleToolDone(toolSeq, d);
    }

    /** Every dispatch of a turn, behind whatever has been sent already, the
        emitter built once before the first. */
    method RunDispatches(ds: seq<Dispatch>)
      requires Valid() && streamedCounts == map[]
      modifies this
      ensures Valid() && Wire() == old(Wire()) + TurnEvents(ds)
    {
      PartEmitter(1);
      for i := 0 to |ds|
        invariant Valid() && Wire() == old(Wire()) + TurnEvents(ds[..i])
        invariant streamedCounts == if i == 0 then map[1 := 0] else map[]
      {
        assert ds[..i + 1][..i] == ds[..i];
        Associate(old(Wire()), TurnEvents(ds[..i]), DispatchEvents(i + 1, ds[i]));
        DispatchOne(i + 1, ds[i]);
      }
      assert ds[..|ds|] == ds;
    }
  }

  /** What dispatch number `k` of a turn puts on the wire. */
  function DispatchEvents(k: int, d: Dispatch): seq<Event> {
    [ToolFrame(k, d.skill, "start")] + (if k == 1 then AsEvents(d.early) else [])
    + ([ToolFrame(k, d.skill, WireStatus(d.ok))]
       + AsEvents(From(d.parts, if k == 1 then |d.early| else 0) + d.extras))
  }

  function TurnEvents(ds: seq<Dispatch>): seq<Event> {
    if ds == [] then [] else TurnEvents(ds[..|ds| - 1]) + DispatchEvents(|ds|, ds[|ds| - 1])
  }

  /** The parts an event stream carries, in order. */
  function PartsOf(events: seq<Event>): seq<Part> {
    if events == [] then []
    else
      PartsOf(events[..|events| - 1])
      + if events[|events| - 1].NewPart? then [events[|events| - 1].part] else []
  }

  /** The parts the dispatches of a turn returned, in order. */
  function Returned(ds: seq<Dispatch>): seq<Part> {
    if ds == [] then [] else Returned(ds[..|ds| - 1]) + (ds[|ds| - 1].parts + ds[|ds| - 1].extras)
  }

  lemma {:induction false} PartsAppend(a: seq<Event>, b: seq<Event>)
    ensures PartsOf(a + b) == PartsOf(a) + PartsOf(b)
  {
    if b == [] {
      assert a + b == a;
    } else {
      PartsAppend(a, b[..|b| - 1]);
      assert (a + b)[..|a + b| - 1] == a + b[..|b| - 1];
    }
  }

  lemma {:induction false} PartsOfParts(parts: seq<Part>)
    ensures PartsOf(AsEvents(parts)) == parts
  {
    if parts != [] {
      PartsOfParts(parts[..|parts| - 1]);
      assert AsEvents(parts)[..|parts| - 1] == AsEvents(parts[..|parts| - 1]);
    }
  }

  lemma ToolThenParts(k: int, skill: string, status: string, parts: seq<Part>)
    ensures PartsOf([ToolFrame(k, skill, status)] + AsEvents(parts)) == parts
  {
    PartsAppend([ToolFrame(k, skill, status)], AsEvents(parts));
    PartsOfParts(parts);
  }

  lemma DispatchParts(k: int, d: Dispatch)
    ensures PartsOf(DispatchEvents(k, d))
            == (if k == 1 then d.early + From(d.parts, |d.early|) else d.parts) + d.extras
  {
    var early := if k == 1 then d.early else [];
    var late := From(d.parts, if k == 1 then |d.early| else 0);
    ToolThenParts(k, d.skill, "start", early);
    ToolThenParts(k, d.skill, WireStatus(d.ok), late + d.extras);
    assert AsEvents([]) == [];
    PartsAppend([ToolFrame(k, d.skill, "start")] + AsEvents(early),
                [ToolFrame(k, d.skill, WireStatus(d.ok))] + AsEvents(late + d.extras));
  }

  /** Skipping by count delivers a list exactly once when what was streamed is a
      prefix of it, and only then. */
  lemma CountSkipIff(early: seq<Part>, parts: seq<Part>, extras: seq<Part>)
    ensures early + From(parts, |early|) + extras == parts + extras <==> early <= parts
  {
    var l := early + From(parts, |early|);
    if l + extras == parts + extras {
      assert |l| == |parts|;
      assert l == (l + extras)[..|l|] == (parts + extras)[..|parts|] == parts;
    }
  }

  /** Every dispatch's parts reach the wire exactly once and in order, retries
      and later dispatches included, if and only if what the first dispatch
      streamed early is a prefix of what it returned. */
  lemma {:induction false} PartsOnceIff(ds: seq<Dispatch>)
    ensures PartsOf(TurnEvents(ds)) == Returned(ds) <==> ds == [] || ds[0].early <= ds[0].parts
  {
    if |ds| == 1 {
      assert TurnEvents(ds[..0]) == [] && Returned(ds[..0]) == [];
      assert TurnEvents(ds) == DispatchEvents(1, ds[0]);
      assert Returned(ds) == ds[0].parts + ds[0].extras;
      DispatchParts(1, ds[0]);
      CountSkipIff(ds[0].early, ds[0].parts, ds[0].extras);
    } else if ds != [] {
      var n := |ds| - 1;
      PartsOnceIff(ds[..n]);
      PartsAppend(TurnEvents(ds[..n]), DispatchEvents(|ds|, ds[n]));
      DispatchParts(|ds|, ds[n]);
      Cancel(PartsOf(TurnEvents(ds[..n])), Returned(ds[..n]), ds[n].parts + ds[n].extras);
    }
  }

  lemma Cancel(a: seq<Part>, b: seq<Part>, c: seq<Part>)
    ensures a + c == b + c <==> a == b
  {
    if a + c == b + c {
      assert |a| == |b|;
      assert a == (a + c)[..|a|] == (b + c)[..|b|] == b;
    }
  }

  // ---------------------------------------------------------------------
  // The status lines
  // ---------------------------------------------------------------------

  /** The tool frames of an event stream, in order. */
  function ToolsOf(events: seq<Event>): seq<Payload> {
    if events == [] then []
    else
      ToolsOf(events[..|events| - 1])
      + if events[|events| - 1].Tool? then [events[|events| - 1].payload] else []
  }

  lemma {:induction false} ToolsAppend(a: seq<Event>, b: seq<Event>)
    ensures ToolsOf(a + b) == ToolsOf(a) + ToolsOf(b)
  {
    if b == [] {
      assert a + b == a;
    } else {
      ToolsAppend(a, b[..|b| - 1]);
      assert (a + b)[..|a + b| - 1] == a + b[..|b| - 1];
    }
  }

  lemma {:induction false} PartsNameNoTool(parts: seq<Part>)
    ensures ToolsOf(AsEvents(parts)) == []
  {
    if parts != [] {
      PartsNameNoTool(parts[..|parts| - 1]);
      assert AsEvents(parts)[..|parts| - 1] == AsEvents(parts[..|parts| - 1]);
    }
  }

  lemma ToolThenNone(k: int, skill: string, status: string, parts: seq<Part>)
    ensures ToolsOf([ToolFrame(k, skill, status)] + AsEvents(parts)) == [ToolInfo(k, skill + ":" + status)]
  {
    var e := ToolFrame(k, skill, status);
    ToolsAppend([e], AsEvents(parts));
    PartsNameNoTool(parts);
    assert [e][..0] == [];
  }

  lemma DispatchTools(k: int, d: Dispatch)
    ensures ToolsOf(DispatchEvents(k, d))
            == [ToolInfo(k, d.skill + ":" + "start"), ToolInfo(k, d.skill + ":" + if d.ok then "done" else "error")]
  {
    var early := if k == 1 then d.early else [];
    var late := From(d.parts, if k == 1 then |d.early| else 0);
    ToolThenNone(k, d.skill, "start", early);
    ToolThenNone(k, d.skill, WireStatus(d.ok), late + d.extras);
    assert AsEvents([]) == [];
    ToolsAppend([ToolFrame(k, d.skill, "start")] + AsEvents(early),
                [ToolFrame(k, d.skill, WireStatus(d.ok))] + AsEvents(late + d.extras));
  }

  function Lines(ds: seq<Dispatch>): seq<Payload> {
    ToolsOf(TurnEvents(ds))
  }

  lemma LinesStep(ds: seq<Dispatch>)
    requires ds != []
    ensures var n := |ds| - 1;
            Lines(ds) == Lines(ds[..n])
                         + [ToolInfo(n + 1, ds[n].skill + ":" + "start"),
                            ToolInfo(n + 1, ds[n].skill + ":" + if ds[n].ok then "done" else "error")]
  {
    var n := |ds| - 1;
    ToolsAppend(TurnEvents(ds[..n]), DispatchEvents(|ds|, ds[n]));
    DispatchTools(|ds|, ds[n]);
  }

  lemma {:induction false} TwoLinesEach(ds: seq<Dispatch>)
    ensures |Lines(ds)| == 2 * |ds|
  {
    if ds != [] {
      TwoLinesEach(ds[..|ds| - 1]);
      LinesStep(ds);
    }
  }

  lemma {:induction false} LinesOf(ds: seq<Dispatch>, i: nat)
    requires i < |ds|
    ensures |Lines(ds)| == 2 * |ds|
    ensures Lines(ds)[2 * i] == ToolInfo(i + 1, ds[i].skill + ":" + "start")
    ensures Lines(ds)[2 * i + 1] == ToolInfo(i + 1, ds[i].skill + ":" + if ds[i].ok then "done" else "error")
  {
    var front := ds[..|ds| - 1];
    TwoLinesEach(ds);
    TwoLinesEach(front);
    LinesStep(ds);
    if i < |front| {
      LinesOf(front, i);
    }
  }

  /** The status lines of a turn: for each dispatch, numbered from 1, its start
      and then its end, which says whether it went well; and no others. */
  lemma EveryDispatchStartsAndEnds(ds: seq<Dispatch>)
    ensures |ToolsOf(TurnEvents(ds))| == 2 * |ds|
    ensures forall i :: 0 <= i < |ds| ==>
              && ToolsOf(TurnEvents(ds))[2 * i] == ToolInfo(i + 1, ds[i].skill + ":" + "start")
              && ToolsOf(TurnEvents(ds))[2 * i + 1]
                 == ToolInfo(i + 1, ds[i].skill + ":" + if ds[i].ok then "done" else "error")
  {
    TwoLinesEach(ds);
    forall i | 0 <= i < |ds|
      ensures && Lines(ds)[2 * i] == ToolInfo(i + 1, ds[i].skill + ":" + "start")
              && Lines(ds)[2 * i + 1] == ToolInfo(i + 1, ds[i].skill + ":" + if ds[i].ok then "done" else "error")
    {
      LinesOf(ds, i);
    }
  }
}
