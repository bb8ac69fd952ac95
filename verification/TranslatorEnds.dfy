/**
  What a turn's chunk stream announces: the message each `accepted` frame starts,
  the phases it goes through, and how it ended.
 */
module TranslatorEnds {
  import opened Common
  import opened Frames
  import opened Translator

  predicate Announces(c: Chunk) {
    c.Start? || c.Finish? || c.ErrorText? || (c.Data? && c.transient)
  }

  function Announced(chunks: seq<Chunk>): seq<Chunk> {
    if chunks == [] then []
    else
      Announced(chunks[..|chunks| - 1])
      + if Announces(chunks[|chunks| - 1]) then [chunks[|chunks| - 1]] else []
  }

  /** An `accepted` frame starts its own message under its own turn; a phase is
      shown under its name and not kept; a terminal frame finishes under the turn the first frame named: a `done` well, with its
      usage and its title, an `error` not. */
  function Announcement(first: string, f: Frame): seq<Chunk> {
    match f.event
    case Accepted(turnIndex) => [Start(f.messageId, f.turnId, turnIndex)]
    case Phase(phase, payload) => [Data("phase", Some(PhaseId(phase)), payload, true)]
    case Done(usage, title, _) => [Finish(Some(first), true, usage, title)]
    case Error(_) => [Finish(Some(first), false, "", None)]
    case _ => []
  }

  function Announcements(first: string, frames: seq<Frame>): seq<Chunk> {
    if frames == [] then []
    else Announcements(first, frames[..|frames| - 1]) + Announcement(first, frames[|frames| - 1])
  }

  lemma {:induction false} AnnouncedAppend(a: seq<Chunk>, b: seq<Chunk>)
    ensures Announced(a + b) == Announced(a) + Announced(b)
  {
    if b == [] {
      assert a + b == a;
    } else {
      AnnouncedAppend(a, b[..|b| - 1]);
      assert (a + b)[..|a + b| - 1] == a + b[..|b| - 1];
    }
  }

  lemma AnnouncedOne(c: Chunk)
    ensures Announced([c]) == if Announces(c) then [c] else []
  {
    assert [c][..0] == [];
  }

  lemma AnnouncedTwo(a: Chunk, b: Chunk)
    ensures Announced([a, b]) == Announced([a]) + Announced([b])
  {
    AnnouncedAppend([a], [b]);
    assert [a] + [b] == [a, b];
  }

  lemma OwnAnnounced(f: Frame, turnId: string)
    requires !f.event.Token?
    ensures Announced(OwnChunks(f, Some(turnId))) == Announcement(turnId, f)
  {
    var own := OwnChunks(f, Some(turnId));
    if |own| == 1 {
      AnnouncedOne(own[0]);
    } else if f.event.Error? {
      AnnouncedTwo(own[0], own[1]);
      AnnouncedOne(own[0]);
      AnnouncedOne(own[1]);
    }
  }

  lemma FrameAnnounces(s: State, f: Frame, turnId: string)
    requires Some(turnId) == if s.turnId == None then Some(f.turnId) else s.turnId
    ensures Translated(s, f).0.turnId == Some(turnId)
    ensures Announced(Translated(s, f).1) == Announcement(turnId, f)
  {
    var more := Translated(s, f).1;
    if f.event.Token? {
      AnnouncedOne(more[0]);
      AnnouncedOne(more[|more| - 1]);
      if |more| == 2 {
        AnnouncedTwo(more[0], more[1]);
      }
    } else {
      OwnAnnounced(f, turnId);
      AnnouncedAppend(CloseText(s), OwnChunks(f, Some(turnId)));
      if s.open.Some? {
        AnnouncedOne(TextEnd(s.open.value));
      }
    }
  }

  lemma {:induction false} EmittedAnnounces(frames: seq<Frame>)
    ensures var (s, chunks) := Emitted(frames);
            if frames == [] then s.turnId == None && Announced(chunks) == []
            else s.turnId == Some(frames[0].turnId)
                 && Announced(chunks) == Announcements(frames[0].turnId, frames)
  {
    if frames != [] {
      var n := |frames| - 1;
      var (s, chunks) := Emitted(frames[..n]);
      EmittedAnnounces(frames[..n]);
      FrameAnnounces(s, frames[n], frames[0].turnId);
      AnnouncedAppend(chunks, Translated(s, frames[n]).1);
    }
  }

  /** Whatever the frames, the stream announces each `accepted`, each phase and
      each terminal frame once, in order, and after frames with no terminal one
      that it broke off. */
  lemma StreamAnnounces(frames: seq<Frame>)
    ensures Announced(ChunkStream(frames))
            == (if frames == [] then [] else Announcements(frames[0].turnId, frames))
               + if Terminated(frames) then [] else [ErrorText]
  {
    var (s, chunks) := Emitted(frames);
    EmittedAnnounces(frames);
    FinishedIff(frames);
    AnnouncedAppend(chunks, Ended(s).1);
    if !s.finished {
      AnnouncedAppend(CloseText(s), [ErrorText]);
      AnnouncedOne(ErrorText);
      if s.open.Some? {
        AnnouncedOne(TextEnd(s.open.value));
      }
    }
  }

  lemma {:induction false} FinishedIff(frames: seq<Frame>)
    ensures Emitted(frames).0.finished <==> Terminated(frames)
  {
    if frames != [] {
      FinishedIff(frames[..|frames| - 1]);
      TerminalLastStep(frames);
    }
  }

  predicate Closes(c: Chunk) {
    c.Finish? || c.ErrorText?
  }

  lemma CheckSnoc(s: Scan, chunks: seq<Chunk>)
    requires chunks != []
    ensures CheckAll(s, chunks) == Check(CheckAll(s, chunks[..|chunks| - 1]), chunks[|chunks| - 1])
  {
    var front, last := chunks[..|chunks| - 1], chunks[|chunks| - 1];
    CheckAppend(s, front, [last]);
    CheckFew(CheckAll(s, front), last, last);
    assert front + [last] == chunks;
  }

  /** Of accepted chunks at most the last closes the stream. */
  lemma {:induction false} ClosesLast(chunks: seq<Chunk>)
    requires CheckAll(FRESH, chunks).ok
    ensures CheckAll(FRESH, chunks).closed ==> chunks != [] && Closes(chunks[|chunks| - 1])
    ensures forall i :: 0 <= i < |chunks| && Closes(chunks[i]) ==> i == |chunks| - 1 && CheckAll(FRESH, chunks).closed
  {
    if chunks != [] {
      var front := chunks[..|chunks| - 1];
      CheckSnoc(FRESH, chunks);
      ClosesLast(front);
      assert forall i :: 0 <= i < |front| ==> front[i] == chunks[i];
    }
  }

  /** What follows the terminal frame announces nothing. */
  lemma {:induction false} LastAnnouncement(first: string, frames: seq<Frame>, i: nat)
    requires TerminalLast(frames) && i < |frames| && IsTerminal(frames[i].event)
    ensures Announcements(first, frames) == Announcements(first, frames[..i]) + Announcement(first, frames[i])
    decreases |frames|
  {
    var n := |frames| - 1;
    if i < n {
      TerminalLastStep(frames);
      LastAnnouncement(first, frames[..n], i);
      assert frames[..n][..i] == frames[..i];
      assert Announcements(first, frames[..n]) + [] == Announcements(first, frames[..n]);
    }
  }

  lemma AnnouncedEnds(out: seq<Chunk>, before: seq<Chunk>, c: Chunk)
    requires out != [] && Closes(out[|out| - 1]) && Announced(out) == before + [c]
    ensures out[|out| - 1] == c
  {
    assert Announced(out)[|Announced(out)| - 1] == out[|out| - 1];
  }

  /** The terminal frame's announcement is the stream's last chunk. */
  lemma EndsWith(frames: seq<Frame>, i: nat, c: Chunk)
    requires TerminalLast(frames) && i < |frames| && IsTerminal(frames[i].event)
    requires Announcement(frames[0].turnId, frames[i]) == [c]
    requires ChunkStream(frames) != [] && Closes(ChunkStream(frames)[|ChunkStream(frames)| - 1])
    ensures ChunkStream(frames)[|ChunkStream(frames)| - 1] == c
  {
    var before := Announcements(frames[0].turnId, frames[..i]);
    StreamAnnounces(frames);
    LastAnnouncement(frames[0].turnId, frames, i);
    assert before + [c] + [] == before + [c];
    AnnouncedEnds(ChunkStream(frames), before, c);
  }

  lemma ClosesOnce(frames: seq<Frame>)
    requires TerminalLast(frames)
    ensures var out := ChunkStream(frames);
            && out != [] && Closes(out[|out| - 1])
            && forall i :: 0 <= i < |out| && Closes(out[i]) ==> i == |out| - 1
  {
    WellBracketedIff(frames);
    ClosesLast(ChunkStream(frames));
  }

  lemma FinishesWith(frames: seq<Frame>, i: nat)
    requires TerminalLast(frames) && i < |frames|
    ensures var out, e := ChunkStream(frames), frames[i].event;
            && out != []
            && (e.Done? ==> out[|out| - 1] == Finish(Some(frames[0].turnId), true, e.usage, e.title))
            && (e.Error? ==> out[|out| - 1] == Finish(Some(frames[0].turnId), false, "", None))
  {
    ClosesOnce(frames);
    var e := frames[i].event;
    if e.Done? {
      EndsWith(frames, i, Finish(Some(frames[0].turnId), true, e.usage, e.title));
    } else if e.Error? {
      EndsWith(frames, i, Finish(Some(frames[0].turnId), false, "", None));
    }
  }

  lemma BreaksOff(frames: seq<Frame>)
    requires TerminalLast(frames) && !Terminated(frames)
    ensures var out := ChunkStream(frames); out != [] && out[|out| - 1] == ErrorText
  {
    ClosesOnce(frames);
    StreamAnnounces(frames);
    AnnouncedEnds(ChunkStream(frames), if frames == [] then [] else Announcements(frames[0].turnId, frames), ErrorText);
  }

  /** A stream whose terminal frame is last, if it has one, closes once, with its
      last chunk: with the `done`'s usage and title, with the failure, or, cut
      off, with the error text; under the turn the first frame named. */
  lemma StreamSaysHowItEnded(frames: seq<Frame>)
    requires TerminalLast(frames)
    ensures var out := ChunkStream(frames);
            && out != []
            && (forall i :: 0 <= i < |out| && (out[i].Finish? || out[i].ErrorText?) ==> i == |out| - 1)
            && (forall i :: 0 <= i < |frames| && frames[i].event.Done? ==>
                  out[|out| - 1]
                  == Finish(Some(frames[0].turnId), true, frames[i].event.usage, frames[i].event.title))
            && (forall i :: 0 <= i < |frames| && frames[i].event.Error? ==>
                  out[|out| - 1] == Finish(Some(frames[0].turnId), false, "", None))
            && (!Terminated(frames) ==> out[|out| - 1] == ErrorText)
  {
    ClosesOnce(frames);
    forall i | 0 <= i < |frames|
      ensures var out, e := ChunkStream(frames), frames[i].event;
              && (e.Done? ==> out[|out| - 1] == Finish(Some(frames[0].turnId), true, e.usage, e.title))
              && (e.Error? ==> out[|out| - 1] == Finish(Some(frames[0].turnId), false, "", None))
    {
      FinishesWith(frames, i);
    }
    if !Terminated(frames) {
      BreaksOff(frames);
    }
  }
}
