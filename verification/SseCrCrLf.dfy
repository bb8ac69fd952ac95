/**
  What a CR CR LF does where it matters: on a line between two data lines, the
  place of a chunk boundary decides which event the client is given.
 */
module SseCrCrLf {
  import opened Common
  import opened Sse

  // ---------------------------------------------------------------------
  // Blocks of given lines
  // ---------------------------------------------------------------------

  predicate AreLines(lines: seq<string>) {
    lines != [] && forall i :: 0 <= i < |lines| ==> lines[i] != "" && NoLf(lines[i])
  }

  lemma {:induction false} JoinStarts(lines: seq<string>)
    requires AreLines(lines)
    ensures Join(lines) != "" && Join(lines)[0] == lines[0][0] != '\n'
  {
  }

  lemma {:induction false} JoinedBlank(lines: seq<string>, after: string)
    requires AreLines(lines)
    ensures FirstBlank(Join(lines) + "\n\n" + after) == |Join(lines)|
  {
    if |lines| == 1 {
      BlockEnds(lines[0], after);
    } else {
      var rest := lines[1..];
      var t := Join(rest) + "\n\n" + after;
      JoinedBlank(rest, after);
      JoinStarts(rest);
      LineHasNoBlank(lines[0], t);
      assert Join(lines) + "\n\n" + after == lines[0] + "\n" + t;
    }
  }

  lemma {:induction false} JoinedLines(lines: seq<string>)
    requires lines != [] && forall i :: 0 <= i < |lines| ==> NoLf(lines[i])
    ensures Lines(Join(lines)) == lines
  {
    if |lines| == 1 {
      LinesCons(lines[0], "");
    } else {
      var rest := lines[1..];
      JoinedLines(rest);
      LinesCons(lines[0], Join(rest));
      assert Join(lines) == lines[0] + "\n" + Join(rest) && lines == [lines[0]] + rest;
    }
  }

  lemma JoinedSplits(lines: seq<string>, after: string)
    requires AreLines(lines)
    ensures SplitBlocks(Join(lines) + "\n\n" + after)
            == ([Join(lines)] + SplitBlocks(after).0, SplitBlocks(after).1)
  {
    JoinedBlank(lines, after);
    SplitOff(Join(lines), after);
  }

  // ---------------------------------------------------------------------
  // An event line, a data line, CR CR LF, another data line
  // ---------------------------------------------------------------------

  function EventLine(name: string): string {
    "event: " + name
  }

  function DataLine(text: string): string {
    "data: " + text
  }

  /** The event and its first data line, each with its line break. */
  function Head(name: string, text: string): string {
    EventLine(name) + "\n" + DataLine(text) + "\n"
  }

  /** The second data line and the blank line. */
  function Tail(text: string): string {
    DataLine(text) + "\n\n"
  }

  function Given<T>(name: string, value: Option<T>): seq<SseEvent<T>> {
    if value.Some? then [SseEvent(name, value.value)] else []
  }

  lemma ReadTwo(a: string, b: string)
    ensures ReadBlocks([a, b])
            == var (blocks, rest) := SplitBlocks(Normalize(a));
               var (more, rest') := SplitBlocks(Normalize(rest + b));
               (blocks + more, rest')
    ensures Concat([a, b]) == a + b
  {
    ReadOne(a);
    assert [a, b][..1] == [a];
  }

  /** A text with a CR CR LF between `head` and `tail`, and its part up to there. */
  function Text(head: string, tail: string): string {
    head + "\r" + "\r" + ("\n" + tail)
  }

  function UpToFeed(head: string): string {
    head + "\r" + "\r" + "\n"
  }

  /** What normalizing makes of the CR CR LF: with what follows it, */
  lemma NormalizedWhole(head: string, tail: string)
    requires NoCr(head) && NoCr(tail)
    ensures Normalize(Text(head, tail)) == head + "\r" + ("\n" + tail)
  {
    var rest := "\n" + tail;
    NoCrIsClean(head);
    NoCrIsClean(rest);
    NormalizeAcross(head, rest);
    NormalizeAcross(head + "\r", rest);
  }

  /** without, */
  lemma NormalizedHead(head: string)
    requires NoCr(head)
    ensures Normalize(UpToFeed(head)) == head + "\r" + "\n"
  {
    NoCrIsClean(head);
    NoCrIsClean("\n");
    NormalizeAcross(head, "\n");
    NormalizeAcross(head + "\r", "\n");
  }

  /** and once more, when the rest is read again with what follows. */
  lemma NormalizedAgain(head: string, tail: string)
    requires NoCr(head) && NoCr(tail)
    ensures Normalize(head + "\r" + "\n" + tail) == head + ("\n" + tail)
  {
    var rest := "\n" + tail;
    NoCrIsClean(head);
    NoCrIsClean(rest);
    NormalizeAcross(head, rest);
    Associate(head + "\r", "\n", tail);
  }

  lemma HeadIsClean(name: string, text: string)
    requires OneLine(name) && OneLine(text)
    ensures NoCr(Head(name, text)) && NoCr(Tail(text))
    ensures NoLf(EventLine(name)) && NoLf(DataLine(text))
  {
  }

  /** Read whole: one block of four lines, with both texts. */
  lemma ReadWhole(name: string, first: string, second: string)
    requires OneLine(name) && OneLine(first) && OneLine(second)
    ensures var lines := [EventLine(name), DataLine(first), "\r", DataLine(second)];
            ReadBlocks([Text(Head(name, first), Tail(second))]) == ([Join(lines)], "")
            && AreLines(lines)
  {
    var lines := [EventLine(name), DataLine(first), "\r", DataLine(second)];
    HeadIsClean(name, first);
    HeadIsClean(name, second);
    NormalizedWhole(Head(name, first), Tail(second));
    FourLines(lines[0], lines[1], lines[2], lines[3]);
    ReadOne(Text(Head(name, first), Tail(second)));
    JoinedSplits(lines, "");
    EmptyAfter(Join(lines));
  }

  lemma FourLines(a: string, b: string, c: string, d: string)
    ensures Join([a, b, c, d]) + "\n\n" == a + "\n" + b + "\n" + c + ("\n" + (d + "\n\n"))
    ensures Join([a, b]) == a + "\n" + b
  {
    assert [a, b, c, d][1..] == [b, c, d] && [b, c, d][1..] == [c, d] && [c, d][1..] == [d] && [a, b][1..] == [b];
    assert Join([d]) == d && Join([b]) == b;
    assert Join([c, d]) == c + "\n" + d;
    assert Join([b, c, d]) == b + "\n" + (c + "\n" + d);
    assert Join([a, b, c, d]) == a + "\n" + (b + "\n" + (c + "\n" + d));
  }

  lemma EmptyAfter(block: string)
    ensures block + "\n\n" + "" == block + "\n\n"
    ensures SplitBlocks("") == ([], "") && [block] + [] == [block]
  {
  }

  lemma TwoFeeds(block: string, after: string)
    ensures block + "\n" + ("\n" + after) == block + "\n\n" + after
  {
    Associate(block, "\n", "\n");
    Associate(block + "\n", "\n", after);
  }

  lemma TailSplits(second: string)
    requires OneLine(second)
    ensures SplitBlocks(Tail(second)) == ([Join([DataLine(second)])], "")
  {
    HeadIsClean("", second);
    JoinedSplits([DataLine(second)], "");
    EmptyAfter(DataLine(second));
  }

  lemma CutSplits(name: string, first: string, second: string)
    requires OneLine(name) && OneLine(first) && OneLine(second)
    ensures SplitBlocks(Head(name, first) + ("\n" + Tail(second)))
            == ([Join([EventLine(name), DataLine(first)]), Join([DataLine(second)])], "")
  {
    var lines := [EventLine(name), DataLine(first)];
    HeadIsClean(name, first);
    FourLines(EventLine(name), DataLine(first), "", "");
    TwoFeeds(Join(lines), Tail(second));
    JoinedSplits(lines, Tail(second));
    TailSplits(second);
    assert [Join(lines)] + [Join([DataLine(second)])] == [Join(lines), Join([DataLine(second)])];
  }

  /** Cut behind the CR CR LF: what was a line of its own is now a blank line. */
  lemma ReadCut(name: string, first: string, second: string)
    requires OneLine(name) && OneLine(first) && OneLine(second)
    ensures ReadBlocks([UpToFeed(Head(name, first)), Tail(second)])
            == ([Join([EventLine(name), DataLine(first)]), Join([DataLine(second)])], "")
  {
    var head, tail := Head(name, first), Tail(second);
    HeadIsClean(name, first);
    HeadIsClean(name, second);
    NormalizedHead(head);
    NoBlankYet(name, first);
    NormalizedAgain(head, tail);
    CutSplits(name, first, second);
    ReadRest(UpToFeed(head), tail, head + "\r" + "\n");
  }

  /** A first chunk that completes no block leaves everything to the second. */
  lemma ReadRest(a: string, b: string, rest: string)
    requires SplitBlocks(Normalize(a)) == ([], rest)
    ensures ReadBlocks([a, b]) == SplitBlocks(Normalize(rest + b))
  {
    ReadTwo(a, b);
    assert [] + SplitBlocks(Normalize(rest + b)).0 == SplitBlocks(Normalize(rest + b)).0;
  }

  lemma NoBlankYet(name: string, text: string)
    requires OneLine(name) && OneLine(text)
    ensures SplitBlocks(Head(name, text) + "\r" + "\n") == ([], Head(name, text) + "\r" + "\n")
  {
    var s := Head(name, text) + "\r" + "\n";
    var e := |EventLine(name)|;
    assert s[e + 1] == 'd' && s[|s| - 2] == '\r';
    forall j | 0 <= j < |s| - 1 ensures !(s[j] == '\n' && s[j + 1] == '\n') {
      LineFeeds(name, text, j);
    }
  }

  /** Where the line feeds are. */
  lemma LineFeeds(name: string, text: string, j: nat)
    requires OneLine(name) && OneLine(text) && j < |Head(name, text)| + 1
    ensures var s := Head(name, text) + "\r" + "\n";
            s[j] == '\n' ==> j == |EventLine(name)| || j == |Head(name, text)| - 1
  {
    var s := Head(name, text) + "\r" + "\n";
    var e := |EventLine(name)|;
    HeadIsClean(name, text);
    if j < e {
      assert s[j] == EventLine(name)[j];
    } else if e < j < |Head(name, text)| - 1 {
      assert s[j] == DataLine(text)[j - e - 1];
    }
  }

  lemma WholeFields(name: string, first: string, second: string)
    ensures Fields([EventLine(name), DataLine(first), "\r", DataLine(second)]) == (name, [first, second])
    ensures Fields([EventLine(name), DataLine(first)]) == (name, [first])
    ensures Fields([DataLine(second)]) == ("", [second])
  {
    var a, b, c, d := EventLine(name), DataLine(first), "\r", DataLine(second);
    assert [a, b, c, d][..3] == [a, b, c] && [a, b, c][..2] == [a, b] && [a, b][..1] == [a];
    assert Fields([a]) == (name, []);
    assert b[0] == 'd' && b[6..] == first && [] + [first] == [first];
    assert Fields([a, b]) == (name, [first]);
    assert Fields([a, b, c]) == (name, [first]);
    assert d[0] == 'd' && d[6..] == second && [first] + [second] == [first, second];
    assert Fields([d][..0]) == ("", []) && [] + [second] == [second];
  }

  /** For every event and any two texts: read whole, a client is given the event
      with both texts; cut behind the CR CR LF, the event with the first alone. So
      the cut shows exactly when the decoder tells the two apart. */
  lemma CrCrLfChangesTheEvent<T>(name: string, first: string, second: string, decode: Decoder<T>)
    requires OneLine(name) && OneLine(first) && OneLine(second) && name != ""
    ensures var head, tail := Head(name, first), Tail(second);
            && Concat([Text(head, tail)]) == Concat([UpToFeed(head), tail])
            && Read([Text(head, tail)], decode) == (Given(name, decode(first + "\n" + second)), "")
            && Read([UpToFeed(head), tail], decode) == (Given(name, decode(first)), "")
  {
    ReadWhole(name, first, second);
    ReadCut(name, first, second);
    WholeEvents(name, first, second, decode);
    CutEvents(name, first, second, decode);
    SameText(Head(name, first), Tail(second));
  }

  lemma SameText(head: string, tail: string)
    ensures Concat([Text(head, tail)]) == Concat([UpToFeed(head), tail])
  {
    ReadOne(Text(head, tail));
    ReadTwo(UpToFeed(head), tail);
    Associate(head + "\r" + "\r", "\n", tail);
  }

  lemma WholeEvents<T>(name: string, first: string, second: string, decode: Decoder<T>)
    requires OneLine(name) && OneLine(first) && OneLine(second) && name != ""
    ensures Events([Join([EventLine(name), DataLine(first), "\r", DataLine(second)])], decode)
            == Given(name, decode(first + "\n" + second))
  {
    var lines := [EventLine(name), DataLine(first), "\r", DataLine(second)];
    HeadIsClean(name, first);
    HeadIsClean(name, second);
    JoinedLines(lines);
    WholeFields(name, first, second);
    FourLines(first, second, "", "");
    OneBlock(Join(lines), decode);
  }

  lemma CutEvents<T>(name: string, first: string, second: string, decode: Decoder<T>)
    requires OneLine(name) && OneLine(first) && OneLine(second) && name != ""
    ensures Events([Join([EventLine(name), DataLine(first)]), Join([DataLine(second)])], decode)
            == Given(name, decode(first))
  {
    var a, b := Join([EventLine(name), DataLine(first)]), Join([DataLine(second)]);
    HeadIsClean(name, first);
    HeadIsClean(name, second);
    JoinedLines([EventLine(name), DataLine(first)]);
    JoinedLines([DataLine(second)]);
    WholeFields(name, first, second);
    OneBlock(a, decode);
    OneBlock(b, decode);
    EventsAppend([a], [b], decode);
    assert [a] + [b] == [a, b];
  }

  lemma OneBlock<T>(block: string, decode: Decoder<T>)
    ensures Events([block], decode) == BlockEvent(block, decode)
  {
    assert Events([block][..0], decode) == [];
  }
}
