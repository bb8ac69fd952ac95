/**
  The wire text of a turn: how the server prints a frame, how the server reads
  one back, and how both web clients parse the text chunk by chunk.
 */
module Sse {
  import opened Common

  datatype SseEvent<+T> = SseEvent(name: string, data: T)

  /** What JSON.parse makes of a data text; None when it throws. */
  type Decoder<T> = string -> Option<T>

  /** `replace(/\r\n/g, "\n")` */
  function Normalize(s: string): string {
    if s == "" then ""
    else if |s| >= 2 && s[0] == '\r' && s[1] == '\n' then "\n" + Normalize(s[2..])
    else [s[0]] + Normalize(s[1..])
  }

  /** Index of the first blank line's "\n\n", or |s|. */
  function FirstBlank(s: string): (i: nat)
    ensures i <= |s|
    ensures i < |s| ==> i + 1 < |s| && s[i] == '\n' && s[i + 1] == '\n'
    ensures forall j :: 0 <= j < i && j + 1 < |s| ==> !(s[j] == '\n' && s[j + 1] == '\n')
  {
    if |s| >= 2 && s[0] == '\n' && s[1] == '\n' then 0
    else if s == "" then 0
    else 1 + FirstBlank(s[1..])
  }

  /** `split("\n\n")`, its last piece popped off as the rest. */
  function SplitBlocks(s: string): (seq<string>, string)
    decreases |s|
  {
    var i := FirstBlank(s);
    if i == |s| then ([], s)
    else
      var (blocks, rest) := SplitBlocks(s[i + 2..]);
      ([s[..i]] + blocks, rest)
  }

  function FirstNewline(s: string): (i: nat)
    ensures i <= |s|
    ensures i < |s| ==> s[i] == '\n'
    ensures forall j :: 0 <= j < i ==> s[j] != '\n'
  {
    if s == "" then 0 else if s[0] == '\n' then 0 else 1 + FirstNewline(s[1..])
  }

  /** `split("\n")` */
  function Lines(s: string): seq<string>
    decreases |s|
  {
    var i := FirstNewline(s);
    if i == |s| then [s] else [s[..i]] + Lines(s[i + 1..])
  }

  /** The last `event: ` line's name, and the `data: ` lines' texts. */
  function Fields(lines: seq<string>): (string, seq<string>) {
    if lines == [] then ("", [])
    else
      var (name, data) := Fields(lines[..|lines| - 1]);
      var line := lines[|lines| - 1];
      if "event: " <= line then (line[7..], data)
      else if "data: " <= line then (name, data + [line[6..]])
      else (name, data)
  }

  function Join(lines: seq<string>): string {
    if lines == [] then "" else if |lines| == 1 then lines[0] else lines[0] + "\n" + Join(lines[1..])
  }

  /** A block's event, if it names one, carries data and the data parses. */
  function BlockEvent<T>(block: string, decode: Decoder<T>): seq<SseEvent<T>> {
    var (name, data) := Fields(Lines(block));
    if name == "" || data == [] then []
    else
      var value := decode(Join(data));
      if value.Some? then [SseEvent(name, value.value)] else []
  }

  function Events<T>(blocks: seq<string>, decode: Decoder<T>): seq<SseEvent<T>> {
    if blocks == [] then []
    else Events(blocks[..|blocks| - 1], decode) + BlockEvent(blocks[|blocks| - 1], decode)
  }

  /** The read loop: each chunk is parsed behind the rest of the one before. */
  function ReadBlocks(chunks: seq<string>): (seq<string>, string) {
    if chunks == [] then ([], "")
    else
      var (blocks, rest) := ReadBlocks(chunks[..|chunks| - 1]);
      var (more, rest') := SplitBlocks(Normalize(rest + chunks[|chunks| - 1]));
      (blocks + more, rest')
  }

  function Concat(chunks: seq<string>): string {
    if chunks == [] then "" else Concat(chunks[..|chunks| - 1]) + chunks[|chunks| - 1]
  }

  lemma {:induction false} EventsAppend<T>(a: seq<string>, b: seq<string>, decode: Decoder<T>)
    ensures Events(a + b, decode) == Events(a, decode) + Events(b, decode)
  {
    if b == [] {
      assert a + b == a;
    } else {
      var front, last := b[..|b| - 1], b[|b| - 1];
      EventsAppend(a, front, decode);
      assert (a + b)[..|a + b| - 1] == a + front;
      Associate(Events(a, decode), Events(front, decode), BlockEvent(last, decode));
    }
  }

  method ReadFields(lines: seq<string>) returns (name: string, dataLines: seq<string>)
    ensures (name, dataLines) == Fields(lines)
  {
    name, dataLines := "", [];
    for l := 0 to |lines|
      invariant (name, dataLines) == Fields(lines[..l])
    {
      assert lines[..l + 1][..l] == lines[..l];
      var line := lines[l];
      if "event: " <= line {
        name := line[7..];
      } else if "data: " <= line {
        dataLines := dataLines + [line[6..]];
      }
    }
    assert lines[..|lines|] == lines;
  }

  method ParseSseChunk<T>(buffer: string, decode: Decoder<T>) returns (events: seq<SseEvent<T>>, rest: string)
    ensures (events, rest) == (Events(SplitBlocks(Normalize(buffer)).0, decode), SplitBlocks(Normalize(buffer)).1)
  {
    var (blocks, tail) := SplitBlocks(Normalize(buffer));
    rest := tail;
    events := [];
    for b := 0 to |blocks|
      invariant events == Events(blocks[..b], decode)
    {
      assert blocks[..b + 1][..b] == blocks[..b];
      var name, dataLines := ReadFields(Lines(blocks[b]));
      if name == "" || dataLines == [] {
        continue;
      }
      var value := decode(Join(dataLines));
      if value.Some? {
        events := events + [SseEvent(name, value.value)];
      }
    }
    assert blocks[..|blocks|] == blocks;
  }

  /** The events a read loop delivers, and the rest it is left with. */
  function Read<T>(chunks: seq<string>, decode: Decoder<T>): (seq<SseEvent<T>>, string) {
    (Events(ReadBlocks(chunks).0, decode), ReadBlocks(chunks).1)
  }

  lemma ReadStep<T>(chunks: seq<string>, i: nat, decode: Decoder<T>)
    requires i < |chunks|
    ensures var (events, rest) := Read(chunks[..i], decode);
            var (more, rest') := SplitBlocks(Normalize(rest + chunks[i]));
            Read(chunks[..i + 1], decode) == (events + Events(more, decode), rest')
  {
    assert chunks[..i + 1][..i] == chunks[..i];
    var (blocks, rest) := ReadBlocks(chunks[..i]);
    EventsAppend(blocks, SplitBlocks(Normalize(rest + chunks[i])).0, decode);
  }

  method Deliver<T>(seen: seq<SseEvent<T>>, lastSeen: Option<SseEvent<T>>, parsed: seq<SseEvent<T>>)
    returns (events: seq<SseEvent<T>>, last: Option<SseEvent<T>>)
    requires lastSeen == if seen == [] then None else Some(seen[|seen| - 1])
    ensures events == seen + parsed
    ensures last == if events == [] then None else Some(events[|events| - 1])
  {
    events, last := seen, lastSeen;
    for e := 0 to |parsed|
      invariant events == seen + parsed[..e]
      invariant last == if events == [] then None else Some(events[|events| - 1])
    {
      last := Some(parsed[e]);
      events := events + [parsed[e]];
    }
  }

  /** The loop of `streamTurn` over the chunks that arrived; `last` is the event
      whose turn id a failure after them reports. */
  method ReadLoop<T>(chunks: seq<string>, decode: Decoder<T>)
    returns (events: seq<SseEvent<T>>, rest: string, last: Option<SseEvent<T>>)
    ensures (events, rest) == Read(chunks, decode)
    ensures last == if events == [] then None else Some(events[|events| - 1])
  {
    events, rest, last := [], "", None;
    for i := 0 to |chunks|
      invariant (events, rest) == Read(chunks[..i], decode)
      invariant last == if events == [] then None else Some(events[|events| - 1])
    {
      ReadStep(chunks, i, decode);
      var parsed, tail := ParseSseChunk(rest + chunks[i], decode);
      rest := tail;
      events, last := Deliver(events, last, parsed);
    }
    assert chunks[..|chunks|] == chunks;
  }

  // ---------------------------------------------------------------------
  // Chunk boundaries
  // ---------------------------------------------------------------------

  predicate HasCrLf(s: string) {
    |s| >= 2 && ((s[0] == '\r' && s[1] == '\n') || HasCrLf(s[1..]))
  }

  predicate HasCrCrLf(s: string) {
    |s| >= 3 && ((s[0] == '\r' && s[1] == '\r' && s[2] == '\n') || HasCrCrLf(s[1..]))
  }

  predicate EndsCr(s: string) {
    s != "" && s[|s| - 1] == '\r'
  }

  predicate StartsLf(s: string) {
    s != "" && s[0] == '\n'
  }

  lemma NormalizeFirst(c: char, t: string)
    requires !(c == '\r' && StartsLf(t))
    ensures Normalize([c] + t) == [c] + Normalize(t)
  {
    assert ([c] + t)[1..] == t;
  }

  lemma NormalizeBreak(t: string)
    ensures Normalize("\r\n" + t) == "\n" + Normalize(t)
  {
    assert ("\r\n" + t)[2..] == t;
  }

  /** Normalizing distributes over any cut but one between a CR and its LF. */
  lemma {:induction false} NormalizeAppend(a: string, b: string)
    requires !(EndsCr(a) && StartsLf(b))
    ensures Normalize(a + b) == Normalize(a) + Normalize(b)
    decreases |a|
  {
    if a == "" {
      assert a + b == b;
    } else if |a| >= 2 && a[0] == '\r' && a[1] == '\n' {
      assert a == "\r\n" + a[2..];
      assert a + b == "\r\n" + (a[2..] + b);
      NormalizeBreak(a[2..]);
      NormalizeBreak(a[2..] + b);
      NormalizeAppend(a[2..], b);
      Associate("\n", Normalize(a[2..]), Normalize(b));
    } else {
      assert a == [a[0]] + a[1..];
      assert a + b == [a[0]] + (a[1..] + b);
      NormalizeFirst(a[0], a[1..]);
      NormalizeFirst(a[0], a[1..] + b);
      NormalizeAppend(a[1..], b);
      Associate([a[0]], Normalize(a[1..]), Normalize(b));
    }
  }

  /** A CR LF cut in two is one line break again once both halves are there. */
  lemma NormalizeAcross(a: string, c: string)
    requires StartsLf(c)
    ensures Normalize(a + "\r") == Normalize(a) + "\r"
    ensures Normalize(a + "\r" + c) == Normalize(a) + Normalize(c)
  {
    NormalizeAppend(a, "\r");
    NormalizeFirst('\r', "");
    assert c == "\n" + c[1..];
    NormalizeFirst('\n', c[1..]);
    NormalizeBreak(c[1..]);
    assert "\r" + c == "\r\n" + c[1..];
    Associate(a, "\r", c);
    NormalizeAppend(a, "\r" + c);
  }

  lemma {:induction false} NormalizeClean(s: string)
    ensures |Normalize(s)| <= |s|
    ensures if HasCrLf(s) then |Normalize(s)| < |s| else Normalize(s) == s
    decreases |s|
  {
    if s == "" {
    } else if |s| >= 2 && s[0] == '\r' && s[1] == '\n' {
      NormalizeClean(s[2..]);
    } else {
      NormalizeClean(s[1..]);
    }
  }

  lemma {:induction false} NormalizedHasCrLf(s: string)
    ensures HasCrLf(Normalize(s)) == HasCrCrLf(s)
    ensures StartsLf(Normalize(s)) == (StartsLf(s) || (|s| >= 2 && s[0] == '\r' && s[1] == '\n'))
    decreases |s|
  {
    if s == "" {
    } else if |s| >= 2 && s[0] == '\r' && s[1] == '\n' {
      NormalizedHasCrLf(s[2..]);
      assert Normalize(s)[1..] == Normalize(s[2..]);
      assert s[1..][1..] == s[2..];
      assert HasCrCrLf(s[1..]) == HasCrCrLf(s[2..]);
    } else {
      NormalizedHasCrLf(s[1..]);
      assert Normalize(s)[1..] == Normalize(s[1..]);
    }
  }

  lemma {:induction false} HasCrLfSuffix(a: string, b: string)
    requires HasCrLf(b)
    ensures HasCrLf(a + b)
  {
    if a == "" {
      assert a + b == b;
    } else {
      HasCrLfSuffix(a[1..], b);
      assert (a + b)[1..] == a[1..] + b;
    }
  }

  lemma {:induction false} HasCrCrLfPrefix(a: string, b: string)
    requires HasCrCrLf(a)
    ensures HasCrCrLf(a + b)
  {
    assert (a + b)[1..] == a[1..] + b;
    if !(a[0] == '\r' && a[1] == '\r' && a[2] == '\n') {
      HasCrCrLfPrefix(a[1..], b);
    }
  }

  /** The text the blocks stand for, up to the rest. */
  function Consumed(blocks: seq<string>): string {
    if blocks == [] then "" else blocks[0] + "\n\n" + Consumed(blocks[1..])
  }

  lemma ConsumedCons(b: string, blocks: seq<string>, rest: string)
    ensures Consumed([b] + blocks) + rest == b + "\n\n" + (Consumed(blocks) + rest)
  {
    assert ([b] + blocks)[1..] == blocks;
    Associate(b + "\n\n", Consumed(blocks), rest);
  }

  lemma SplitStep(s: string)
    requires FirstBlank(s) < |s|
    ensures var i := FirstBlank(s);
            s == s[..i] + "\n\n" + s[i + 2..]
            && SplitBlocks(s).0 == [s[..i]] + SplitBlocks(s[i + 2..]).0
            && SplitBlocks(s).1 == SplitBlocks(s[i + 2..]).1
  {
    BlankCut(s, FirstBlank(s));
  }

  lemma BlankCut(s: string, i: nat)
    requires i + 1 < |s| && s[i] == '\n' && s[i + 1] == '\n'
    ensures s == s[..i] + "\n\n" + s[i + 2..]
  {
    var t := s[..i] + "\n\n" + s[i + 2..];
    assert forall j :: 0 <= j < |s| ==> t[j] == s[j];
  }

  lemma {:induction false} SplitRebuilds(s: string)
    ensures Consumed(SplitBlocks(s).0) + SplitBlocks(s).1 == s
    ensures FirstBlank(SplitBlocks(s).1) == |SplitBlocks(s).1|
    decreases |s|
  {
    var i := FirstBlank(s);
    if i < |s| {
      SplitRebuilds(s[i + 2..]);
      SplitStep(s);
      ConsumedCons(s[..i], SplitBlocks(s[i + 2..]).0, SplitBlocks(s[i + 2..]).1);
    }
  }

  lemma FirstBlankUnique(s: string, i: nat)
    requires i + 1 < |s| && s[i] == '\n' && s[i + 1] == '\n'
    requires forall j :: 0 <= j < i ==> !(s[j] == '\n' && s[j + 1] == '\n')
    ensures FirstBlank(s) == i
  {
  }

  lemma SplitAt(s: string, i: nat, u: string)
    requires i < |s| && FirstBlank(s) == i
    ensures SplitBlocks(s + u) == ([s[..i]] + SplitBlocks(s[i + 2..] + u).0, SplitBlocks(s[i + 2..] + u).1)
  {
    FirstBlankUnique(s + u, i);
    assert (s + u)[..i] == s[..i];
    assert (s + u)[i + 2..] == s[i + 2..] + u;
  }

  /** Splitting resumes from the rest. */
  lemma {:induction false} SplitAppend(s: string, u: string)
    ensures SplitBlocks(s + u).0 == SplitBlocks(s).0 + SplitBlocks(SplitBlocks(s).1 + u).0
    ensures SplitBlocks(s + u).1 == SplitBlocks(SplitBlocks(s).1 + u).1
    decreases |s|
  {
    var i := FirstBlank(s);
    if i < |s| {
      var first, later := s[..i], s[i + 2..];
      var (blocks, rest) := SplitBlocks(later);
      SplitAt(s, i, u);
      SplitStep(s);
      SplitAppend(later, u);
      Associate([first], blocks, SplitBlocks(rest + u).0);
    } else {
      assert SplitBlocks(s) == ([], s);
    }
  }

  /** A CR after a text never completes a block. */
  lemma SplitCr(s: string)
    ensures SplitBlocks(s + "\r") == (SplitBlocks(s).0, SplitBlocks(s).1 + "\r")
  {
    var (blocks, rest) := SplitBlocks(s);
    SplitAppend(s, "\r");
    SplitRebuilds(s);
    var t := rest + "\r";
    assert FirstBlank(t) == |t|;
    assert blocks + [] == blocks;
  }

  /** One more chunk behind a text whose parse so far is the parse of the whole. */
  lemma ChunkStep(s: string, c: string)
    requires !HasCrCrLf(s)
    ensures var (blocks, rest) := SplitBlocks(Normalize(s));
            var (more, rest') := SplitBlocks(Normalize(rest + c));
            SplitBlocks(Normalize(s + c)) == (blocks + more, rest')
  {
    if EndsCr(s) && StartsLf(c) {
      var a := s[..|s| - 1];
      assert s == a + "\r";
      ChunkAcross(a, c);
    } else {
      ChunkApart(s, c);
    }
  }

  lemma ChunkApart(s: string, c: string)
    requires !HasCrCrLf(s) && !(EndsCr(s) && StartsLf(c))
    ensures var (blocks, rest) := SplitBlocks(Normalize(s));
            var (more, rest') := SplitBlocks(Normalize(rest + c));
            SplitBlocks(Normalize(s + c)) == (blocks + more, rest')
  {
    var rest := SplitBlocks(Normalize(s)).1;
    RestIsClean(s);
    RestEnd(s);
    NormalizeAppend(s, c);
    NormalizeAppend(rest, c);
    SplitAppend(Normalize(s), Normalize(c));
  }

  lemma RestIsClean(s: string)
    requires !HasCrCrLf(s)
    ensures var rest := SplitBlocks(Normalize(s)).1;
            !HasCrLf(rest) && Normalize(rest) == rest
  {
    var (blocks, rest) := SplitBlocks(Normalize(s));
    NormalizedHasCrLf(s);
    SplitRebuilds(Normalize(s));
    if HasCrLf(rest) {
      HasCrLfSuffix(Consumed(blocks), rest);
    }
    NormalizeClean(rest);
  }

  lemma ChunkAcross(a: string, c: string)
    requires StartsLf(c) && !HasCrCrLf(a + "\r")
    ensures var (blocks, rest) := SplitBlocks(Normalize(a + "\r"));
            var (more, rest') := SplitBlocks(Normalize(rest + c));
            SplitBlocks(Normalize(a + "\r" + c)) == (blocks + more, rest')
  {
    var t := Normalize(a);
    var r := SplitBlocks(t).1;
    NormalizeAcross(a, c);
    SplitCr(t);
    RestIsClean(a + "\r");
    NormalizeAcross(r, c);
    assert Normalize(r) == r by {
      assert r + "\r" == Normalize(r) + "\r";
      assert (r + "\r")[..|r|] == r && (Normalize(r) + "\r")[..|Normalize(r)|] == Normalize(r);
    }
    SplitAppend(t, Normalize(c));
  }

  lemma {:induction false} NormalizedEnd(s: string)
    ensures EndsCr(Normalize(s)) ==> EndsCr(s)
    decreases |s|
  {
    if s == "" {
    } else if |s| >= 2 && s[0] == '\r' && s[1] == '\n' {
      NormalizedEnd(s[2..]);
      assert Normalize(s) == "\n" + Normalize(s[2..]);
    } else {
      NormalizedEnd(s[1..]);
      assert Normalize(s) == [s[0]] + Normalize(s[1..]);
      assert |s| > 1 ==> Normalize(s[1..]) != "";
    }
  }

  lemma RestEnd(s: string)
    ensures EndsCr(SplitBlocks(Normalize(s)).1) ==> EndsCr(s)
  {
    SplitRebuilds(Normalize(s));
    NormalizedEnd(s);
  }

  lemma {:induction false} ChunksRead(chunks: seq<string>)
    requires !HasCrCrLf(Concat(chunks))
    ensures ReadBlocks(chunks) == SplitBlocks(Normalize(Concat(chunks)))
  {
    if chunks != [] {
      var front := chunks[..|chunks| - 1];
      if HasCrCrLf(Concat(front)) {
        HasCrCrLfPrefix(Concat(front), chunks[|chunks| - 1]);
      }
      ChunksRead(front);
      ChunkStep(Concat(front), chunks[|chunks| - 1]);
    }
  }

  /** How much text the blocks and the rest stand for. */
  function Weight(blocks: seq<string>, rest: string): nat {
    |Consumed(blocks)| + |rest|
  }

  lemma {:induction false} ConsumedAppend(a: seq<string>, b: seq<string>)
    ensures Consumed(a + b) == Consumed(a) + Consumed(b)
  {
    if a == [] {
      assert a + b == b;
    } else {
      ConsumedAppend(a[1..], b);
      assert (a + b)[1..] == a[1..] + b;
    }
  }

  lemma ReadWeight(chunks: seq<string>, c: string)
    ensures var (blocks, rest) := ReadBlocks(chunks);
            var (blocks', rest') := ReadBlocks(chunks + [c]);
            Weight(blocks', rest') == |Consumed(blocks)| + |Normalize(rest + c)|
  {
    var (blocks, rest) := ReadBlocks(chunks);
    assert (chunks + [c])[..|chunks|] == chunks;
    SplitRebuilds(Normalize(rest + c));
    ConsumedAppend(blocks, SplitBlocks(Normalize(rest + c)).0);
  }

  /** Where the first CR CR LF ends. */
  lemma {:induction false} FindCrCrLf(s: string) returns (k: nat)
    requires HasCrCrLf(s)
    ensures 3 <= k <= |s| && s[k - 3] == '\r' && s[k - 2] == '\r' && s[k - 1] == '\n'
  {
    if s[0] == '\r' && s[1] == '\r' && s[2] == '\n' {
      k := 3;
    } else {
      k := FindCrCrLf(s[1..]);
      k := k + 1;
    }
  }

  /** A text ending in CR CR LF, once read, leaves a CR LF in the rest: reading
      on, even nothing, loses a character of it. */
  lemma CrCrLfLosesText(a: string)
    ensures var rest := SplitBlocks(Normalize(a + "\r\r\n")).1;
            |Normalize(rest)| < |rest|
  {
    var t := Normalize(a) + "\r\n";
    NormalizeAcross(a + "\r", "\n");
    NormalizeAcross(a, "\n");
    NormalizeFirst('\n', "");
    Associate(a + "\r", "\r", "\n");
    assert a + "\r\r\n" == a + "\r" + "\r" + "\n";
    assert Normalize(a + "\r\r\n") == t;
    RestKeepsEnd(t);
  }

  lemma EndsCrLf(t: string, a: string, rest: string)
    requires t == a + rest && |rest| >= 2 && t[|t| - 2] == '\r' && t[|t| - 1] == '\n'
    ensures rest == rest[..|rest| - 2] + "\r\n"
  {
    assert rest[|rest| - 2] == t[|t| - 2] && rest[|rest| - 1] == t[|t| - 1];
  }

  lemma RestKeepsEnd(t: string)
    requires |t| >= 2 && t[|t| - 2] == '\r' && t[|t| - 1] == '\n'
    ensures var rest := SplitBlocks(t).1;
            |Normalize(rest)| < |rest|
  {
    var (blocks, rest) := SplitBlocks(t);
    SplitRebuilds(t);
    ConsumedEnd(blocks);
    assert |rest| >= 2;
    EndsCrLf(t, Consumed(blocks), rest);
    HasCrLfSuffix(rest[..|rest| - 2], "\r\n");
    NormalizeClean(rest);
  }

  lemma {:induction false} ConsumedEnd(blocks: seq<string>)
    ensures var c := Consumed(blocks);
            blocks != [] ==> |c| >= 2 && c[|c| - 1] == '\n' && c[|c| - 2] == '\n'
  {
    if blocks != [] {
      ConsumedEnd(blocks[1..]);
    }
  }

  lemma ReadOne(c: string)
    ensures ReadBlocks([c]) == SplitBlocks(Normalize(c))
    ensures Concat([c]) == c
  {
    assert "" + c == c;
    assert [] + SplitBlocks(Normalize(c)).0 == SplitBlocks(Normalize(c)).0;
  }

  lemma NormalizeShrinks(a: string)
    ensures |Normalize(a)| <= |a|
  {
    NormalizeClean(a);
  }

  lemma NormalizeLength(a: string, b: string)
    ensures |Normalize(a + b)| <= |a| + |Normalize(b)|
  {
    if EndsCr(a) && StartsLf(b) {
      var a0 := a[..|a| - 1];
      assert a == a0 + "\r";
      NormalizeAcross(a0, b);
      NormalizeShrinks(a0);
    } else {
      NormalizeAppend(a, b);
      NormalizeShrinks(a);
    }
  }

  /** Cutting a stream right after a CR CR LF, and reading nothing before going
      on, loses text. */
  lemma BadCut(a: string, q: string)
    ensures var p := a + "\r\r\n";
            Concat([p, "", q]) == p + q
            && ReadBlocks([p, "", q]) != SplitBlocks(Normalize(p + q))
  {
    var p := a + "\r\r\n";
    assert [p, "", q][..2] == [p, ""] && [p, ""][..1] == [p];
    ReadOne(p);
    assert Concat([p, ""]) == p + "" == p;
    BadCutWeight(p, q) by { CrCrLfLosesText(a); }
    NormalizeAppend(p, q);
    SplitRebuilds(Normalize(p + q));
  }

  lemma EmptyCutWeight(p: string)
    requires var rest := SplitBlocks(Normalize(p)).1; |Normalize(rest)| < |rest|
    ensures var (blocks, rest) := ReadBlocks([p, ""]); Weight(blocks, rest) < |Normalize(p)|
  {
    ReadOne(p);
    SplitRebuilds(Normalize(p));
    var (blocks, rest) := ReadBlocks([p]);
    assert |Normalize(p)| == |Consumed(blocks)| + |rest|;
    assert rest + "" == rest && [p] + [""] == [p, ""];
    ReadWeight([p], "");
  }

  lemma BadCutWeight(p: string, q: string)
    requires var rest := SplitBlocks(Normalize(p)).1; |Normalize(rest)| < |rest|
    ensures var (blocks, rest) := ReadBlocks([p, "", q]);
            Weight(blocks, rest) < |Normalize(p)| + |Normalize(q)|
  {
    EmptyCutWeight(p);
    assert [p, ""] + [q] == [p, "", q];
    ReadWeight([p, ""], q);
    NormalizeLength(ReadBlocks([p, ""]).1, q);
  }

  /** Chunk boundaries never change the blocks and the rest read from a stream if
      and only if the stream holds no CR CR LF. */
  lemma ChunkingInvisibleIff(s: string)
    ensures (forall chunks | Concat(chunks) == s :: ReadBlocks(chunks) == SplitBlocks(Normalize(s)))
            <==> !HasCrCrLf(s)
  {
    if HasCrCrLf(s) {
      var k := FindCrCrLf(s);
      var a, q := s[..k - 3], s[k..];
      assert s == a + "\r\r\n" + q;
      BadCut(a, q);
    } else {
      forall chunks | Concat(chunks) == s ensures ReadBlocks(chunks) == SplitBlocks(Normalize(s)) {
        ChunksRead(chunks);
      }
    }
  }

  // ---------------------------------------------------------------------
  // The printer and the two readers
  // ---------------------------------------------------------------------

  /** A frame ready for the wire: `json` is the printed data object. */
  datatype WireFrame<+T> = WireFrame(eventSeq: nat, name: string, json: string, data: T)

  function IdLine(n: nat): string { "id: " + Decimal(n) }

  function Block<T>(f: WireFrame<T>): string {
    IdLine(f.eventSeq) + "\n" + ("event: " + f.name + "\n" + ("data: " + f.json))
  }

  /** The text of one frame, as `_frame` prints it. */
  function Print<T>(f: WireFrame<T>): string {
    Block(f) + "\n\n"
  }

  function PrintAll<T>(frames: seq<WireFrame<T>>): string {
    if frames == [] then "" else Print(frames[0]) + PrintAll(frames[1..])
  }

  /** `_decode_frame`: drop the blank line, expect exactly three lines. */
  function DecodeFrame(frame: string): Option<(string, string)> {
    if |frame| < 2 then None
    else
      var lines := Lines(frame[..|frame| - 2]);
      if |lines| != 3 || |lines[1]| < 7 || |lines[2]| < 6 then None
      else Some((lines[1][7..], lines[2][6..]))
  }

  predicate OneLine(s: string) {
    forall i :: 0 <= i < |s| ==> s[i] != '\n' && s[i] != '\r'
  }

  /** What the producers guarantee: event names are non-empty words, the JSON
      printer writes no raw line break and the decoder inverts it. */
  ghost predicate Printable<T>(f: WireFrame<T>, decode: Decoder<T>) {
    f.name != "" && OneLine(f.name) && OneLine(f.json) && decode(f.json) == Some(f.data)
  }

  lemma {:induction false} DecimalOneLine(n: nat)
    ensures OneLine(Decimal(n))
  {
    if n >= 10 {
      DecimalOneLine(n / 10);
    }
  }

  predicate NoLf(s: string) {
    forall i :: 0 <= i < |s| ==> s[i] != '\n'
  }

  lemma LinesCons(l: string, t: string)
    requires NoLf(l)
    ensures Lines(l + "\n" + t) == [l] + Lines(t)
    ensures Lines(l) == [l]
  {
    var s := l + "\n" + t;
    assert s[|l|] == '\n';
    assert FirstNewline(s) == |l|;
    assert s[..|l|] == l && s[|l| + 1..] == t;
  }

  lemma BlockLines<T>(f: WireFrame<T>)
    requires OneLine(f.name) && OneLine(f.json)
    ensures Lines(Block(f)) == [IdLine(f.eventSeq), "event: " + f.name, "data: " + f.json]
  {
    DecimalOneLine(f.eventSeq);
    var l1, l2, l3 := IdLine(f.eventSeq), "event: " + f.name, "data: " + f.json;
    LinesCons(l3, "");
    LinesCons(l2, l3);
    LinesCons(l1, l2 + "\n" + l3);
  }

  lemma BlockFields<T>(f: WireFrame<T>)
    requires OneLine(f.name) && OneLine(f.json)
    ensures Fields(Lines(Block(f))) == (f.name, [f.json])
  {
    BlockLines(f);
    var l1, l2, l3 := IdLine(f.eventSeq), "event: " + f.name, "data: " + f.json;
    assert [l1, l2, l3][..2] == [l1, l2] && [l1, l2][..1] == [l1];
    assert l1[0] == 'i';
    assert Fields([l1]) == ("", []);
    assert Fields([l1, l2]) == (f.name, []);
    assert l3[0] == 'd' && l3[6..] == f.json;
    assert [] + [f.json] == [f.json];
  }

  /** The first blank line of a text that is the line `l`, a line break and `t`. */
  lemma LineBlankAt(s: string, l: string, t: string)
    requires NoLf(l) && l != "" && t != "" && t[0] != '\n' && FirstBlank(t) < |t|
    requires |s| == |l| + 1 + |t| && s[|l|] == '\n'
    requires forall j :: 0 <= j < |l| ==> s[j] == l[j]
    requires forall j :: |l| + 1 <= j < |s| ==> s[j] == t[j - |l| - 1]
    ensures FirstBlank(s) == |l| + 1 + FirstBlank(t)
  {
    forall j | 0 <= j < |l| + 1 + FirstBlank(t) ensures !(s[j] == '\n' && s[j + 1] == '\n') {
      if j > |l| {
        var k := j - |l| - 1;
        assert !(t[k] == '\n' && t[k + 1] == '\n');
      }
    }
    FirstBlankUnique(s, |l| + 1 + FirstBlank(t));
  }

  lemma LineCharacters(l: string, t: string)
    ensures var s := l + "\n" + t;
            && |s| == |l| + 1 + |t| && s[|l|] == '\n'
            && (forall j :: 0 <= j < |l| ==> s[j] == l[j])
            && (forall j :: |l| + 1 <= j < |s| ==> s[j] == t[j - |l| - 1])
  {
    var h := l + "\n";
    assert |h| == |l| + 1 && h[|l|] == '\n';
  }

  lemma LineHasNoBlank(l: string, t: string)
    requires NoLf(l) && l != "" && t != "" && t[0] != '\n' && FirstBlank(t) < |t|
    ensures FirstBlank(l + "\n" + t) == |l| + 1 + FirstBlank(t)
  {
    LineCharacters(l, t);
    LineBlankAt(l + "\n" + t, l, t);
  }

  lemma BlockEnds(l: string, after: string)
    requires NoLf(l)
    ensures FirstBlank(l + "\n\n" + after) == |l|
  {
    var t := l + "\n\n" + after;
    assert forall j :: 0 <= j < |l| ==> t[j] == l[j];
    FirstBlankUnique(t, |l|);
  }

  lemma SplitOff(block: string, after: string)
    requires FirstBlank(block + "\n\n" + after) == |block|
    ensures SplitBlocks(block + "\n\n" + after) == ([block] + SplitBlocks(after).0, SplitBlocks(after).1)
  {
    var s := block + "\n\n" + after;
    assert s[..|block|] == block && s[|block| + 2..] == after;
  }

  lemma ThreeLines(l1: string, l2: string, l3: string, after: string)
    requires OneLine(l1) && OneLine(l2) && OneLine(l3) && l1 != "" && l2 != "" && l3 != ""
    ensures var block := l1 + "\n" + (l2 + "\n" + l3);
            FirstBlank(block + "\n\n" + after) == |block|
  {
    var t3 := l3 + "\n\n" + after;
    BlockEnds(l3, after);
    LineHasNoBlank(l2, t3);
    LineHasNoBlank(l1, l2 + "\n" + t3);
    assert l1 + "\n" + (l2 + "\n" + l3) + "\n\n" + after == l1 + "\n" + (l2 + "\n" + t3);
  }

  lemma FrameSplits<T>(f: WireFrame<T>, after: string)
    requires OneLine(f.name) && OneLine(f.json)
    ensures SplitBlocks(Print(f) + after) == ([Block(f)] + SplitBlocks(after).0, SplitBlocks(after).1)
  {
    DecimalOneLine(f.eventSeq);
    ThreeLines(IdLine(f.eventSeq), "event: " + f.name, "data: " + f.json, after);
    SplitOff(Block(f), after);
  }

  function AsEvents<T>(frames: seq<WireFrame<T>>): seq<SseEvent<T>> {
    if frames == [] then [] else [SseEvent(frames[0].name, frames[0].data)] + AsEvents(frames[1..])
  }

  ghost predicate NoCr(s: string) {
    forall i :: 0 <= i < |s| ==> s[i] != '\r'
  }

  lemma {:induction false} NoCrIsClean(s: string)
    requires NoCr(s)
    ensures !HasCrCrLf(s) && Normalize(s) == s
  {
    if s != "" {
      NoCrIsClean(s[1..]);
    }
  }

  lemma {:induction false} PrintedHasNoCr<T>(frames: seq<WireFrame<T>>, decode: Decoder<T>)
    requires forall i :: 0 <= i < |frames| ==> Printable(frames[i], decode)
    ensures NoCr(PrintAll(frames))
  {
    if frames != [] {
      DecimalOneLine(frames[0].eventSeq);
      PrintedHasNoCr(frames[1..], decode);
    }
  }

  lemma {:induction false} PrintedReadBack<T>(frames: seq<WireFrame<T>>, decode: Decoder<T>)
    requires forall i :: 0 <= i < |frames| ==> Printable(frames[i], decode)
    ensures var (blocks, rest) := SplitBlocks(PrintAll(frames));
            rest == "" && |blocks| == |frames|
            && Events(blocks, decode) == AsEvents(frames)
  {
    if frames != [] {
      var f := frames[0];
      PrintedReadBack(frames[1..], decode);
      FrameSplits(f, PrintAll(frames[1..]));
      BlockFields(f);
      var blocks := SplitBlocks(PrintAll(frames[1..])).0;
      EventsAppend([Block(f)], blocks, decode);

      assert Events([Block(f)], decode) == [SseEvent(f.name, f.data)];
    }
  }

  /** However the wire text of a turn is cut into chunks, the read loop yields
      exactly the printed frames, in order, and nothing is left over. */
  lemma EveryChunkingReadsEveryFrame<T>(frames: seq<WireFrame<T>>, chunks: seq<string>, decode: Decoder<T>)
    requires forall i :: 0 <= i < |frames| ==> Printable(frames[i], decode)
    requires Concat(chunks) == PrintAll(frames)
    ensures ReadBlocks(chunks).1 == ""
    ensures Events(ReadBlocks(chunks).0, decode)
            == AsEvents(frames)
  {
    PrintedHasNoCr(frames, decode);
    NoCrIsClean(PrintAll(frames));
    ChunksRead(chunks);
    PrintedReadBack(frames, decode);
  }

  /** The server's own reader inverts the printer. */
  lemma DecodeInvertsPrint<T>(f: WireFrame<T>)
    requires OneLine(f.name) && OneLine(f.json)
    ensures DecodeFrame(Print(f)) == Some((f.name, f.json))
    ensures "\n\n" == Print(f)[|Print(f)| - 2..]
    ensures Lines(Print(f)[..|Print(f)| - 2])
            == ["id: " + Decimal(f.eventSeq), "event: " + f.name, "data: " + f.json]
  {
    assert Print(f)[..|Print(f)| - 2] == Block(f);
    BlockLines(f);
  }
}
