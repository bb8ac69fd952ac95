/** Which blocks of a stream yield an event, and that the others cost nothing. */
module SseSkips {
  import opened Common
  import opened Sse
  import opened SseCrCrLf

  predicate Names(line: string) {
    |line| >= 7 && line[..7] == "event: "
  }

  predicate Carries(line: string) {
    |line| >= 6 && line[..6] == "data: "
  }

  /** The line gives the name: it is an `event: ` line and no later one is. */
  ghost predicate NamesLast(lines: seq<string>, i: nat) {
    i < |lines| && Names(lines[i]) && forall j :: i < j < |lines| ==> !Names(lines[j])
  }

  ghost predicate CarriesAlone(lines: seq<string>, k: nat) {
    k < |lines| && Carries(lines[k]) && forall j :: 0 <= j < |lines| && j != k ==> !Carries(lines[j])
  }

  lemma PrefixIs(line: string)
    ensures "event: " <= line <==> Names(line)
    ensures "data: " <= line <==> Carries(line)
    ensures !(Names(line) && Carries(line))
  {
    if Names(line) {
      assert line[0] == line[..7][0] == 'e';
    }
    if Carries(line) {
      assert line[0] == line[..6][0] == 'd';
    }
  }

  lemma {:induction false} NoName(lines: seq<string>)
    requires forall j :: 0 <= j < |lines| ==> !Names(lines[j])
    ensures Fields(lines).0 == ""
  {
    if lines != [] {
      NoName(lines[..|lines| - 1]);
      PrefixIs(lines[|lines| - 1]);
    }
  }

  lemma {:induction false} NoData(lines: seq<string>)
    requires forall j :: 0 <= j < |lines| ==> !Carries(lines[j])
    ensures Fields(lines).1 == []
  {
    if lines != [] {
      NoData(lines[..|lines| - 1]);
      PrefixIs(lines[|lines| - 1]);
    }
  }

  lemma {:induction false} LastName(lines: seq<string>, i: nat)
    requires NamesLast(lines, i)
    ensures Fields(lines).0 == lines[i][7..]
  {
    var front := lines[..|lines| - 1];
    PrefixIs(lines[|lines| - 1]);
    if i < |front| {
      assert NamesLast(front, i);
      LastName(front, i);
    }
  }

  lemma {:induction false} OnlyData(lines: seq<string>, k: nat)
    requires CarriesAlone(lines, k)
    ensures Fields(lines).1 == [lines[k][6..]]
  {
    var front := lines[..|lines| - 1];
    PrefixIs(lines[|lines| - 1]);
    assert forall j :: 0 <= j < |front| ==> front[j] == lines[j];
    if k < |front| {
      assert CarriesAlone(front, k);
      OnlyData(front, k);
    } else {
      NoData(front);
    }
  }

  /** A block without an `event: ` line or without a `data: ` line yields nothing. */
  lemma PartialBlockIsSilent<T>(lines: seq<string>, decode: Decoder<T>)
    requires lines != [] && forall j :: 0 <= j < |lines| ==> NoLf(lines[j])
    requires || (forall j :: 0 <= j < |lines| ==> !Names(lines[j]))
             || (forall j :: 0 <= j < |lines| ==> !Carries(lines[j]))
    ensures BlockEvent(Join(lines), decode) == []
  {
    JoinedLines(lines);
    if forall j :: 0 <= j < |lines| ==> !Names(lines[j]) {
      NoName(lines);
    } else {
      NoData(lines);
    }
  }

  /** A block with a single `data: ` line yields its value under the last name, if
      the name is not empty and the text parses, and else nothing. */
  lemma NamedBlockYields<T>(lines: seq<string>, i: nat, k: nat, decode: Decoder<T>)
    requires forall j :: 0 <= j < |lines| ==> NoLf(lines[j])
    requires NamesLast(lines, i) && CarriesAlone(lines, k)
    ensures BlockEvent(Join(lines), decode)
            == if lines[i] == "event: " || decode(lines[k][6..]) == None then []
               else [SseEvent(lines[i][7..], decode(lines[k][6..]).value)]
  {
    JoinedLines(lines);
    LastName(lines, i);
    OnlyData(lines, k);
    assert lines[i] == lines[i][..7] + lines[i][7..];
    assert Join([lines[k][6..]]) == lines[k][6..];
  }

  /** A block that yields nothing might as well not be there: the events before
      and behind it are read as they are without it. */
  lemma SilentBlockIsSkipped<T>(before: seq<string>, block: string, behind: seq<string>, decode: Decoder<T>)
    requires BlockEvent(block, decode) == []
    ensures Events(before + [block] + behind, decode) == Events(before + behind, decode)
  {
    OneBlock(block, decode);
    EventsAppend(before + [block], behind, decode);
    EventsAppend(before, [block], decode);
    EventsAppend(before, behind, decode);
    assert Events(before, decode) + [] == Events(before, decode);
  }
}
