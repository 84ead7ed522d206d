/** What `upsert` of scripts/aicode_tokens.py does to a whole file. */
module AicodeTokens {
  // One line for each entry, nothing outside the blocks touched, and a second run that changes nothing.

  import opened Wrappers
  import opened TokenBlocks
  import Text
  import ShellWords

  type Entry = (string, string)

  ghost predicate Distinct(entries: seq<Entry>) {
    forall i, j :: 0 <= i < j < |entries| ==> entries[i].0 != entries[j].0
  }

  function WrittenLine(e: Entry): Line {
    ExportLine(e.0, e.1)
  }

  /** The entries put in one after the other. */
  function UpsertAll(d: Doc, entries: seq<Entry>, stale: set<string>): Doc
    decreases |entries|
  {
    if entries == [] then d
    else UpsertAll(UpsertDoc(d, entries[0].0, WrittenLine(entries[0]), stale), entries[1..], stale)
  }

  /* ---- the lines before and behind the entries ---- */

  predicate EndsLine(line: Line) {
    line != [] && line[|line| - 1] == '\n'
  }

  function Completed(lines: seq<Line>): seq<Line> {
    if lines != [] && !EndsLine(lines[|lines| - 1])
    then lines[..|lines| - 1] + [lines[|lines| - 1] + "\n"]
    else lines
  }

  /** A file without a block gets a final line end and an empty block. */
  function Prepared(lines: seq<Line>): seq<Line> {
    if DocOf(lines).Block? then lines else Completed(lines) + [START + "\n", END + "\n"]
  }

  lemma RStripLineEnd(line: Line)
    ensures Text.RStrip(line + "\n") == Text.RStrip(line)
  {
    assert (line + "\n")[..|line|] == line;
  }

  lemma NewMarkers()
    ensures IsStart(START + "\n") && IsEnd(END + "\n") && !IsStart(END + "\n")
  {
    RStripLineEnd(START);
    RStripLineEnd(END);
    assert START[|START| - 1] == '=' && END[|END| - 1] == '=';
    Text.RStripFixed(START);
    Text.RStripFixed(END);
    MarkersDiffer(END + "\n");
  }

  lemma CompletedStaysOpen(lines: seq<Line>)
    ensures OpenAfter(Completed(lines), false) == OpenAfter(lines, false)
  {
    if Completed(lines) != lines {
      var last := |lines| - 1;
      RStripLineEnd(lines[last]);
      SameMarkerAtEnd(lines[..last], lines[last] + "\n", lines[last], false);
      assert lines[..last] + [lines[last]] == lines;
    }
  }

  lemma {:induction false} SameMarkerAtEnd(lines: seq<Line>, x: Line, y: Line, open: bool)
    requires Text.RStrip(x) == Text.RStrip(y)
    ensures OpenAfter(lines + [x], open) == OpenAfter(lines + [y], open)
  {
    if lines == [] {
      assert lines + [x] == [x] && lines + [y] == [y];
      assert [x][1..] == [] && [y][1..] == [];
    } else {
      assert (lines + [x])[1..] == lines[1..] + [x] && (lines + [y])[1..] == lines[1..] + [y];
      SameMarkerAtEnd(lines[1..], x, y, if IsStart(lines[0]) then true else open);
    }
  }

  lemma NewBlock(done: seq<Line>, start: Line, end: Line)
    requires OpenAfter(done, false).Some? && IsStart(start) && IsEnd(end) && !IsStart(end)
    ensures DocOf(done + [start, end]) == Block(done + [start], [], end, Tail([]))
  {
    var none: seq<Line> := [];
    OpenAfterJoin(done, [start], false);
    OnlyStart(start, OpenAfter(done, false).value);
    assert Cut(none, none, None) == Tail(none + none) && none + none == none;
    CutOneBlock(done + [start], none, end, none);
    assert done + [start, end] == done + [start] + none + [end] + none;
  }

  lemma OnlyStart(start: Line, open: bool)
    requires IsStart(start)
    ensures OpenAfter([start], open) == Some(true)
  {
    assert [start][1..] == [];
  }

  /** The document that an unblocked file becomes. */
  lemma PreparedDoc(lines: seq<Line>)
    ensures DocOf(lines).Tail? ==>
              DocOf(Prepared(lines)) == Block(Completed(lines) + [START + "\n"], [], END + "\n", Tail([]))
    ensures DocOf(Prepared(lines)).Block?
  {
    if DocOf(lines).Tail? {
      DocOfIsProper(lines);
      CompletedStaysOpen(lines);
      NewMarkers();
      NewBlock(Completed(lines), START + "\n", END + "\n");
    }
  }

  /** `upsert` on lines. */
  method UpsertLines(lines: seq<Line>, entries: seq<Entry>, stale: set<string>) returns (result: seq<Line>)
    ensures Proper(UpsertAll(DocOf(Prepared(lines)), entries, stale))
    ensures result == Flatten(UpsertAll(DocOf(Prepared(lines)), entries, stale))
  {
    DocOfIsProper(lines);
    result := lines;
    var spans := Blocks(lines);
    if spans == [] {
      if result != [] && !EndsLine(result[|result| - 1]) {
        result := result[..|result| - 1] + [result[|result| - 1] + "\n"];
      }
      result := result + [START + "\n", END + "\n"];
    }
    assert result == Prepared(lines);
    PreparedDoc(lines);
    DocOfIsProper(result);
    ghost var d := DocOf(result);
    for k := 0 to |entries|
      invariant d.Block? && Proper(d) && result == Flatten(d)
      invariant UpsertAll(DocOf(Prepared(lines)), entries, stale) == UpsertAll(d, entries[k..], stale)
    {
      CutFlatten(d);
      result := UpsertOne(result, entries[k].0, entries[k].1, stale);
      assert entries[k..][0] == entries[k] && entries[k..][1..] == entries[k + 1..];
      d := UpsertDoc(d, entries[k].0, WrittenLine(entries[k]), stale);
    }
  }

  /** The lines that are in no block body. */
  function Outside(d: Doc): seq<Line> {
    match d
    case Tail(lines) => lines
    case Block(lead, _, close, rest) => lead + [close] + Outside(rest)
  }

  lemma {:induction false} DropAllKeepsOutside(d: Doc, names: set<string>)
    ensures Outside(DropAll(d, names)) == Outside(d)
  {
    if d.Block? {
      DropAllKeepsOutside(d.rest, names);
    }
  }

  /** Every line outside the blocks stays, in order. */
  lemma {:induction false} UpsertKeepsOutside(d: Doc, entries: seq<Entry>, stale: set<string>)
    ensures Outside(UpsertAll(d, entries, stale)) == Outside(d)
    decreases |entries|
  {
    if entries != [] {
      if d.Block? {
        DropAllKeepsOutside(d.rest, stale + {entries[0].0});
      }
      UpsertKeepsOutside(UpsertDoc(d, entries[0].0, WrittenLine(entries[0]), stale), entries[1..], stale);
    }
  }

  /* ---- one line for each entry ---- */

  /** The lines of all blocks that export one name. */
  function SelectAll(d: Doc, name: string): seq<Line> {
    match d
    case Tail(_) => []
    case Block(_, body, _, rest) => Select(body, name) + SelectAll(rest, name)
  }

  lemma {:induction false} SelectDrop(body: seq<Line>, names: set<string>, n: string)
    ensures Select(Drop(body, names), n) == if n in names then [] else Select(body, n)
  {
    if body != [] {
      var rest := Drop(body[1..], names);
      SelectDrop(body[1..], names, n);
      assert [] + rest == rest;
      SelectFirst(body[0], rest, n);
    }
  }

  lemma SelectFirst(line: Line, rest: seq<Line>, n: string)
    ensures Select([line] + rest, n) == (if Exported(line) == Some(n) then [line] else []) + Select(rest, n)
  {
    assert ([line] + rest)[1..] == rest;
  }

  lemma {:induction false} SelectJoin(a: seq<Line>, b: seq<Line>, n: string)
    ensures Select(a + b, n) == Select(a, n) + Select(b, n)
  {
    if a == [] {
      assert a + b == b;
    } else {
      assert (a + b)[1..] == a[1..] + b;
      SelectJoin(a[1..], b, n);
    }
  }

  lemma {:induction false} SelectBeforeFirst(body: seq<Line>, n: string)
    ensures Select(body[..FirstExport(body, n)], n) == []
  {
    if body != [] && Exported(body[0]) != Some(n) {
      var at := FirstExport(body[1..], n);
      assert body[..1 + at][1..] == body[1..][..at];
      SelectBeforeFirst(body[1..], n);
    }
  }

  lemma SelectAppended(body: seq<Line>, name: string, line: Line, stale: set<string>, n: string)
    requires Exported(line) == Some(name) && Select(body, name) == []
    ensures Select(Drop(body, stale) + [line], n) ==
            if n == name then [line] else if n in stale then [] else Select(body, n)
  {
    SelectOne(line, n);
    SelectJoin(Drop(body, stale), [line], n);
    SelectDrop(body, stale, n);
  }

  lemma SelectedNowhere(body: seq<Line>, name: string)
    requires FirstExport(body, name) == |body|
    ensures Select(body, name) == []
  {
    SelectBeforeFirst(body, name);
    assert body[..|body|] == body;
  }

  lemma SelectPlace(body: seq<Line>, name: string, line: Line, stale: set<string>, n: string)
    requires Exported(line) == Some(name)
    ensures Select(Place(body, name, line, stale), n) ==
            if n == name then [line] else if n in stale then [] else Select(body, n)
  {
    var at := FirstExport(body, name);
    if at == |body| {
      SelectedNowhere(body, name);
      SelectAppended(body, name, line, stale, n);
    } else {
      SelectReplaced(body[..at], body[at], body[at + 1..], name, line, stale + {name}, n);
      Parted(body, at);
    }
  }

  lemma Parted(body: seq<Line>, at: nat)
    requires at < |body|
    ensures body == body[..at] + [body[at]] + body[at + 1..]
  {}

  lemma SelectOne(line: Line, n: string)
    ensures Select([line], n) == if Exported(line) == Some(n) then [line] else []
  {
    assert [line][1..] == [];
  }

  lemma SelectReplaced(
    before: seq<Line>, former: Line, after: seq<Line>, name: string, line: Line, dropped: set<string>, n: string)
    requires Exported(former) == Some(name) && Exported(line) == Some(name) && name in dropped
    ensures Select(Drop(before, dropped) + [line] + Drop(after, dropped), n) ==
            if n == name then [line] else if n in dropped then [] else Select(before + [former] + after, n)
  {
    SelectThree(Drop(before, dropped), line, Drop(after, dropped), n);
    SelectThree(before, former, after, n);
    SelectDrop(before, dropped, n);
    SelectDrop(after, dropped, n);
    assert [] + [line] + [] == [line];
    assert n != name && n in dropped ==> Select(Drop(before, dropped), n) + [] + Select(Drop(after, dropped), n) == [];
  }

  lemma SelectThree(head: seq<Line>, line: Line, tail: seq<Line>, n: string)
    ensures Select(head + [line] + tail, n) ==
            Select(head, n) + (if Exported(line) == Some(n) then [line] else []) + Select(tail, n)
  {
    SelectJoin(head + [line], tail, n);
    SelectJoin(head, [line], n);
    SelectOne(line, n);
  }

  lemma {:induction false} SelectDropAll(d: Doc, names: set<string>, n: string)
    ensures SelectAll(DropAll(d, names), n) == if n in names then [] else SelectAll(d, n)
  {
    if d.Block? {
      SelectDrop(d.body, names, n);
      SelectDropAll(d.rest, names, n);
    }
  }

  lemma LStripFixed(s: string)
    requires s != [] && !Text.IsSpace(s[0])
    ensures Text.LStrip(s) == s
  {
  }

  lemma ExportParts(none: string, word: string, space: string, lead: string, name: string, rest: string, end: string)
    requires none == "" && lead == word + space
    ensures none + word + space + name + "=" + (rest + end) == lead + name + "=" + rest + end
  {
  }

  /** The pattern finds the name that an entry's line was written with. */
  lemma WrittenLineExports(name: string, value: string)
    requires ValidName(name)
    ensures Exported(ExportLine(name, value)) == Some(name)
  {
    ExportIsFound("", " ", name, ShellWords.Quote(value) + "\n");
    ExportParts("", "export", " ", "export ", name, ShellWords.Quote(value), "\n");
  }

  predicate ValidEntries(entries: seq<Entry>) {
    forall i :: 0 <= i < |entries| ==> ValidName(entries[i].0)
  }

  /** What the first block and the later ones hold for one name. */
  predicate Holds(d: Doc, n: string, first: seq<Line>, later: seq<Line>) {
    d.Block? && Select(d.body, n) == first && SelectAll(d.rest, n) == later
  }

  lemma UpsertDocSelects(d: Doc, e: Entry, stale: set<string>, n: string)
    requires d.Block? && ValidName(e.0)
    ensures
      var r := UpsertDoc(d, e.0, WrittenLine(e), stale);
      if n == e.0 then Holds(r, n, [WrittenLine(e)], [])
      else if n in stale then Holds(r, n, [], [])
      else Holds(r, n, Select(d.body, n), SelectAll(d.rest, n))
  {
    WrittenLineExports(e.0, e.1);
    SelectPlace(d.body, e.0, WrittenLine(e), stale, n);
    SelectDropAll(d.rest, stale + {e.0}, n);
  }

  /** Entries of other names leave a name's lines alone, unless the name is stale. */
  lemma {:induction false} OtherEntriesKeep(d: Doc, entries: seq<Entry>, stale: set<string>, n: string)
    requires d.Block? && ValidEntries(entries) && forall i :: 0 <= i < |entries| ==> entries[i].0 != n
    ensures
      var r := UpsertAll(d, entries, stale);
      if n in stale && entries != [] then Holds(r, n, [], []) else Holds(r, n, Select(d.body, n), SelectAll(d.rest, n))
    decreases |entries|
  {
    if entries != [] {
      UpsertDocSelects(d, entries[0], stale, n);
      OtherEntriesKeep(UpsertDoc(d, entries[0].0, WrittenLine(entries[0]), stale), entries[1..], stale, n);
    }
  }

  /**
   * All blocks together hold exactly one line for an entry, the written one in the first block, if and only
   * if the entry is the last or its name is not stale; otherwise they hold none.
   */
  lemma {:induction false} OneLineForEachEntry(d: Doc, entries: seq<Entry>, stale: set<string>, i: nat)
    requires d.Block? && ValidEntries(entries) && Distinct(entries) && i < |entries|
    ensures
      var r := UpsertAll(d, entries, stale);
      var e := entries[i];
      Holds(r, e.0, if i == |entries| - 1 || e.0 !in stale then [WrittenLine(e)] else [], [])
    decreases |entries|
  {
    var e := entries[0];
    var d' := UpsertDoc(d, e.0, WrittenLine(e), stale);
    UpsertDocSelects(d, e, stale, e.0);
    if i == 0 {
      OtherEntriesKeep(d', entries[1..], stale, e.0);
    } else {
      OneLineForEachEntry(d', entries[1..], stale, i - 1);
    }
  }

  lemma OneExportInAllBlocks(d: Doc, entries: seq<Entry>, stale: set<string>, i: nat)
    requires d.Block? && ValidEntries(entries) && Distinct(entries) && i < |entries|
    ensures
      SelectAll(UpsertAll(d, entries, stale), entries[i].0) ==
      if i == |entries| - 1 || entries[i].0 !in stale then [WrittenLine(entries[i])] else []
  {
    OneLineForEachEntry(d, entries, stale, i);
  }

  /* ---- a second run ---- */

  lemma SelectsNothing(body: seq<Line>, n: string)
    requires body != [] && Select(body, n) == []
    ensures Exported(body[0]) != Some(n) && Select(body[1..], n) == []
  {}

  lemma {:induction false} DropNothing(body: seq<Line>, names: set<string>)
    requires forall n :: n in names ==> Select(body, n) == []
    ensures Drop(body, names) == body
  {
    if body != [] {
      forall n | n in names
        ensures Exported(body[0]) != Some(n) && Select(body[1..], n) == []
      {
        SelectsNothing(body, n);
      }
      DropNothing(body[1..], names);
    }
  }

  lemma {:induction false} DropNothingAtAll(d: Doc, names: set<string>)
    requires forall n :: n in names ==> SelectAll(d, n) == []
    ensures DropAll(d, names) == d
  {
    if d.Block? {
      forall n | n in names
        ensures Select(d.body, n) == [] && SelectAll(d.rest, n) == []
      {
        assert SelectAll(d, n) == [];
      }
      DropNothing(d.body, names);
      DropNothingAtAll(d.rest, names);
    }
  }

  lemma OnlyExport(before: seq<Line>, x: Line, after: seq<Line>, name: string, line: Line)
    requires Exported(x) == Some(name) && Select(before, name) == []
    requires Select(before + [x] + after, name) == [line]
    ensures x == line && Select(after, name) == []
  {
    SelectThree(before, x, after, name);
    assert [] + [x] + Select(after, name) == [x] + Select(after, name);
    assert ([x] + Select(after, name))[0] == x && ([x] + Select(after, name))[1..] == Select(after, name);
  }

  lemma NoneAround(before: seq<Line>, x: Line, after: seq<Line>, n: string)
    requires Select(before + [x] + after, n) == []
    ensures Select(before, n) == [] && Select(after, n) == []
  {
    SelectThree(before, x, after, n);
  }

  lemma ReplaceNothing(before: seq<Line>, x: Line, after: seq<Line>, name: string, line: Line, stale: set<string>)
    requires Exported(x) == Some(name) && Select(before, name) == []
    requires Select(before + [x] + after, name) == [line]
    requires forall n :: n in stale && n != name ==> Select(before + [x] + after, n) == []
    ensures Drop(before, stale + {name}) + [line] + Drop(after, stale + {name}) == before + [x] + after
  {
    OnlyExport(before, x, after, name, line);
    forall n | n in stale + {name}
      ensures Select(before, n) == [] && Select(after, n) == []
    {
      if n != name {
        NoneAround(before, x, after, n);
      }
    }
    DropNothing(before, stale + {name});
    DropNothing(after, stale + {name});
  }

  lemma FoundWhenSelected(body: seq<Line>, name: string)
    requires Select(body, name) != []
    ensures FirstExport(body, name) < |body|
  {
    SelectBeforeFirst(body, name);
    assert body[..|body|] == body;
  }

  lemma PlaceNothing(body: seq<Line>, name: string, line: Line, stale: set<string>)
    requires Exported(line) == Some(name)
    requires Select(body, name) == [line] && forall n :: n in stale && n != name ==> Select(body, n) == []
    ensures Place(body, name, line, stale) == body
  {
    FoundWhenSelected(body, name);
    SelectBeforeFirst(body, name);
    var at := FirstExport(body, name);
    var before, x, after := body[..at], body[at], body[at + 1..];
    Parted(body, at);
    ReplaceNothing(before, x, after, name, line, stale);
  }

  /** The document holds nothing stale, and every entry that is not stale. */
  ghost predicate Settled(d: Doc, entries: seq<Entry>, stale: set<string>) {
    && d.Block?
    && (forall i :: 0 <= i < |entries| && entries[i].0 !in stale ==> Holds(d, entries[i].0, [WrittenLine(entries[i])], []))
    && (forall n :: n in stale ==> Holds(d, n, [], []))
  }

  /** The document with one more line at the end of its first block. */
  function Extended(d: Doc, last: Option<Entry>): Doc
    requires d.Block?
  {
    if last.Some? then d.(body := d.body + [WrittenLine(last.value)]) else d
  }

  /** What is left of a stale entry, if it was put in last. */
  function StaleLast(entries: seq<Entry>, stale: set<string>): Option<Entry> {
    if entries != [] && entries[|entries| - 1].0 in stale then Some(entries[|entries| - 1]) else None
  }

  lemma {:induction false} DropBehind(body: seq<Line>, x: Line, names: set<string>)
    requires ExportsOneOf(x, names)
    ensures Drop(body + [x], names) == Drop(body, names)
  {
    if body == [] {
      assert [x][1..] == [];
    } else {
      assert (body + [x])[1..] == body[1..] + [x];
      DropBehind(body[1..], x, names);
    }
  }

  lemma {:induction false} FirstExportBehind(body: seq<Line>, x: Line, name: string)
    requires Exported(x) != Some(name)
    ensures FirstExport(body + [x], name) == if FirstExport(body, name) < |body| then FirstExport(body, name) else |body| + 1
  {
    if body == [] {
      assert [x][1..] == [];
    } else {
      assert (body + [x])[1..] == body[1..] + [x];
      FirstExportBehind(body[1..], x, name);
    }
  }

  /** A stale line at the end makes no difference to where a line of another name is placed. */
  lemma PlaceBehind(body: seq<Line>, x: Line, name: string, line: Line, stale: set<string>)
    requires ExportsOneOf(x, stale) && Exported(x) != Some(name)
    ensures Place(body + [x], name, line, stale) == Place(body, name, line, stale)
  {
    FirstExportBehind(body, x, name);
    if FirstExport(body, name) < |body| {
      FoundBehind(body, x, body + [x], name, line, stale, FirstExport(body, name));
    } else {
      DropBehind(body, x, stale);
    }
  }

  lemma FoundBehind(body: seq<Line>, x: Line, more: seq<Line>, name: string, line: Line, stale: set<string>, at: nat)
    requires more == body + [x] && ExportsOneOf(x, stale)
    requires at == FirstExport(body, name) == FirstExport(more, name) < |body|
    ensures Place(more, name, line, stale) == Place(body, name, line, stale)
  {
    var before, after, few := body[..at], body[at + 1..], stale + {name};
    SlicesBehind(body, x, at);
    PlaceFound(body, name, line, stale, before, after);
    PlaceFound(more, name, line, stale, before, after + [x]);
    DropBehind(after, x, few);
  }

  lemma PlaceFound(
    body: seq<Line>, name: string, line: Line, stale: set<string>, before: seq<Line>, after: seq<Line>)
    requires FirstExport(body, name) < |body|
    requires before == body[..FirstExport(body, name)] && after == body[FirstExport(body, name) + 1..]
    ensures Place(body, name, line, stale) == Drop(before, stale + {name}) + [line] + Drop(after, stale + {name})
  {
  }

  lemma SlicesBehind(body: seq<Line>, x: Line, at: nat)
    requires at < |body|
    ensures (body + [x])[..at] == body[..at] && (body + [x])[at + 1..] == body[at + 1..] + [x]
  {
  }

  /** A stale name that the block does not hold goes to its end. */
  lemma PlaceAtEnd(body: seq<Line>, name: string, line: Line, stale: set<string>)
    requires Select(body, name) == [] && forall n :: n in stale ==> Select(body, n) == []
    ensures Place(body, name, line, stale) == body + [line]
  {
    if FirstExport(body, name) < |body| {
      SelectHolds(body, name);
    }
    DropNothing(body, stale);
  }

  lemma {:induction false} SelectHolds(body: seq<Line>, name: string)
    requires FirstExport(body, name) < |body|
    ensures Select(body, name) != []
  {
    if Exported(body[0]) != Some(name) {
      SelectHolds(body[1..], name);
    }
  }

  /** One entry put into a settled document that may end its first block with another stale entry. */
  lemma SettledStep(d: Doc, last: Option<Entry>, e: Entry, entries: seq<Entry>, stale: set<string>)
    requires Settled(d, entries, stale) && e in entries && ValidName(e.0)
    requires last.Some? ==> ValidName(last.value.0) && last.value.0 in stale && last.value.0 != e.0
    ensures UpsertDoc(Extended(d, last), e.0, WrittenLine(e), stale) == Extended(d, StaleLast([e], stale))
  {
    var k :| 0 <= k < |entries| && entries[k] == e;
    WrittenLineExports(e.0, e.1);
    if last.Some? {
      WrittenLineExports(last.value.0, last.value.1);
      PlaceBehind(d.body, WrittenLine(last.value), e.0, WrittenLine(e), stale);
    }
    if e.0 in stale {
      PlaceAtEnd(d.body, e.0, WrittenLine(e), stale);
    } else {
      PlaceNothing(d.body, e.0, WrittenLine(e), stale);
    }
    DropNothingAtAll(d.rest, stale + {e.0});
  }

  lemma {:induction false} SettledRun(d: Doc, last: Option<Entry>, entries: seq<Entry>, all: seq<Entry>, stale: set<string>)
    requires Settled(d, all, stale) && ValidEntries(entries) && Distinct(entries)
    requires forall e :: e in entries ==> e in all
    requires last.Some? ==> ValidName(last.value.0) && last.value.0 in stale
    requires last.Some? && entries != [] ==> last.value.0 != entries[0].0
    ensures UpsertAll(Extended(d, last), entries, stale) ==
            Extended(d, if entries == [] then last else StaleLast(entries, stale))
    decreases |entries|
  {
    if entries != [] {
      var e, rest := entries[0], entries[1..];
      SettledStep(d, last, e, all, stale);
      assert rest != [] ==> StaleLast(entries, stale) == StaleLast(rest, stale);
      SettledRun(d, StaleLast([e], stale), rest, all, stale);
    }
  }

  lemma {:induction false} UpsertAllLast(d: Doc, entries: seq<Entry>, e: Entry, stale: set<string>)
    ensures UpsertAll(d, entries + [e], stale) == UpsertDoc(UpsertAll(d, entries, stale), e.0, WrittenLine(e), stale)
    decreases |entries|
  {
    var all := entries + [e];
    if entries == [] {
      assert all[1..] == [];
    } else {
      assert all[1..] == entries[1..] + [e];
      UpsertAllLast(UpsertDoc(d, entries[0].0, WrittenLine(entries[0]), stale), entries[1..], e, stale);
    }
  }

  /** What a run leaves of a name: nothing of a stale one, unless it is the last entry's. */
  lemma RunHolds(d: Doc, entries: seq<Entry>, stale: set<string>, n: string)
    requires d.Block? && ValidEntries(entries) && Distinct(entries) && entries != [] && n in stale
    ensures n != entries[|entries| - 1].0 ==> Holds(UpsertAll(d, entries, stale), n, [], [])
  {
    if i :| 0 <= i < |entries| && entries[i].0 == n {
      OneLineForEachEntry(d, entries, stale, i);
    } else {
      OtherEntriesKeep(d, entries, stale, n);
    }
  }

  lemma RunHoldsEntries(d: Doc, entries: seq<Entry>, stale: set<string>)
    requires d.Block? && ValidEntries(entries) && Distinct(entries)
    ensures UpsertAll(d, entries, stale).Block?
    ensures forall i :: 0 <= i < |entries| && (i == |entries| - 1 || entries[i].0 !in stale) ==>
              Holds(UpsertAll(d, entries, stale), entries[i].0, [WrittenLine(entries[i])], [])
  {
    OtherEntriesKeepBlock(d, entries, stale);
    forall i | 0 <= i < |entries| && (i == |entries| - 1 || entries[i].0 !in stale)
      ensures Holds(UpsertAll(d, entries, stale), entries[i].0, [WrittenLine(entries[i])], [])
    {
      OneLineForEachEntry(d, entries, stale, i);
    }
  }

  lemma {:induction false} OtherEntriesKeepBlock(d: Doc, entries: seq<Entry>, stale: set<string>)
    requires d.Block?
    ensures UpsertAll(d, entries, stale).Block?
    decreases |entries|
  {
    if entries != [] {
      OtherEntriesKeepBlock(UpsertDoc(d, entries[0].0, WrittenLine(entries[0]), stale), entries[1..], stale);
    }
  }

  /** A name that is not exported by the line at the end is held before it. */
  lemma HeldBefore(d: Doc, x: Line, n: string, first: seq<Line>, later: seq<Line>)
    requires d.Block? && Holds(d.(body := d.body + [x]), n, first, later) && Exported(x) != Some(n)
    ensures Holds(d, n, first, later)
  {
    SelectJoin(d.body, [x], n);
    SelectOne(x, n);
    assert Select(d.body, n) + [] == Select(d.body, n);
  }

  lemma NotFound(body: seq<Line>, name: string)
    requires Select(body, name) == []
    ensures FirstExport(body, name) == |body|
  {
    if FirstExport(body, name) < |body| {
      SelectHolds(body, name);
    }
  }

  /**
   * What a run leaves and the next one changes nothing of: the lines of the kept entries and no stale ones, with
   * the last entry's line at the end of the first block when it is stale and not alone.
   */
  ghost predicate Stable(r: Doc, entries: seq<Entry>, stale: set<string>)
    requires entries != []
  {
    var last := entries[|entries| - 1];
    && r.Block?
    && (forall i :: 0 <= i < |entries| && (i == |entries| - 1 || entries[i].0 !in stale) ==>
          Holds(r, entries[i].0, [WrittenLine(entries[i])], []))
    && (forall n :: n in stale && n != last.0 ==> Holds(r, n, [], []))
    && (last.0 in stale && 1 < |entries| ==> r.body != [] && r.body[|r.body| - 1] == WrittenLine(last))
  }

  lemma LastStaleIsAtEnd(d: Doc, front: seq<Entry>, e: Entry, stale: set<string>)
    requires d.Block? && ValidEntries(front) && ValidName(e.0) && front != [] && e.0 in stale
    requires forall i :: 0 <= i < |front| ==> front[i].0 != e.0
    ensures
      var r := UpsertAll(d, front + [e], stale);
      r.Block? && r.body != [] && r.body[|r.body| - 1] == WrittenLine(e)
  {
    UpsertAllLast(d, front, e, stale);
    OtherEntriesKeepBlock(d, front, stale);
    OtherEntriesKeep(d, front, stale, e.0);
    NotFound(UpsertAll(d, front, stale).body, e.0);
  }

  lemma RunEndsWithStale(d: Doc, entries: seq<Entry>, last: Entry, stale: set<string>)
    requires d.Block? && ValidEntries(entries) && Distinct(entries) && 1 < |entries|
    requires last == entries[|entries| - 1] && last.0 in stale
    ensures
      var r := UpsertAll(d, entries, stale);
      r.Block? && r.body != [] && r.body[|r.body| - 1] == WrittenLine(last)
  {
    var front := entries[..|entries| - 1];
    assert entries == front + [last];
    LastStaleIsAtEnd(d, front, last, stale);
  }

  lemma RunDropsStale(d: Doc, entries: seq<Entry>, last: Entry, stale: set<string>)
    requires d.Block? && ValidEntries(entries) && Distinct(entries) && entries != []
    requires last == entries[|entries| - 1]
    ensures forall n :: n in stale && n != last.0 ==> Holds(UpsertAll(d, entries, stale), n, [], [])
  {
    forall n | n in stale && n != last.0
      ensures Holds(UpsertAll(d, entries, stale), n, [], [])
    {
      RunHolds(d, entries, stale, n);
    }
  }

  lemma RunIsStable(d: Doc, entries: seq<Entry>, stale: set<string>)
    requires d.Block? && ValidEntries(entries) && Distinct(entries) && entries != []
    ensures Stable(UpsertAll(d, entries, stale), entries, stale)
  {
    var last := entries[|entries| - 1];
    RunHoldsEntries(d, entries, stale);
    RunDropsStale(d, entries, last, stale);
    if last.0 in stale && 1 < |entries| {
      RunEndsWithStale(d, entries, last, stale);
    }
  }

  /** A single entry stays where it is, even a stale one. */
  lemma OneEntryStays(r: Doc, e: Entry, stale: set<string>)
    requires r.Block? && ValidName(e.0) && Holds(r, e.0, [WrittenLine(e)], [])
    requires forall n :: n in stale && n != e.0 ==> Holds(r, n, [], [])
    ensures UpsertDoc(r, e.0, WrittenLine(e), stale) == r
  {
    WrittenLineExports(e.0, e.1);
    PlaceNothing(r.body, e.0, WrittenLine(e), stale);
    DropNothingAtAll(r.rest, stale + {e.0});
  }

  lemma NothingBefore(body: seq<Line>, x: Line, n: string)
    requires Select(body + [x], n) == [x] && Exported(x) == Some(n)
    ensures Select(body, n) == []
  {
    SelectJoin(body, [x], n);
    SelectOne(x, n);
  }

  /** A stale last line taken off leaves a settled document. */
  lemma StableIsSettled(r: Doc, core: Doc, entries: seq<Entry>, e: Entry, stale: set<string>)
    requires ValidEntries(entries) && Distinct(entries) && 1 < |entries| && e == entries[|entries| - 1] && e.0 in stale
    requires Stable(r, entries, stale) && core.Block? && r == Extended(core, Some(e))
    ensures Settled(core, entries, stale)
  {
    WrittenLineExports(e.0, e.1);
    forall i | 0 <= i < |entries| && entries[i].0 !in stale
      ensures Holds(core, entries[i].0, [WrittenLine(entries[i])], [])
    {
      HeldBefore(core, WrittenLine(e), entries[i].0, [WrittenLine(entries[i])], []);
    }
    forall n | n in stale
      ensures Holds(core, n, [], [])
    {
      if n == e.0 {
        NothingBefore(core.body, WrittenLine(e), n);
      } else {
        HeldBefore(core, WrittenLine(e), n, [], []);
      }
    }
  }

  /** A run over what a run left changes nothing. */
  lemma StableStays(r: Doc, entries: seq<Entry>, stale: set<string>)
    requires ValidEntries(entries) && Distinct(entries) && entries != [] && Stable(r, entries, stale)
    ensures UpsertAll(r, entries, stale) == r
  {
    var e := entries[|entries| - 1];
    if e.0 !in stale {
      SettledRun(r, None, entries, entries, stale);
    } else if |entries| == 1 {
      assert entries[0] == e && entries[1..] == [];
      OneEntryStays(r, e, stale);
    } else {
      var core := r.(body := r.body[..|r.body| - 1]);
      assert r.body == core.body + [WrittenLine(e)];
      StableIsSettled(r, core, entries, e, stale);
      SettledRun(core, Some(e), entries, entries, stale);
    }
  }

  /** Putting the same entries in again changes nothing, stale ones or not. */
  lemma UpsertIsIdempotent(d: Doc, entries: seq<Entry>, stale: set<string>)
    requires d.Block? && ValidEntries(entries) && Distinct(entries)
    ensures UpsertAll(UpsertAll(d, entries, stale), entries, stale) == UpsertAll(d, entries, stale)
  {
    if entries != [] {
      RunIsStable(d, entries, stale);
      StableStays(UpsertAll(d, entries, stale), entries, stale);
    }
  }

  /* ---- what a run keeps of the cut ---- */

  lemma {:induction false} DropKeepsLines(body: seq<Line>, names: set<string>)
    ensures forall line :: line in Drop(body, names) ==> line in body
  {
    if body != [] {
      DropKeepsLines(body[1..], names);
    }
  }

  lemma PlaceKeepsLines(body: seq<Line>, name: string, line: Line, stale: set<string>)
    ensures forall x :: x in Place(body, name, line, stale) ==> x == line || x in body
  {
    var at := FirstExport(body, name);
    if at == |body| {
      DropKeepsLines(body, stale);
      InThree(Drop(body, stale), line, [], body);
    } else {
      var a, b := Drop(body[..at], stale + {name}), Drop(body[at + 1..], stale + {name});
      PlaceFound(body, name, line, stale, body[..at], body[at + 1..]);
      SlicesKeepLines(body, at, a, b, stale + {name});
      InThree(a, line, b, body);
    }
  }

  lemma InThree(a: seq<Line>, line: Line, b: seq<Line>, body: seq<Line>)
    requires (forall x :: x in a ==> x in body) && forall x :: x in b ==> x in body
    ensures forall x :: x in a + [line] + b ==> x == line || x in body
    ensures a + [line] + [] == a + [line]
  {
  }

  lemma SlicesKeepLines(body: seq<Line>, at: nat, a: seq<Line>, b: seq<Line>, names: set<string>)
    requires at < |body| && a == Drop(body[..at], names) && b == Drop(body[at + 1..], names)
    ensures forall x :: x in a ==> x in body
    ensures forall x :: x in b ==> x in body
  {
    DropKeepsLines(body[..at], names);
    DropKeepsLines(body[at + 1..], names);
  }

  lemma UpsertKeepsProper(d: Doc, e: Entry, stale: set<string>)
    requires d.Block? && Proper(d)
    ensures Proper(UpsertDoc(d, e.0, WrittenLine(e), stale))
  {
    WrittenLineIsNoMarker(e.0, e.1);
    PlaceKeepsNoMarker(d.body, e.0, WrittenLine(e), stale);
    DropAllKeepsProper(d.rest, stale + {e.0});
  }

  lemma {:induction false} UpsertAllKeepsProper(d: Doc, entries: seq<Entry>, stale: set<string>)
    requires d.Block? && Proper(d)
    ensures Proper(UpsertAll(d, entries, stale))
    decreases |entries|
  {
    if entries != [] {
      var e := entries[0];
      UpsertKeepsProper(d, e, stale);
      UpsertAllKeepsProper(UpsertDoc(d, e.0, WrittenLine(e), stale), entries[1..], stale);
    }
  }

  lemma {:induction false} DropAllKeepsProper(d: Doc, names: set<string>)
    requires Proper(d)
    ensures Proper(DropAll(d, names))
  {
    if d.Block? {
      DropKeepsNoMarker(d.body, names);
      DropAllKeepsProper(d.rest, names);
    }
  }

  /** A run does not look at what stands before the first block. */
  lemma {:induction false} LeadIsKept(d: Doc, lead: seq<Line>, entries: seq<Entry>, stale: set<string>)
    requires d.Block?
    ensures UpsertAll(d, entries, stale).Block? && UpsertAll(d, entries, stale).lead == d.lead
    ensures UpsertAll(d.(lead := lead), entries, stale) == UpsertAll(d, entries, stale).(lead := lead)
    decreases |entries|
  {
    if entries != [] {
      LeadIsKept(UpsertDoc(d, entries[0].0, WrittenLine(entries[0]), stale), lead, entries[1..], stale);
    }
  }
}
