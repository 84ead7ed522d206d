/** `token_exports` of scripts/aicode_tokens.py against `upsert`. */
module TokenReading {
  // The one reads the blocks as the shell would, the other finds lines by a pattern. `ReadInDocument` says what is
  // read of an entry once all are put in.

  import opened Wrappers
  import opened AicodeTokens
  import opened PythonLines
  import opened TokenBlocks
  import ShellWords

  function Chomp(line: Line): string {
    if line != [] && IsBreak(line[|line| - 1]) then
      if 2 <= |line| && line[|line| - 1] == '\n' && line[|line| - 2] == '\r' then line[..|line| - 2]
      else line[..|line| - 1]
    else line
  }

  predicate IsTokenName(name: string) {
    CC_PREFIX <= name || CX_PREFIX <= name
  }

  /** The two families of names, with any account behind them; no name of another family is one. */
  lemma TokenNames(account: string, name: string)
    ensures IsTokenName("AH_CC_TOKEN_" + account) && IsTokenName("AH_CX_TOKEN_" + account)
    ensures IsTokenName(name) ==> 12 <= |name| && (name[..12] == "AH_CC_TOKEN_" || name[..12] == "AH_CX_TOKEN_")
  {
  }

  function BeforeEquals(s: string): string {
    if s == [] || s[0] == '=' then [] else [s[0]] + BeforeEquals(s[1..])
  }

  /** The token name and value that one line gives the shell. */
  function LineReading(line: Line): Option<(string, string)> {
    match ShellWords.Split(Chomp(line))
    case Some(words) =>
      if |words| == 2 && words[0] == "export" then Assignment(words[1]) else None
    case None => None
  }

  function Assignment(word: string): Option<(string, string)> {
    var name := BeforeEquals(word);
    if |name| + 1 < |word| && IsTokenName(name) then Some((name, word[|name| + 1..])) else None
  }

  /** The value of the first line that reads as the name. */
  function FirstReading(lines: seq<Line>, name: string): Option<string> {
    if lines == [] then None
    else if LineReading(lines[0]).Some? && LineReading(lines[0]).value.0 == name then Some(LineReading(lines[0]).value.1)
    else FirstReading(lines[1..], name)
  }

  function BlockLines(d: Doc): seq<Line> {
    if d.Tail? then [] else d.body + BlockLines(d.rest)
  }

  /** The lines of the first `k` blocks. */
  function FirstBlocks(d: Doc, k: nat): seq<Line>
    requires k <= BlockCount(d)
  {
    if k == 0 then [] else d.body + FirstBlocks(d.rest, k - 1)
  }

  lemma {:induction false} OneMoreBlock(d: Doc, k: nat)
    requires k < BlockCount(d)
    ensures FirstBlocks(d, k + 1) == FirstBlocks(d, k) + BodyAt(d, k)
  {
    if k > 0 {
      OneMoreBlock(d.rest, k - 1);
      Assoc(d.body, FirstBlocks(d.rest, k - 1), BodyAt(d, k));
    } else {
      assert FirstBlocks(d.rest, 0) == [];
    }
  }

  lemma {:induction false} AllBlocks(d: Doc)
    ensures FirstBlocks(d, BlockCount(d)) == BlockLines(d)
  {
    if d.Block? {
      AllBlocks(d.rest);
    }
  }

  lemma {:induction false} FirstReadingJoin(a: seq<Line>, b: seq<Line>, name: string)
    ensures FirstReading(a + b, name) ==
            if FirstReading(a, name).Some? then FirstReading(a, name) else FirstReading(b, name)
  {
    if a == [] {
      assert a + b == b;
    } else {
      assert (a + b)[1..] == a[1..] + b;
      FirstReadingJoin(a[1..], b, name);
    }
  }

  ghost predicate Found(found: map<string, string>, lines: seq<Line>) {
    forall n :: FirstReading(lines, n) == if n in found then Some(found[n]) else None
  }

  /** setdefault keeps the first value of each name. */
  method AddReadings(before: map<string, string>, lines: seq<Line>, ghost read: seq<Line>)
    returns (found: map<string, string>)
    requires Found(before, read)
    ensures Found(found, read + lines)
  {
    found := before;
    assert read + lines[..0] == read;
    for k := 0 to |lines|
      invariant Found(found, read + lines[..k])
    {
      ghost var sofar := read + lines[..k];
      assert read + lines[..k + 1] == sofar + [lines[k]];
      var reading := LineReading(lines[k]);
      forall n
        ensures FirstReading(sofar + [lines[k]], n) ==
                if n in found then Some(found[n])
                else if reading.Some? && reading.value.0 == n then Some(reading.value.1) else None
      {
        FirstReadingJoin(sofar, [lines[k]], n);
        assert [lines[k]][1..] == [];
      }
      if reading.Some? && reading.value.0 !in found {
        found := found[reading.value.0 := reading.value.1];
      }
    }
    assert lines[..|lines|] == lines;
  }

  lemma SpanBounds(lines: seq<Line>, d: Doc, k: nat)
    requires Proper(d) && lines == Flatten(d) && k < BlockCount(d)
    ensures
      var (start, end) := Spans(d, 0)[k];
      0 <= start < end < |lines| && lines[start + 1..end] == BodyAt(d, k)
  {
    ProperIsLed(d);
    SpliceText(d, k, Spans(d, 0)[k], []);
  }

  method AddBlock(before: map<string, string>, lines: seq<Line>, span: Span, ghost d: Doc, ghost k: nat)
    returns (found: map<string, string>)
    requires Proper(d) && lines == Flatten(d) && k < BlockCount(d) && span == Spans(d, 0)[k]
    requires Found(before, FirstBlocks(d, k))
    ensures Found(found, FirstBlocks(d, k + 1))
  {
    SpanBounds(lines, d, k);
    OneMoreBlock(d, k);
    found := AddReadings(before, lines[span.0 + 1..span.1], FirstBlocks(d, k));
  }

  /** `token_exports` on the lines of the file. */
  method TokenExports(lines: seq<Line>) returns (found: map<string, string>)
    ensures Found(found, BlockLines(DocOf(lines)))
  {
    var spans := Blocks(lines);
    ghost var d := DocOf(lines);
    DocOfIsProper(lines);
    AllBlocks(d);
    found := map[];
    NothingFound(d);
    for k := 0 to |spans|
      invariant Found(found, FirstBlocks(d, k))
    {
      found := AddBlock(found, lines, spans[k], d, k);
    }
  }

  lemma NothingFound(d: Doc)
    ensures Found(map[], FirstBlocks(d, 0))
  {
  }

  /* ---- reading back what was written ---- */

  lemma {:induction false} BeforeEqualsReadBack(name: string, value: string)
    requires forall i :: 0 <= i < |name| ==> name[i] != '='
    ensures BeforeEquals(name + "=" + value) == name
  {
    if name == [] {
      assert name + "=" + value == "=" + value;
    } else {
      assert (name + "=" + value)[1..] == name[1..] + "=" + value;
      BeforeEqualsReadBack(name[1..], value);
    }
  }

  /** The line written for a token is read as the token and its value. */
  lemma WrittenLineReads(e: Entry)
    requires ValidName(e.0) && IsTokenName(e.0) && e.1 != []
    ensures LineReading(WrittenLine(e)) == Some(e)
  {
    var text := "export " + e.0 + "=" + ShellWords.Quote(e.1);
    assert WrittenLine(e) == text + "\n";
    LastOfText(e);
    assert Chomp(WrittenLine(e)) == text;
    ShellWords.QuotedExportReadsBack(e.0, e.1);
    var word := e.0 + "=" + e.1;
    BeforeEqualsReadBack(e.0, e.1);
    assert word[|e.0| + 1..] == e.1;
  }

  /** A quoted value does not end with a carriage return. */
  lemma LastOfText(e: Entry)
    requires e.1 != []
    ensures
      var quoted := ShellWords.Quote(e.1);
      quoted != [] && quoted[|quoted| - 1] != '\r'
  {
    if ShellWords.AllSafe(e.1) {
      assert ShellWords.IsSafe(e.1[|e.1| - 1]);
    }
  }

  /* ---- in the document ---- */

  lemma WrittenReadsOwnName(e: Entry)
    requires ValidName(e.0) && LineReading(WrittenLine(e)).Some?
    ensures LineReading(WrittenLine(e)).value.0 == e.0
  {
    var text := "export " + e.0 + "=" + ShellWords.Quote(e.1);
    assert WrittenLine(e) == text + "\n";
    QuoteIsNoReturn(e);
    assert Chomp(WrittenLine(e)) == text;
    ShellWords.QuotedExportReadsBack(e.0, e.1);
    BeforeEqualsReadBack(e.0, e.1);
  }

  lemma QuoteIsNoReturn(e: Entry)
    ensures
      var quoted := ShellWords.Quote(e.1);
      quoted != [] && quoted[|quoted| - 1] != '\r'
  {
    if e.1 != [] {
      LastOfText(e);
    }
  }

  lemma {:induction false} DropDrop(body: seq<Line>, few: set<string>, many: set<string>)
    requires few <= many
    ensures Drop(Drop(body, few), many) == Drop(body, many)
  {
    if body != [] {
      var rest := Drop(body[1..], few);
      DropDrop(body[1..], few, many);
      assert ([body[0]] + rest)[1..] == rest;
      assert [] + rest == rest;
    }
  }

  lemma {:induction false} DropJoin(a: seq<Line>, b: seq<Line>, names: set<string>)
    ensures Drop(a + b, names) == Drop(a, names) + Drop(b, names)
  {
    if a == [] {
      assert a + b == b;
    } else {
      assert (a + b)[1..] == a[1..] + b;
      DropJoin(a[1..], b, names);
    }
  }

  lemma DropOne(x: Line, names: set<string>)
    ensures Drop([x], names) == if ExportsOneOf(x, names) then [] else [x]
  {
    assert [x][1..] == [];
  }

  /** Dropping lines that are not read as the name does not change how it is read. */
  lemma {:induction false} ReadsWithout(lines: seq<Line>, names: set<string>, name: string)
    requires forall x :: x in lines && ExportsOneOf(x, names) ==> LineReading(x).None? || LineReading(x).value.0 != name
    ensures FirstReading(Drop(lines, names), name) == FirstReading(lines, name)
  {
    if lines != [] {
      var rest := Drop(lines[1..], names);
      ReadsWithout(lines[1..], names, name);
      assert ([lines[0]] + rest)[1..] == rest;
      assert [] + rest == rest;
    }
  }

  /** The lines of the first block that no entry and nothing stale has a claim to. */
  function Bystanders(d: Doc, names: set<string>): seq<Line>
    requires d.Block?
  {
    Drop(d.body, names)
  }

  /** Entries whose names are dropped anyway, put in one after the other, leave the bystanders alone. */
  lemma PlaceKeepsBystanders(body: seq<Line>, e: Entry, stale: set<string>, names: set<string>)
    requires ValidName(e.0) && stale <= names && e.0 in names
    ensures Drop(Place(body, e.0, WrittenLine(e), stale), names) == Drop(body, names)
  {
    var at, line := FirstExport(body, e.0), WrittenLine(e);
    WrittenLineExports(e.0, e.1);
    DropOne(line, names);
    if at == |body| {
      DropJoin(Drop(body, stale), [line], names);
      DropDrop(body, stale, names);
      assert Drop(body, names) + [] == Drop(body, names);
    } else {
      var before, after := body[..at], body[at + 1..];
      Parted(body, at);
      DropDrop(before, stale + {e.0}, names);
      DropDrop(after, stale + {e.0}, names);
      DropThree(Drop(before, stale + {e.0}), line, Drop(after, stale + {e.0}), names);
      DropThree(before, body[at], after, names);
    }
  }

  lemma DropThree(a: seq<Line>, x: Line, b: seq<Line>, names: set<string>)
    requires ExportsOneOf(x, names)
    ensures Drop(a + [x] + b, names) == Drop(a, names) + Drop(b, names)
  {
    DropJoin(a + [x], b, names);
    DropJoin(a, [x], names);
    DropOne(x, names);
    assert Drop(a, names) + [] == Drop(a, names);
  }

  lemma {:induction false} RunKeepsBystanders(d: Doc, entries: seq<Entry>, stale: set<string>, names: set<string>)
    requires d.Block? && ValidEntries(entries) && stale <= names
    requires forall i :: 0 <= i < |entries| ==> entries[i].0 in names
    ensures UpsertAll(d, entries, stale).Block?
    ensures Bystanders(UpsertAll(d, entries, stale), names) == Bystanders(d, names)
    decreases |entries|
  {
    if entries != [] {
      PlaceKeepsBystanders(d.body, entries[0], stale, names);
      RunKeepsBystanders(UpsertDoc(d, entries[0].0, WrittenLine(entries[0]), stale), entries[1..], stale, names);
    }
  }

  lemma FrontGrows(x: Line, body: seq<Line>, name: string)
    ensures Front([x] + body, name) == if Exported(x) == Some(name) then [] else [x] + Front(body, name)
  {
    assert ([x] + body)[1..] == body;
  }

  lemma DropFirst(x: Line, body: seq<Line>, names: set<string>)
    ensures Drop([x] + body, names) == if ExportsOneOf(x, names) then Drop(body, names) else [x] + Drop(body, names)
  {
    assert ([x] + body)[1..] == body;
  }

  /** What stands before the first export of a name, among the bystanders of other names. */
  lemma {:induction false} BystandersBefore(body: seq<Line>, name: string, names: set<string>)
    requires name !in names
    ensures Drop(Front(body, name), names) == Front(Drop(body, names), name)
  {
    if body != [] {
      var x, rest := body[0], body[1..];
      assert body == [x] + rest;
      BystandersBefore(rest, name, names);
      FrontGrows(x, rest, name);
      DropFirst(x, rest, names);
      DropFirst(x, Front(rest, name), names);
      FrontGrows(x, Drop(rest, names), name);
    }
  }

  /** The lines in front of the first export of a name. */
  function Front(body: seq<Line>, name: string): seq<Line> {
    body[..FirstExport(body, name)]
  }

  function NamesOf(entries: seq<Entry>): set<string> {
    set i | 0 <= i < |entries| :: entries[i].0
  }

  /**
   * The names whose lines give way before entry `i` is put in or behind it: all of them, but its own unless it is
   * stale and an earlier entry's turn has dropped it.
   */
  function Yielding(entries: seq<Entry>, stale: set<string>, i: nat): set<string>
    requires i < |entries|
  {
    var names := NamesOf(entries) + stale;
    if 0 < i && entries[i].0 in stale then names else names - {entries[i].0}
  }

  predicate IsKept(entries: seq<Entry>, stale: set<string>, i: nat)
    requires i < |entries|
  {
    i == |entries| - 1 || entries[i].0 !in stale
  }

  /**
   * What the shell reads as the name in the lines that stay in front of the entry's place. An entry that a later one
   * drops has no place; then all lines of all blocks count that no entry and nothing stale has a claim to.
   */
  function Shadow(d: Doc, entries: seq<Entry>, stale: set<string>, i: nat): Option<string>
    requires d.Block? && i < |entries|
  {
    if IsKept(entries, stale, i) then
      var stay := Bystanders(d, Yielding(entries, stale, i));
      FirstReading(Front(stay, entries[i].0), entries[i].0)
    else FirstReading(Drop(BlockLines(d), NamesOf(entries) + stale), entries[i].0)
  }

  lemma {:induction false} UpsertAllJoin(d: Doc, a: seq<Entry>, b: seq<Entry>, stale: set<string>)
    ensures UpsertAll(d, a + b, stale) == UpsertAll(UpsertAll(d, a, stale), b, stale)
    decreases |a|
  {
    if a == [] {
      assert a + b == b;
    } else {
      assert (a + b)[0] == a[0] && (a + b)[1..] == a[1..] + b;
      UpsertAllJoin(UpsertDoc(d, a[0].0, WrittenLine(a[0]), stale), a[1..], b, stale);
    }
  }

  predicate NoExportOf(body: seq<Line>, name: string) {
    forall x :: x in body ==> Exported(x) != Some(name)
  }

  lemma {:induction false} DropUnexported(body: seq<Line>, names: set<string>, name: string)
    requires NoExportOf(body, name)
    ensures Drop(body, names + {name}) == Drop(body, names)
  {
    if body != [] {
      DropUnexported(body[1..], names, name);
    }
  }

  /** Dropping fewer names first makes no difference, the name aside that is not there. */
  lemma DropFewer(body: seq<Line>, few: set<string>, names: set<string>, name: string)
    requires NoExportOf(body, name) && few <= names + {name}
    ensures Drop(Drop(body, few), names) == Drop(body, names)
  {
    DropKeepsLines(body, few);
    DropUnexported(Drop(body, few), names, name);
    DropUnexported(body, names, name);
    DropDrop(body, few, names + {name});
  }

  lemma {:induction false} FirstBehind(a: seq<Line>, x: Line, b: seq<Line>, name: string)
    requires NoExportOf(a, name) && Exported(x) == Some(name)
    ensures FirstExport(a + [x] + b, name) == |a|
  {
    if a == [] {
      assert a + [x] + b == [x] + b;
    } else {
      assert (a + [x] + b)[1..] == a[1..] + [x] + b;
      FirstBehind(a[1..], x, b, name);
    }
  }

  lemma FrontExportsNothing(body: seq<Line>, name: string)
    ensures NoExportOf(Front(body, name), name)
  {
    forall x | x in Front(body, name)
      ensures Exported(x) != Some(name)
    {
      var k :| 0 <= k < FirstExport(body, name) && body[k] == x;
    }
  }

  /** A placed line stands behind what is kept of the lines in front of its place. */
  lemma PlaceParts(body: seq<Line>, name: string, line: Line, stale: set<string>) returns (few: set<string>, tail: seq<Line>)
    ensures few == stale || few == stale + {name}
    ensures Place(body, name, line, stale) == Drop(Front(body, name), few) + [line] + tail
  {
    var at := FirstExport(body, name);
    if at == |body| {
      few, tail := stale, [];
      assert Front(body, name) == body;
      assert Drop(body, few) + [line] + [] == Drop(body, few) + [line];
    } else {
      few, tail := stale + {name}, Drop(body[at + 1..], stale + {name});
    }
  }

  lemma FrontOf(a: seq<Line>, x: Line, b: seq<Line>, name: string)
    requires NoExportOf(a, name) && Exported(x) == Some(name)
    ensures Front(a + [x] + b, name) == a
  {
    FirstBehind(a, x, b, name);
  }

  /** An entry's own turn keeps the bystanders in front of its place. */
  lemma PlaceKeepsFront(body: seq<Line>, e: Entry, stale: set<string>, names: set<string>)
    requires ValidName(e.0) && stale <= names + {e.0}
    ensures Drop(Front(Place(body, e.0, WrittenLine(e), stale), e.0), names) == Drop(Front(body, e.0), names)
  {
    var front := Front(body, e.0);
    var few, tail := PlaceParts(body, e.0, WrittenLine(e), stale);
    FrontExportsNothing(body, e.0);
    DropKeepsLines(front, few);
    WrittenLineExports(e.0, e.1);
    FrontOf(Drop(front, few), WrittenLine(e), tail, e.0);
    DropFewer(front, few, names, e.0);
  }

  /** Equal bystanders have equal fronts. */
  lemma SameFront(a: seq<Line>, b: seq<Line>, name: string, names: set<string>)
    requires name !in names && Drop(a, names) == Drop(b, names)
    ensures Drop(Front(a, name), names) == Drop(Front(b, name), names)
  {
    BystandersBefore(a, name, names);
    BystandersBefore(b, name, names);
  }

  lemma {:induction false} DroppedExportNothing(body: seq<Line>, names: set<string>, name: string)
    requires name in names
    ensures NoExportOf(Drop(body, names), name)
  {
    if body != [] {
      DroppedExportNothing(body[1..], names, name);
    }
  }

  lemma {:induction false} NothingFirst(body: seq<Line>, name: string)
    requires NoExportOf(body, name)
    ensures FirstExport(body, name) == |body|
  {
    if body != [] {
      NothingFirst(body[1..], name);
    }
  }

  /** A stale name that an earlier entry's turn has dropped is put at the end, behind all bystanders. */
  lemma PlacedLast(body: seq<Line>, e: Entry, stale: set<string>, names: set<string>)
    requires ValidName(e.0) && e.0 in stale && stale <= names && Select(body, e.0) == []
    ensures Drop(Front(Place(body, e.0, WrittenLine(e), stale), e.0), names) == Drop(body, names)
  {
    NotFound(body, e.0);
    DroppedExportNothing(body, stale, e.0);
    WrittenLineExports(e.0, e.1);
    FirstBehind(Drop(body, stale), WrittenLine(e), [], e.0);
    assert Drop(body, stale) + [WrittenLine(e)] + [] == Drop(body, stale) + [WrittenLine(e)];
    assert (Drop(body, stale) + [WrittenLine(e)])[..|Drop(body, stale)|] == Drop(body, stale);
    DropDrop(body, stale, names);
  }

  /** The front of a stale last entry's line, behind other entries. */
  lemma StaleLastFront(d: Doc, before: seq<Entry>, e: Entry, stale: set<string>, names: set<string>)
    requires d.Block? && ValidEntries(before) && ValidName(e.0) && before != [] && e.0 in stale && stale <= names
    requires forall j :: 0 <= j < |before| ==> before[j].0 != e.0 && before[j].0 in names
    ensures
      var r := UpsertAll(d, before + [e], stale);
      && r.Block?
      && Drop(Front(r.body, e.0), names) == Drop(Front(Bystanders(d, names), e.0), names)
      && Drop(Front(r.body, e.0), names) == Front(Bystanders(d, names), e.0)
  {
    var d1 := UpsertAll(d, before, stale);
    UpsertAllLast(d, before, e, stale);
    OtherEntriesKeep(d, before, stale, e.0);
    RunKeepsBystanders(d, before, stale, names);
    PlacedLast(d1.body, e, stale, names);
    var stay := Bystanders(d, names);
    DroppedExportNothing(d.body, names, e.0);
    NothingFirst(stay, e.0);
    assert stay[..|stay|] == stay;
    DropDrop(d.body, names, names);
  }

  /** The front of an entry that stays where its name is first exported. */
  lemma OwnPlaceFront(d: Doc, before: seq<Entry>, e: Entry, after: seq<Entry>, stale: set<string>, names: set<string>)
    requires d.Block? && ValidEntries(before) && ValidEntries(after) && ValidName(e.0) && e.0 !in names
    requires stale <= names + {e.0} && (e.0 in stale ==> before == [] && after == [])
    requires forall j :: 0 <= j < |before| ==> before[j].0 in names
    requires forall j :: 0 <= j < |after| ==> after[j].0 in names
    ensures
      var r := UpsertAll(d, before + [e] + after, stale);
      r.Block? && Drop(Front(r.body, e.0), names) == Front(Bystanders(d, names), e.0)
  {
    var d1 := UpsertAll(d, before, stale);
    var d2 := UpsertDoc(d1, e.0, WrittenLine(e), stale);
    UpsertAllJoin(d, before + [e], after, stale);
    UpsertAllLast(d, before, e, stale);
    if e.0 !in stale {
      assert stale <= names;
      RunKeepsBystanders(d, before, stale, names);
      RunKeepsBystanders(d2, after, stale, names);
    }
    PlaceKeepsFront(d1.body, e, stale, names);
    SameFront(d1.body, d.body, e.0, names);
    SameFront(UpsertAll(d2, after, stale).body, d2.body, e.0, names);
    BystandersBefore(d.body, e.0, names);
  }

  lemma PartsOf(entries: seq<Entry>, i: nat)
    requires i < |entries|
    ensures entries == entries[..i] + [entries[i]] + entries[i + 1..]
  {
  }

  /** In front of the entry's line, the result holds the bystanders that stood in front of its place. */
  lemma FrontKept(d: Doc, entries: seq<Entry>, stale: set<string>, i: nat)
    requires d.Block? && ValidEntries(entries) && Distinct(entries) && i < |entries| && IsKept(entries, stale, i)
    ensures
      var r, names := UpsertAll(d, entries, stale), Yielding(entries, stale, i);
      r.Block? && Drop(Front(r.body, entries[i].0), names) == Front(Bystanders(d, names), entries[i].0)
  {
    var before, e, after, names := entries[..i], entries[i], entries[i + 1..], Yielding(entries, stale, i);
    PartsOf(entries, i);
    forall j | 0 <= j < |before|
      ensures before[j].0 in names && before[j].0 != e.0
    {
      assert before[j] == entries[j];
    }
    forall j | 0 <= j < |after|
      ensures after[j].0 in names
    {
      var k := i + 1 + j;
      assert after[j] == entries[k];
    }
    if 0 < i && e.0 in stale {
      assert entries == before + [e];
      StaleLastFront(d, before, e, stale, names);
    } else {
      OwnPlaceFront(d, before, e, after, stale, names);
    }
  }

  lemma {:induction false} IsSelected(body: seq<Line>, x: Line, n: string)
    requires x in body && Exported(x) == Some(n)
    ensures x in Select(body, n)
  {
    if x != body[0] {
      IsSelected(body[1..], x, n);
    }
  }

  /** A line of the result that exports another yielding name is a written one, and reads as that name. */
  lemma OthersReadAsThemselves(d: Doc, r: Doc, entries: seq<Entry>, stale: set<string>, i: nat, x: Line)
    requires d.Block? && ValidEntries(entries) && Distinct(entries) && i < |entries|
    requires r == UpsertAll(d, entries, stale) && r.Block? && x in r.body
    requires ExportsOneOf(x, Yielding(entries, stale, i)) && Exported(x) != Some(entries[i].0)
    ensures LineReading(x).None? || LineReading(x).value.0 != entries[i].0
  {
    var n := Exported(x).value;
    IsSelected(r.body, x, n);
    if j :| 0 <= j < |entries| && entries[j].0 == n {
      OneLineForEachEntry(d, entries, stale, j);
      assert x == WrittenLine(entries[j]);
      if LineReading(x).Some? {
        WrittenReadsOwnName(entries[j]);
      }
    } else {
      RunHolds(d, entries, stale, n);
      assert false;
    }
  }

  lemma FrontReads(d: Doc, r: Doc, entries: seq<Entry>, stale: set<string>, i: nat)
    requires d.Block? && ValidEntries(entries) && Distinct(entries) && i < |entries| && IsKept(entries, stale, i)
    requires r == UpsertAll(d, entries, stale) && r.Block?
    ensures FirstReading(Front(r.body, entries[i].0), entries[i].0) == Shadow(d, entries, stale, i)
  {
    var name, names := entries[i].0, Yielding(entries, stale, i);
    var front := Front(r.body, name);
    FrontKept(d, entries, stale, i);
    FrontExportsNothing(r.body, name);
    forall x | x in front && ExportsOneOf(x, names)
      ensures LineReading(x).None? || LineReading(x).value.0 != name
    {
      OthersReadAsThemselves(d, r, entries, stale, i, x);
    }
    ReadsWithout(front, names, name);
  }

  lemma OnlyLine(body: seq<Line>, name: string, line: Line)
    requires Select(body, name) == [line]
    ensures FirstExport(body, name) < |body| && body[FirstExport(body, name)] == line
  {
    FoundWhenSelected(body, name);
    SelectBeforeFirst(body, name);
    var at := FirstExport(body, name);
    Parted(body, at);
    OnlyExport(body[..at], body[at], body[at + 1..], name, line);
  }

  lemma KeptReads(d: Doc, entries: seq<Entry>, stale: set<string>, i: nat)
    requires d.Block? && ValidEntries(entries) && Distinct(entries) && i < |entries| && IsKept(entries, stale, i)
    requires IsTokenName(entries[i].0) && entries[i].1 != []
    ensures
      var shadow := Shadow(d, entries, stale, i);
      FirstReading(BlockLines(UpsertAll(d, entries, stale)), entries[i].0) ==
      if shadow.Some? then shadow else Some(entries[i].1)
  {
    var r, e := UpsertAll(d, entries, stale), entries[i];
    OneLineForEachEntry(d, entries, stale, i);
    OnlyLine(r.body, e.0, WrittenLine(e));
    var at := FirstExport(r.body, e.0);
    Parted(r.body, at);
    FrontReads(d, r, entries, stale, i);
    ReadsBehind(Front(r.body, e.0), e, r.body[at + 1..], BlockLines(r.rest));
  }

  lemma {:induction false} DropAllBystanders(d: Doc, few: set<string>, names: set<string>)
    requires few <= names
    ensures Drop(BlockLines(DropAll(d, few)), names) == Drop(BlockLines(d), names)
  {
    if d.Block? {
      DropAllBystanders(d.rest, few, names);
      DropDrop(d.body, few, names);
      DropJoin(Drop(d.body, few), BlockLines(DropAll(d.rest, few)), names);
      DropJoin(d.body, BlockLines(d.rest), names);
    }
  }

  lemma UpsertKeepsBystanders(d: Doc, e: Entry, stale: set<string>, names: set<string>)
    requires d.Block? && ValidName(e.0) && stale <= names && e.0 in names
    ensures Drop(BlockLines(UpsertDoc(d, e.0, WrittenLine(e), stale)), names) == Drop(BlockLines(d), names)
  {
    var r := UpsertDoc(d, e.0, WrittenLine(e), stale);
    PlaceKeepsBystanders(d.body, e, stale, names);
    DropAllBystanders(d.rest, stale + {e.0}, names);
    DropJoin(r.body, BlockLines(r.rest), names);
    DropJoin(d.body, BlockLines(d.rest), names);
  }

  /** Over all blocks, a run keeps the lines that none of its names has a claim to. */
  lemma {:induction false} RunKeepsAllBystanders(d: Doc, entries: seq<Entry>, stale: set<string>, names: set<string>)
    requires d.Block? && ValidEntries(entries) && stale <= names
    requires forall i :: 0 <= i < |entries| ==> entries[i].0 in names
    ensures Drop(BlockLines(UpsertAll(d, entries, stale)), names) == Drop(BlockLines(d), names)
    decreases |entries|
  {
    if entries != [] {
      UpsertKeepsBystanders(d, entries[0], stale, names);
      RunKeepsAllBystanders(UpsertDoc(d, entries[0].0, WrittenLine(entries[0]), stale), entries[1..], stale, names);
    }
  }

  lemma {:induction false} SelectBlockLines(d: Doc, n: string)
    ensures Select(BlockLines(d), n) == SelectAll(d, n)
  {
    if d.Block? {
      SelectBlockLines(d.rest, n);
      SelectJoin(d.body, BlockLines(d.rest), n);
    }
  }

  /** Behind the run, a line of any block that exports one of its names is a written one, and reads as that name. */
  lemma ClaimedReadAsThemselves(d: Doc, r: Doc, entries: seq<Entry>, stale: set<string>, i: nat, x: Line)
    requires d.Block? && ValidEntries(entries) && Distinct(entries) && i < |entries| && !IsKept(entries, stale, i)
    requires r == UpsertAll(d, entries, stale) && x in BlockLines(r) && ExportsOneOf(x, NamesOf(entries) + stale)
    ensures LineReading(x).None? || LineReading(x).value.0 != entries[i].0
  {
    var n := Exported(x).value;
    IsSelected(BlockLines(r), x, n);
    SelectBlockLines(r, n);
    if j :| 0 <= j < |entries| && entries[j].0 == n {
      OneExportInAllBlocks(d, entries, stale, j);
      OneExportInAllBlocks(d, entries, stale, i);
      assert x == WrittenLine(entries[j]) && j != i;
      if LineReading(x).Some? {
        WrittenReadsOwnName(entries[j]);
      }
    } else {
      RunHolds(d, entries, stale, n);
      assert false;
    }
  }

  /** An entry that a later one drops is read as what is left to read. */
  lemma DroppedReads(d: Doc, entries: seq<Entry>, stale: set<string>, i: nat)
    requires d.Block? && ValidEntries(entries) && Distinct(entries) && i < |entries| && !IsKept(entries, stale, i)
    ensures FirstReading(BlockLines(UpsertAll(d, entries, stale)), entries[i].0) == Shadow(d, entries, stale, i)
  {
    var r, names := UpsertAll(d, entries, stale), NamesOf(entries) + stale;
    forall x | x in BlockLines(r) && ExportsOneOf(x, names)
      ensures LineReading(x).None? || LineReading(x).value.0 != entries[i].0
    {
      ClaimedReadAsThemselves(d, r, entries, stale, i, x);
    }
    ReadsWithout(BlockLines(r), names, entries[i].0);
    RunKeepsAllBystanders(d, entries, stale, names);
  }

  /** In the document: a kept entry is read as its value, unless a line in front of it is read first. */
  lemma ReadInDocument(d: Doc, entries: seq<Entry>, stale: set<string>, i: nat)
    requires d.Block? && ValidEntries(entries) && Distinct(entries) && i < |entries|
    requires IsTokenName(entries[i].0) && entries[i].1 != []
    ensures
      var shadow := Shadow(d, entries, stale, i);
      FirstReading(BlockLines(UpsertAll(d, entries, stale)), entries[i].0) ==
      if shadow.None? && IsKept(entries, stale, i) then Some(entries[i].1) else shadow
  {
    if IsKept(entries, stale, i) {
      KeptReads(d, entries, stale, i);
    } else {
      DroppedReads(d, entries, stale, i);
    }
  }

  lemma ReadsBehind(head: seq<Line>, e: Entry, tail: seq<Line>, later: seq<Line>)
    requires ValidName(e.0) && IsTokenName(e.0) && e.1 != []
    ensures
      var shadow := FirstReading(head, e.0);
      FirstReading(head + [WrittenLine(e)] + tail + later, e.0) == if shadow.Some? then shadow else Some(e.1)
  {
    var line := WrittenLine(e);
    assert head + [line] + tail + later == head + ([line] + (tail + later));
    WrittenLineReads(e);
    FirstReadingJoin(head, [line] + (tail + later), e.0);
  }
}
