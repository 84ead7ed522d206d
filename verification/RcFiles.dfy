/** `upsert` of scripts/aicode_tokens.py from text to text. */
module RcFiles {
  // What is written is cut into lines again by the next run, which may pair a carriage return with a line feed that a
  // dropped line kept apart. `ReadAgain` says what document the next run sees; the text is stable all the same.

  import opened Wrappers
  import opened PythonLines
  import opened TokenBlocks
  import opened AicodeTokens
  import Text
  import ShellWords

  function UpsertedLines(lines: seq<Line>, entries: seq<Entry>, stale: set<string>): seq<Line> {
    Flatten(UpsertAll(DocOf(Prepared(lines)), entries, stale))
  }

  function UpsertedText(text: string, entries: seq<Entry>, stale: set<string>): string {
    JoinLines(UpsertedLines(SplitLines(text), entries, stale))
  }

  /** `upsert` */
  method Upsert(text: string, entries: seq<Entry>, stale: set<string>) returns (result: string)
    ensures result == UpsertedText(text, entries, stale)
  {
    var lines := UpsertLines(SplitLines(text), entries, stale);
    result := JoinLines(lines);
  }

  /* ---- the file before the first entry, cut as Python cuts it ---- */

  /** What a file without a block is completed to: a line end behind another line end is a line of its own. */
  function CompletedLines(lines: seq<Line>): seq<Line> {
    if lines == [] || EndsLine(lines[|lines| - 1]) then lines
    else
      var last := lines[|lines| - 1];
      if Ended(last) && last[|last| - 1] != '\r' then lines + ["\n"] else lines[..|lines| - 1] + [last + "\n"]
  }

  function PreparedLines(lines: seq<Line>): seq<Line> {
    if DocOf(lines).Block? then lines else CompletedLines(lines) + [START + "\n", END + "\n"]
  }

  lemma {:induction false} CompletedAlike(lines: seq<Line>)
    ensures JoinLines(CompletedLines(lines)) == JoinLines(Completed(lines))
  {
    if lines != [] {
      var front, last := lines[..|lines| - 1], lines[|lines| - 1];
      assert lines == front + [last];
      JoinBoth(front, [last]);
      JoinBoth(front, [last + "\n"]);
      JoinBoth(lines, ["\n"]);
      assert forall x: Line :: [x][1..] == [] && JoinLines([x]) == x + JoinLines([]);
    }
  }

  lemma CompletedIsWhole(lines: seq<Line>)
    requires WholeLines(lines) && NoPairs(lines)
    ensures AllOneLine(CompletedLines(lines)) && AllEnded(CompletedLines(lines)) && NoPairs(CompletedLines(lines))
  {
    if lines != [] {
      var front, last := lines[..|lines| - 1], lines[|lines| - 1];
      assert lines == front + [last];
      UnbrokenLine("");
      assert "" + "\n" == "\n";
      if !EndsLine(last) && (!Ended(last) || last[|last| - 1] == '\r') {
        LineCompleted(last);
      }
    }
  }

  lemma NewlineIsNoMarker()
    ensures !IsMarker("\n")
  {
    assert "\n"[..0] == "";
    assert Text.RStrip("\n") == "";
  }

  lemma CompletedLinesStayOpen(lines: seq<Line>)
    requires OpenAfter(lines, false).Some?
    ensures OpenAfter(CompletedLines(lines), false).Some?
  {
    CompletedStaysOpen(lines);
    NewlineIsNoMarker();
    OpenAfterJoin(lines, ["\n"], false);
    assert ["\n"][1..] == [];
  }

  /** The document of the file as it is written differs from that of `Prepared` in the lines before its block at most. */
  lemma PreparedAlike(lines: seq<Line>)
    ensures
      var d, e := DocOf(Prepared(lines)), DocOf(PreparedLines(lines));
      d.Block? && e.Block? && d == e.(lead := d.lead) && JoinLines(d.lead) == JoinLines(e.lead)
  {
    PreparedDoc(lines);
    if DocOf(lines).Tail? {
      DocOfIsProper(lines);
      NewMarkers();
      CompletedLinesStayOpen(lines);
      NewBlock(CompletedLines(lines), START + "\n", END + "\n");
      CompletedAlike(lines);
      JoinBoth(CompletedLines(lines), [START + "\n"]);
      JoinBoth(Completed(lines), [START + "\n"]);
    }
  }

  lemma FlattenParts(d: Doc)
    requires d.Block?
    ensures Flatten(d) == d.lead + (d.body + ([d.close] + Flatten(d.rest)))
  {
    Assoc(d.lead, d.body, [d.close]);
    Assoc(d.lead, d.body + [d.close], Flatten(d.rest));
    Assoc(d.body, [d.close], Flatten(d.rest));
  }

  lemma FlattenLead(d: Doc, lead: seq<Line>)
    requires d.Block? && JoinLines(d.lead) == JoinLines(lead)
    ensures JoinLines(Flatten(d.(lead := lead))) == JoinLines(Flatten(d))
  {
    var tail := d.body + ([d.close] + Flatten(d.rest));
    FlattenParts(d);
    FlattenParts(d.(lead := lead));
    JoinBoth(d.lead, tail);
    JoinBoth(lead, tail);
  }

  /** The document that the entries are put into. */
  function RunDoc(text: string, entries: seq<Entry>, stale: set<string>): Doc {
    UpsertAll(DocOf(PreparedLines(SplitLines(text))), entries, stale)
  }

  lemma UpsertedIsRun(text: string, entries: seq<Entry>, stale: set<string>)
    ensures UpsertedText(text, entries, stale) == JoinLines(Flatten(RunDoc(text, entries, stale)))
  {
    var lines := SplitLines(text);
    var d, e := DocOf(Prepared(lines)), DocOf(PreparedLines(lines));
    PreparedAlike(lines);
    LeadIsKept(e, d.lead, entries, stale);
    FlattenLead(RunDoc(text, entries, stale), d.lead);
  }

  /* ---- whole documents ---- */

  /** Every line of the document is one line, and only the last may lack its end. */
  predicate DocWhole(d: Doc) {
    match d
    case Tail(lines) => WholeLines(lines)
    case Block(lead, body, close, rest) =>
      && AllOneLine(lead) && AllEnded(lead) && AllOneLine(body) && AllEnded(body)
      && OneLine(close) && (Ended(close) || Flatten(rest) == []) && DocWhole(rest)
  }

  lemma WholeJoin(a: seq<Line>, b: seq<Line>)
    ensures b != [] ==> (WholeLines(a + b) <==> AllOneLine(a) && AllEnded(a) && WholeLines(b))
  {
    if b != [] {
      assert (a + b)[..|a + b| - 1] == a + b[..|b| - 1];
    }
  }

  lemma {:induction false} DocWholeIsWhole(d: Doc)
    ensures DocWhole(d) <==> WholeLines(Flatten(d))
  {
    if d.Block? {
      DocWholeIsWhole(d.rest);
      var rest := Flatten(d.rest);
      var last := [d.close] + rest;
      Assoc(d.lead + d.body, [d.close], rest);
      WholeJoin(d.lead + d.body, last);
      if rest == [] {
        assert last == [d.close] && last[..0] == [];
        assert WholeLines(last) <==> OneLine(last[0]);
      } else {
        WholeJoin([d.close], rest);
        assert AllOneLine([d.close]) <==> OneLine([d.close][0]);
        assert AllEnded([d.close]) <==> Ended([d.close][0]);
      }
    }
  }

  lemma {:induction false} DropAllKeepsWhole(d: Doc, names: set<string>)
    requires DocWhole(d)
    ensures DocWhole(DropAll(d, names)) && (Flatten(d) == [] ==> Flatten(DropAll(d, names)) == [])
  {
    if d.Block? {
      DropAllKeepsWhole(d.rest, names);
      DropKeepsLines(d.body, names);
    }
  }

  lemma UpsertDocKeepsWhole(d: Doc, name: string, line: Line, stale: set<string>)
    requires d.Block? && DocWhole(d) && OneLine(line) && Ended(line)
    ensures DocWhole(UpsertDoc(d, name, line, stale))
  {
    DropAllKeepsWhole(d.rest, stale + {name});
    PlaceKeepsLines(d.body, name, line, stale);
  }

  lemma {:induction false} QuoteUnbroken(value: string)
    requires Unbroken(value)
    ensures Unbroken(ShellWords.Escape(value))
  {
    if value != [] {
      QuoteUnbroken(value[1..]);
    }
  }

  lemma WrittenLineIsOne(e: Entry)
    requires ValidName(e.0) && Unbroken(e.1)
    ensures OneLine(WrittenLine(e)) && Ended(WrittenLine(e))
  {
    QuoteUnbroken(e.1);
    var text := "export " + e.0 + "=" + ShellWords.Quote(e.1);
    assert Unbroken("export ") && Unbroken(e.0) && Unbroken(ShellWords.Quote(e.1));
    UnbrokenLine(text);
    assert WrittenLine(e) == text + "\n";
  }

  predicate UnbrokenValues(entries: seq<Entry>) {
    forall i :: 0 <= i < |entries| ==> Unbroken(entries[i].1)
  }

  lemma {:induction false} UpsertAllKeepsWhole(d: Doc, entries: seq<Entry>, stale: set<string>)
    requires d.Block? && DocWhole(d) && ValidEntries(entries) && UnbrokenValues(entries)
    ensures DocWhole(UpsertAll(d, entries, stale)) && UpsertAll(d, entries, stale).Block?
    decreases |entries|
  {
    if entries != [] {
      WrittenLineIsOne(entries[0]);
      UpsertDocKeepsWhole(d, entries[0].0, WrittenLine(entries[0]), stale);
      UpsertAllKeepsWhole(UpsertDoc(d, entries[0].0, WrittenLine(entries[0]), stale), entries[1..], stale);
    }
  }

  lemma PreparedIsWhole(lines: seq<Line>)
    requires WholeLines(lines) && NoPairs(lines)
    ensures WholeLines(PreparedLines(lines)) && NoPairs(PreparedLines(lines))
  {
    if DocOf(lines).Tail? {
      var markers := [START + "\n", END + "\n"];
      CompletedIsWhole(lines);
      MarkersAreWhole(markers);
      WholeJoin(CompletedLines(lines), markers);
      NoPairsAcross(CompletedLines(lines), markers);
    }
  }

  lemma MarkersUnbroken()
    ensures Unbroken(START) && Unbroken(END) && START != "" && END != ""
  {
  }

  lemma MarkersAreWhole(markers: seq<Line>)
    requires markers == [START + "\n", END + "\n"]
    ensures WholeLines(markers) && markers[0] != "\n" && markers[1] != "\n"
  {
    MarkersUnbroken();
    TwoWholeLines(START, END, markers);
  }

  lemma TwoWholeLines(a: string, b: string, lines: seq<Line>)
    requires Unbroken(a) && Unbroken(b) && a != "" && b != "" && lines == [a + "\n", b + "\n"]
    ensures WholeLines(lines) && lines[0] != "\n" && lines[1] != "\n"
  {
    UnbrokenLine(a);
    UnbrokenLine(b);
  }

  lemma NoPairsAcross(a: seq<Line>, markers: seq<Line>)
    requires NoPairs(a) && |markers| == 2 && markers[0] != "\n" && markers[1] != "\n"
    ensures NoPairs(a + markers)
  {
  }

  /* ---- pairs that come about ---- */

  /** Outside the bodies no two lines make one: neither within the other lines nor behind a block. */
  predicate Sealed(d: Doc) {
    match d
    case Tail(lines) => NoPairs(lines)
    case Block(lead, _, close, rest) =>
      NoPairs(lead) && (Flatten(rest) != [] ==> !Pair(close, Flatten(rest)[0])) && Sealed(rest)
  }

  lemma NoPairsIn(a: seq<Line>, b: seq<Line>)
    requires NoPairs(a + b)
    ensures NoPairs(a) && NoPairs(b) && (a != [] && b != [] ==> !Pair(a[|a| - 1], b[0]))
  {
    var all := a + b;
    forall i, j | 0 <= i < |a| && j == i + 1 < |a|
      ensures !Pair(a[i], a[j])
    {
      assert all[i] == a[i] && all[j] == a[j];
    }
    forall i, j | 0 <= i < |b| && j == i + 1 < |b|
      ensures !Pair(b[i], b[j])
    {
      var k, l := |a| + i, |a| + j;
      assert all[k] == b[i] && all[l] == b[j];
    }
    if a != [] && b != [] {
      var k, l := |a| - 1, |a|;
      assert all[k] == a[|a| - 1] && all[l] == b[0];
    }
  }

  lemma {:induction false} SealedWhenNoPairs(d: Doc)
    requires NoPairs(Flatten(d))
    ensures Sealed(d)
  {
    if d.Block? {
      var rest := Flatten(d.rest);
      FlattenParts(d);
      NoPairsIn(d.lead, d.body + ([d.close] + rest));
      NoPairsIn(d.lead + d.body + [d.close], rest);
      SealedWhenNoPairs(d.rest);
    }
  }

  lemma {:induction false} DropAllKeepsSealed(d: Doc, names: set<string>)
    requires Sealed(d) && Led(d)
    ensures Sealed(DropAll(d, names)) && Led(DropAll(d, names))
    ensures Flatten(d) != [] ==> Flatten(DropAll(d, names)) != [] && Flatten(DropAll(d, names))[0] == Flatten(d)[0]
    ensures Flatten(d) == [] ==> Flatten(DropAll(d, names)) == []
  {
    if d.Block? {
      DropAllKeepsSealed(d.rest, names);
    }
  }

  lemma {:induction false} UpsertAllKeepsSealed(d: Doc, entries: seq<Entry>, stale: set<string>)
    requires d.Block? && Sealed(d) && Led(d)
    ensures Sealed(UpsertAll(d, entries, stale))
    decreases |entries|
  {
    if entries != [] {
      DropAllKeepsSealed(d.rest, stale + {entries[0].0});
      UpsertAllKeepsSealed(UpsertDoc(d, entries[0].0, WrittenLine(entries[0]), stale), entries[1..], stale);
    }
  }

  /** The first line of the body completes the start marker's line. */
  predicate Crosses(d: Doc) {
    d.Block? && d.lead != [] && d.body != [] && Pair(d.lead[|d.lead| - 1], d.body[0])
  }

  function MendedLead(d: Doc): seq<Line>
    requires d.Block?
  {
    if Crosses(d) then d.lead[..|d.lead| - 1] + [d.lead[|d.lead| - 1] + "\n"] else d.lead
  }

  function MendedBody(d: Doc): seq<Line>
    requires d.Block?
  {
    Mend(if Crosses(d) then d.body[1..] else d.body)
  }

  /** What a document is when its text is cut again. */
  function Mended(d: Doc): Doc {
    match d
    case Tail(_) => d
    case Block(_, _, close, rest) => Block(MendedLead(d), MendedBody(d), close, Mended(rest))
  }

  /** The body's first line ends the line before it. */
  lemma MendAcross(front: seq<Line>, last: Line, behind: seq<Line>)
    requires NoPairs(front + [last]) && Pair(last, "\n") && last != "\n"
    ensures Mend(front + ([last, "\n"] + behind)) == front + [last + "\n"] + Mend(behind)
  {
    var rest := [last, "\n"] + behind;
    NoPairsIn(front, [last]);
    NothingToMend(front);
    MendJoin(front, rest);
    assert rest[2..] == behind;
    Assoc(front, [last + "\n"], Mend(behind));
  }

  /** Pairs within a body and at its start are all there are. */
  lemma MendBlock(d: Doc, tail: seq<Line>)
    requires d.Block? && d.lead != [] && d.lead[|d.lead| - 1] != "\n" && NoPairs(d.lead)
    requires tail != [] && tail[0] != "\n"
    ensures Mend(d.lead + (d.body + tail)) == MendedLead(d) + (MendedBody(d) + Mend(tail))
  {
    if Crosses(d) {
      var front, last, behind := d.lead[..|d.lead| - 1], d.lead[|d.lead| - 1], d.body[1..];
      assert d.lead == front + [last];
      assert d.lead + (d.body + tail) == front + ([last, "\n"] + (behind + tail));
      MendAcross(front, last, behind + tail);
      MendJoin(behind, tail);
    } else {
      NothingToMend(d.lead);
      MendJoin(d.lead, d.body + tail);
      MendJoin(d.body, tail);
    }
  }

  lemma EndIsNoNewline(close: Line)
    requires IsMarker(close)
    ensures close != "\n"
  {
    NewlineIsNoMarker();
  }

  lemma {:induction false} MendedFlatten(d: Doc)
    requires Proper(d) && Sealed(d)
    ensures Mend(Flatten(d)) == Flatten(Mended(d))
  {
    match d
    case Tail(lines) => NothingToMend(lines);
    case Block(lead, body, close, rest) =>
      var tail := [close] + Flatten(rest);
      EndIsNoNewline(close);
      EndIsNoNewline(lead[|lead| - 1]);
      MendJoin([close], Flatten(rest));
      MendedFlatten(rest);
      MendBlock(d, tail);
      FlattenParts(d);
      FlattenParts(Mended(d));
  }

  lemma {:induction false} MendKeepsNoMarker(body: seq<Line>)
    requires NoMarker(body)
    ensures NoMarker(Mend(body))
    decreases |body|
  {
    if 2 <= |body| {
      assert !IsMarker(body[0]);
      RStripLineEnd(body[0]);
      MendKeepsNoMarker(if Pair(body[0], body[1]) then body[2..] else body[1..]);
    }
  }

  lemma MendedLeadOpens(d: Doc)
    requires Proper(d) && d.Block?
    ensures
      var lead := MendedLead(d);
      lead != [] && IsStart(lead[|lead| - 1]) && OpenAfter(lead, false).Some?
  {
    if Crosses(d) {
      var front, last := d.lead[..|d.lead| - 1], d.lead[|d.lead| - 1];
      RStripLineEnd(last);
      SameMarkerAtEnd(front, last + "\n", last, false);
      assert d.lead == front + [last];
    }
  }

  lemma {:induction false} MendedIsProper(d: Doc)
    requires Proper(d)
    ensures Proper(Mended(d))
  {
    if d.Block? {
      MendedLeadOpens(d);
      MendKeepsNoMarker(if Crosses(d) then d.body[1..] else d.body);
      MendedIsProper(d.rest);
    }
  }

  /** The run's document is whole, so that its text can be cut again. */
  lemma RunIsWhole(text: string, entries: seq<Entry>, stale: set<string>)
    requires ValidEntries(entries) && UnbrokenValues(entries)
    ensures
      var d := RunDoc(text, entries, stale);
      d.Block? && WholeLines(Flatten(d)) && Proper(d) && Sealed(d)
  {
    var lines := PreparedLines(SplitLines(text));
    var d := DocOf(lines);
    SplitIsWhole(text);
    PreparedIsWhole(SplitLines(text));
    PreparedAlike(SplitLines(text));
    DocOfIsProper(lines);
    ProperIsLed(d);
    DocWholeIsWhole(d);
    SealedWhenNoPairs(d);
    UpsertAllKeepsWhole(d, entries, stale);
    UpsertAllKeepsProper(d, entries, stale);
    UpsertAllKeepsSealed(d, entries, stale);
    DocWholeIsWhole(UpsertAll(d, entries, stale));
  }

  /** What the next reader of the text sees. */
  lemma ReadAgain(text: string, entries: seq<Entry>, stale: set<string>)
    requires ValidEntries(entries) && UnbrokenValues(entries)
    ensures DocOf(SplitLines(UpsertedText(text, entries, stale))) == Mended(RunDoc(text, entries, stale))
  {
    var d := RunDoc(text, entries, stale);
    UpsertedIsRun(text, entries, stale);
    RunIsWhole(text, entries, stale);
    SplitJoin(Flatten(d));
    MendedFlatten(d);
    MendedIsProper(d);
    CutFlatten(Mended(d));
  }

  /* ---- a second run on the text ---- */

  lemma {:induction false} LStripGrown(line: Line, c: char)
    requires Text.IsSpace(c)
    ensures Text.LStrip(line) != "" ==> Text.LStrip(line + [c]) == Text.LStrip(line) + [c]
    ensures Text.LStrip(line) == "" ==> Text.LStrip(line + [c]) == ""
  {
    if line == "" {
      assert line + [c] == [c] && [c][1..] == "";
    } else if Text.IsSpace(line[0]) {
      assert (line + [c])[1..] == line[1..] + [c];
      LStripGrown(line[1..], c);
    }
  }

  lemma {:induction false} NameLengthGrown(s: string, c: char)
    requires Text.IsSpace(c)
    ensures NameLength(s + [c]) == NameLength(s)
  {
    if s == "" {
      assert s + [c] == [c];
    } else {
      assert (s + [c])[1..] == s[1..] + [c];
      NameLengthGrown(s[1..], c);
    }
  }

  lemma AssignedNameGrown(s: string, c: char)
    requires Text.IsSpace(c)
    ensures AssignedName(s + [c]) == AssignedName(s)
  {
    LStripGrown(s, c);
    var rest := Text.LStrip(s);
    NameLengthGrown(rest, c);
    if rest != "" {
      assert NameLength(rest) < |rest| ==> (rest + [c])[NameLength(rest)] == rest[NameLength(rest)];
      assert (rest + [c])[..NameLength(rest)] == rest[..NameLength(rest)];
    }
  }

  /** White space at its end does not change what a line exports. */
  lemma ExportedGrown(line: Line, c: char)
    requires Text.IsSpace(c)
    ensures Exported(line + [c]) == Exported(line)
  {
    LStripGrown(line, c);
    var s := Text.LStrip(line);
    if "export" <= s {
      assert (s + [c])[6..] == s[6..] + [c] && "export" <= s + [c];
      AssignedNameGrown(s[6..], c);
    }
    assert |s| == 5 ==> (s + [c])[5] == c != "export"[5];
  }

  lemma NewlineExportsNothing()
    ensures Exported("\n") == None
  {
    assert Text.LStrip("\n") == "" by {
      assert "\n"[1..] == "";
    }
  }

  /** Lines that are no part of a pair are selected from the mended lines as before. */
  lemma {:induction false} SelectMend(body: seq<Line>, n: string)
    requires forall x :: x in Select(body, n) ==> EndsLine(x)
    ensures Select(Mend(body), n) == Select(body, n)
    decreases |body|
  {
    if 2 <= |body| {
      NewlineExportsNothing();
      ExportedGrown(body[0], '\n');
      var x, rest := body[0], body[1..];
      assert Exported(x) == Some(n) ==> x in Select(body, n);
      assert forall y :: y in Select(rest, n) ==> y in Select(body, n);
      if Pair(x, body[1]) {
        assert rest[0] == "\n" && rest[1..] == body[2..];
        assert Exported(x) != Some(n);
        var mended := Mend(body[2..]);
        assert [x + "\n"][0] == x + "\n" && ([x + "\n"] + mended)[1..] == mended;
        SelectMend(body[2..], n);
      } else {
        assert ([x] + Mend(rest))[1..] == Mend(rest);
        SelectMend(rest, n);
      }
    }
  }

  lemma SelectMended(d: Doc, n: string)
    requires d.Block? && forall x :: x in Select(d.body, n) ==> EndsLine(x)
    ensures Select(MendedBody(d), n) == Select(d.body, n)
  {
    if Crosses(d) {
      NewlineExportsNothing();
      SelectMend(d.body[1..], n);
    } else {
      SelectMend(d.body, n);
    }
  }

  lemma {:induction false} SelectAllMended(d: Doc, n: string)
    requires SelectAll(d, n) == []
    ensures SelectAll(Mended(d), n) == []
  {
    if d.Block? {
      SelectMended(d, n);
      SelectAllMended(d.rest, n);
    }
  }

  lemma HoldsMended(d: Doc, n: string, first: seq<Line>)
    requires Holds(d, n, first, []) && forall x :: x in first ==> EndsLine(x)
    ensures Holds(Mended(d), n, first, [])
  {
    SelectMended(d, n);
    SelectAllMended(d.rest, n);
  }

  lemma LastIsKept(body: seq<Line>, x: Line)
    requires body != [] && body[|body| - 1] == x && x != "\n"
    ensures Mend(body) != [] && Mend(body)[|Mend(body)| - 1] == x
  {
    var front := body[..|body| - 1];
    assert body == front + [x];
    MendJoin(front, [x]);
  }

  lemma WrittenLineEnds(e: Entry)
    ensures EndsLine(WrittenLine(e)) && WrittenLine(e) != "\n"
  {
    assert WrittenLine(e)[0] == 'e';
  }

  lemma MendedHolds(d: Doc, entries: seq<Entry>, stale: set<string>)
    requires entries != [] && Stable(d, entries, stale)
    ensures forall i :: 0 <= i < |entries| && (i == |entries| - 1 || entries[i].0 !in stale) ==>
              Holds(Mended(d), entries[i].0, [WrittenLine(entries[i])], [])
    ensures forall n :: n in stale && n != entries[|entries| - 1].0 ==> Holds(Mended(d), n, [], [])
  {
    forall i | 0 <= i < |entries| && (i == |entries| - 1 || entries[i].0 !in stale)
      ensures Holds(Mended(d), entries[i].0, [WrittenLine(entries[i])], [])
    {
      WrittenLineEnds(entries[i]);
      HoldsMended(d, entries[i].0, [WrittenLine(entries[i])]);
    }
    forall n | n in stale && n != entries[|entries| - 1].0
      ensures Holds(Mended(d), n, [], [])
    {
      HoldsMended(d, n, []);
    }
  }

  lemma MendedEndsAlike(d: Doc, last: Entry)
    requires d.Block? && d.body != [] && d.body[|d.body| - 1] == WrittenLine(last)
    ensures
      var body := Mended(d).body;
      body != [] && body[|body| - 1] == WrittenLine(last)
  {
    WrittenLineEnds(last);
    assert Crosses(d) ==> d.body[0] == "\n" && 1 < |d.body|;
    LastIsKept(if Crosses(d) then d.body[1..] else d.body, WrittenLine(last));
  }

  lemma MendedStaysStable(d: Doc, entries: seq<Entry>, stale: set<string>)
    requires entries != [] && Stable(d, entries, stale)
    ensures Stable(Mended(d), entries, stale)
  {
    MendedHolds(d, entries, stale);
    if entries[|entries| - 1].0 in stale && 1 < |entries| {
      MendedEndsAlike(d, entries[|entries| - 1]);
    }
  }

  lemma RunAgain(text: string, entries: seq<Entry>, stale: set<string>)
    requires ValidEntries(entries) && UnbrokenValues(entries) && Distinct(entries)
    ensures
      var d := Mended(RunDoc(text, entries, stale));
      d.Block? && UpsertAll(d, entries, stale) == d
  {
    RunIsWhole(text, entries, stale);
    if entries != [] {
      PreparedAlike(SplitLines(text));
      RunIsStable(DocOf(PreparedLines(SplitLines(text))), entries, stale);
      MendedStaysStable(RunDoc(text, entries, stale), entries, stale);
      StableStays(Mended(RunDoc(text, entries, stale)), entries, stale);
    }
  }

  /** Running `upsert` on its own result gives the same text, for any file and any values without line breaks. */
  lemma UpsertedTextIsStable(text: string, entries: seq<Entry>, stale: set<string>)
    requires ValidEntries(entries) && UnbrokenValues(entries) && Distinct(entries)
    ensures UpsertedText(UpsertedText(text, entries, stale), entries, stale) == UpsertedText(text, entries, stale)
  {
    var after := UpsertedText(text, entries, stale);
    ReadAgain(text, entries, stale);
    RunAgain(text, entries, stale);
    DocOfIsProper(SplitLines(after));
    JoinSplit(after);
  }
}
