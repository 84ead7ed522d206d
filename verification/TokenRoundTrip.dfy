/** What `token_exports` of scripts/aicode_tokens.py reads of the text that `upsert` writes. */
module TokenRoundTrip {
  // `ReadsBackExactly` is the round trip, from text to text and with the exact condition for it.

  import opened Wrappers
  import opened PythonLines
  import opened TokenBlocks
  import opened AicodeTokens
  import opened RcFiles
  import opened TokenReading
  import ShellWords
  import Text

  /** What `token_exports` finds for a name in a text. */
  function ReadBack(text: string, name: string): Option<string> {
    FirstReading(BlockLines(DocOf(SplitLines(text))), name)
  }

  lemma ChompPair(line: Line)
    requires Pair(line, "\n")
    ensures Chomp(line + "\n") == Chomp(line)
  {
    var n := |line|;
    assert (line + "\n")[n] == '\n' && (line + "\n")[n - 1] == '\r';
    assert (line + "\n")[..n - 1] == line[..n - 1];
  }

  lemma NewlineReadsNothing()
    ensures LineReading("\n") == None
  {
    assert "\n"[..0] == "";
    assert Chomp("\n") == "" && ShellWords.Split("") == Some([]);
  }

  /** Lines that became one are read as before. */
  lemma {:induction false} ReadMend(lines: seq<Line>, name: string)
    ensures FirstReading(Mend(lines), name) == FirstReading(lines, name)
    decreases |lines|
  {
    if 2 <= |lines| {
      if Pair(lines[0], lines[1]) {
        NewlineReadsNothing();
        ChompPair(lines[0]);
        assert lines[1..][0] == "\n" && lines[1..][1..] == lines[2..];
        assert ([lines[0] + "\n"] + Mend(lines[2..]))[1..] == Mend(lines[2..]);
        ReadMend(lines[2..], name);
      } else {
        assert ([lines[0]] + Mend(lines[1..]))[1..] == Mend(lines[1..]);
        ReadMend(lines[1..], name);
      }
    }
  }

  lemma ReadMendedBody(d: Doc, name: string)
    requires d.Block?
    ensures FirstReading(MendedBody(d), name) == FirstReading(d.body, name)
  {
    if Crosses(d) {
      NewlineReadsNothing();
      ReadMend(d.body[1..], name);
    } else {
      ReadMend(d.body, name);
    }
  }

  lemma {:induction false} ReadMended(d: Doc, name: string)
    ensures FirstReading(BlockLines(Mended(d)), name) == FirstReading(BlockLines(d), name)
  {
    if d.Block? {
      ReadMendedBody(d, name);
      ReadMended(d.rest, name);
      FirstReadingJoin(MendedBody(d), BlockLines(Mended(d.rest)), name);
      FirstReadingJoin(d.body, BlockLines(d.rest), name);
    }
  }

  predicate UnbrokenWords(words: seq<string>) {
    forall w :: w in words ==> Unbroken(w)
  }

  lemma {:induction false} ScanUnbroken(s: string, state: ShellWords.State, word: string, quoted: bool)
    requires Unbroken(s) && Unbroken(word)
    ensures
      var words := ShellWords.Scan(s, state, word, quoted);
      words.Some? ==> UnbrokenWords(words.value)
    decreases |s|
  {
    if s != "" {
      var c, rest := s[0], s[1..];
      match state
      case Between =>
        ScanUnbroken(rest, ShellWords.Between, [], false);
        ScanUnbroken(rest, ShellWords.Escaping(ShellWords.InWord), [], false);
        ScanUnbroken(rest, ShellWords.InQuote(c), [], true);
        ScanUnbroken(rest, ShellWords.InWord, [c], false);
      case InWord =>
        ScanUnbroken(rest, ShellWords.Between, [], false);
        ScanUnbroken(rest, ShellWords.Escaping(ShellWords.InWord), word, quoted);
        ScanUnbroken(rest, ShellWords.InQuote(c), word, true);
        ScanUnbroken(rest, ShellWords.InWord, word + [c], quoted);
      case InQuote(q) =>
        ScanUnbroken(rest, ShellWords.InWord, word, quoted);
        ScanUnbroken(rest, ShellWords.Escaping(state), word, quoted);
        ScanUnbroken(rest, state, word + [c], quoted);
      case Escaping(back) =>
        ScanUnbroken(rest, back, word + "" + [c], quoted);
        ScanUnbroken(rest, back, word + "\\" + [c], quoted);
    }
  }

  lemma {:induction false} OneLineChomped(line: Line)
    requires OneLine(line)
    ensures Unbroken(Chomp(line))
  {
    if !IsBreak(line[0]) && 1 < |line| {
      OneLineChomped(line[1..]);
      assert line[1..][|line| - 2] == line[|line| - 1];
      assert 3 <= |line| ==> line[1..][|line| - 3] == line[|line| - 2];
      assert Chomp(line) == [line[0]] + Chomp(line[1..]);
    }
  }

  lemma ReadingUnbroken(line: Line)
    requires OneLine(line) && LineReading(line).Some?
    ensures Unbroken(LineReading(line).value.1)
  {
    OneLineChomped(line);
    ScanUnbroken(Chomp(line), ShellWords.Between, [], false);
    var words := ShellWords.Split(Chomp(line)).value;
    assert words[1] in words;
  }

  lemma {:induction false} FoundIsUnbroken(lines: seq<Line>, name: string)
    requires AllOneLine(lines)
    ensures
      var found := FirstReading(lines, name);
      found.Some? ==> Unbroken(found.value) && IsTokenName(name) && found.value != []
  {
    if lines != [] {
      FoundIsUnbroken(lines[1..], name);
      if LineReading(lines[0]).Some? {
        ReadingUnbroken(lines[0]);
      }
    }
  }

  lemma {:induction false} BlockLinesIn(d: Doc)
    ensures forall x :: x in BlockLines(d) ==> x in Flatten(d)
  {
    if d.Block? {
      BlockLinesIn(d.rest);
    }
  }

  /** Nothing with a line break in it is ever read, and only for token names. */
  lemma ReadBackIsUnbroken(text: string, name: string)
    ensures
      var found := ReadBack(text, name);
      found.Some? ==> Unbroken(found.value) && IsTokenName(name) && found.value != []
  {
    var lines := SplitLines(text);
    SplitIsWhole(text);
    DocOfIsProper(lines);
    BlockLinesIn(DocOf(lines));
    FoundIsUnbroken(BlockLines(DocOf(lines)), name);
  }

  /** The document before the run; what stands before its first block does not matter here. */
  function DocBefore(text: string): (d: Doc) {
    DocOf(Prepared(SplitLines(text)))
  }

  lemma ShadowOfBlocks(d: Doc, c: Doc, entries: seq<Entry>, stale: set<string>, i: nat)
    requires d.Block? && c.Block? && d.body == c.body && d.rest == c.rest && i < |entries|
    ensures Shadow(d, entries, stale, i) == Shadow(c, entries, stale, i)
  {
    assert BlockLines(d) == BlockLines(c);
  }

  lemma ReadInText(text: string, entries: seq<Entry>, stale: set<string>, i: nat)
    requires ValidEntries(entries) && Distinct(entries) && UnbrokenValues(entries)
    requires i < |entries| && IsTokenName(entries[i].0) && entries[i].1 != []
    ensures DocBefore(text).Block?
    ensures
      var shadow := Shadow(DocBefore(text), entries, stale, i);
      ReadBack(UpsertedText(text, entries, stale), entries[i].0) ==
      if shadow.None? && IsKept(entries, stale, i) then Some(entries[i].1) else shadow
  {
    var lines := SplitLines(text);
    var d := DocOf(PreparedLines(lines));
    PreparedAlike(lines);
    ReadAgain(text, entries, stale);
    ReadMended(RunDoc(text, entries, stale), entries[i].0);
    ReadInDocument(d, entries, stale, i);
    ShadowOfBlocks(d, DocBefore(text), entries, stale, i);
  }

  /**
   * From text to text: an entry is read back if and only if its name is a token's, its value is not empty and holds no
   * line break, and the shell reads the same name with the same value, or not at all when the entry is kept, in the
   * lines that stay in front of its place. The other values hold no line breaks.
   */
  lemma ReadsBackExactly(text: string, entries: seq<Entry>, stale: set<string>, i: nat)
    requires ValidEntries(entries) && Distinct(entries) && i < |entries|
    requires forall j :: 0 <= j < |entries| && j != i ==> Unbroken(entries[j].1)
    ensures DocBefore(text).Block?
    ensures
      var (name, value) := entries[i];
      var shadow := Shadow(DocBefore(text), entries, stale, i);
      ReadBack(UpsertedText(text, entries, stale), name) == Some(value) <==>
      IsTokenName(name) && value != [] && Unbroken(value)
      && (shadow == Some(value) || (shadow.None? && IsKept(entries, stale, i)))
  {
    PreparedDoc(SplitLines(text));
    ReadBackIsUnbroken(UpsertedText(text, entries, stale), entries[i].0);
    if IsTokenName(entries[i].0) && entries[i].1 != [] && Unbroken(entries[i].1) {
      ReadInText(text, entries, stale, i);
    }
  }

  /** Whatever the shell reads as the name, the pattern finds under the same name. */
  ghost predicate Unshadowed(lines: seq<Line>, name: string) {
    forall line :: line in lines && LineReading(line).Some? && LineReading(line).value.0 == name ==>
      Exported(line) == Some(name)
  }

  lemma {:induction false} NothingReads(lines: seq<Line>, name: string)
    requires Unshadowed(lines, name) && NoExportOf(lines, name)
    ensures FirstReading(lines, name) == None
  {
    if lines != [] {
      NothingReads(lines[1..], name);
    }
  }

  /** So every kept token is read back when the pattern finds what the shell reads. */
  lemma WrittenTokensReadBack(text: string, entries: seq<Entry>, stale: set<string>, i: nat)
    requires ValidEntries(entries) && Distinct(entries) && UnbrokenValues(entries)
    requires i < |entries| && IsKept(entries, stale, i) && IsTokenName(entries[i].0) && entries[i].1 != []
    requires DocBefore(text).Block? && Unshadowed(DocBefore(text).body, entries[i].0)
    ensures ReadBack(UpsertedText(text, entries, stale), entries[i].0) == Some(entries[i].1)
  {
    var stay := Bystanders(DocBefore(text), Yielding(entries, stale, i));
    ReadsBackExactly(text, entries, stale, i);
    DropKeepsLines(DocBefore(text).body, Yielding(entries, stale, i));
    FrontExportsNothing(stay, entries[i].0);
    NothingReads(Front(stay, entries[i].0), entries[i].0);
  }

  function QuotedAssignment(name: string, value: string): Line {
    "export \"" + (name + "=" + value) + "\"\n"
  }

  lemma AssignmentReads(name: string, value: string)
    requires ValidName(name) && IsTokenName(name) && value != []
    ensures Assignment(name + "=" + value) == Some((name, value))
  {
    var word := name + "=" + value;
    BeforeEqualsReadBack(name, value);
    assert word[|name| + 1..] == value;
  }

  lemma ChompText(text: string)
    requires text != "" && text[|text| - 1] != '\r'
    ensures Chomp(text + "\n") == text
  {
  }

  lemma QuotedAssignmentReads(name: string, value: string)
    requires ValidName(name) && IsTokenName(name) && value != [] && ShellWords.AllPlain(value)
    ensures LineReading(QuotedAssignment(name, value)) == Some((name, value))
  {
    var word := name + "=" + value;
    assert QuotedAssignment(name, value) == "export \"" + word + "\"" + "\n";
    ChompText("export \"" + word + "\"");
    PlainWord(name, value, word);
    ShellWords.DoubleQuotedExportReads(word);
    AssignmentReads(name, value);
  }

  lemma PlainWord(name: string, value: string, word: string)
    requires ValidName(name) && ShellWords.AllPlain(value) && word == name + "=" + value
    ensures ShellWords.AllPlain(word) && word != []
  {
  }

  lemma HiddenText(name: string, rest: string, line: Line)
    requires line == "export \"" + name + "=" + rest
    ensures line[0] == 'e' && "export" <= line && line[6..] == " " + ("\"" + name) + "=" + rest
  {
    assert "export \"" == "export" + (" " + "\"");
    assert line == "export" + (" " + ("\"" + name) + "=" + rest);
  }

  lemma HiddenName(name: string, rest: string)
    requires ValidName(name)
    ensures AssignedName(" " + ("\"" + name) + "=" + rest) == Some("\"" + name)
  {
    var s := " " + ("\"" + name) + "=" + rest;
    assert s[1..] == ("\"" + name) + "=" + rest;
    LStripFixed(s[1..]);
    NameEnds("\"" + name, rest);
    assert s[1..][..|name| + 1] == "\"" + name;
  }

  lemma QuotedAssignmentIsHidden(name: string, value: string)
    requires ValidName(name)
    ensures Exported(QuotedAssignment(name, value)) == Some("\"" + name)
  {
    var line, rest := QuotedAssignment(name, value), value + "\"\n";
    assert line == "export \"" + name + "=" + rest;
    HiddenText(name, rest, line);
    LStripFixed(line);
    HiddenName(name, rest);
  }

  lemma NameUnbroken(name: string)
    requires ValidName(name)
    ensures Unbroken(name)
  {
  }

  lemma QuotedAssignmentIsOne(name: string, value: string)
    requires ValidName(name) && Unbroken(value)
    ensures OneLine(QuotedAssignment(name, value)) && Ended(QuotedAssignment(name, value))
  {
    NameUnbroken(name);
    var text := "export \"" + (name + "=" + value) + "\"";
    assert Unbroken("export \"") && Unbroken("=") && Unbroken("\"");
    assert Unbroken(name + "=" + value);
    UnbrokenLine(text);
    assert QuotedAssignment(name, value) == text + "\n";
  }

  /** The rc file that holds one block with one line. */
  function OneLineFile(line: Line): string {
    JoinLines([START + "\n", line, END + "\n"])
  }

  lemma OneLineSplit(line: Line, lines: seq<Line>)
    requires OneLine(line) && Ended(line) && line != "\n" && lines == [START + "\n", line, END + "\n"]
    ensures SplitLines(JoinLines(lines)) == lines
  {
    MarkersAreWhole([START + "\n", END + "\n"]);
    ThreeWhole(START + "\n", line, END + "\n");
    SplitJoin(lines);
    NothingToMend(lines);
  }

  lemma ThreeWhole(a: Line, b: Line, c: Line)
    requires WholeLines([a, c]) && a != "\n" && c != "\n" && OneLine(b) && Ended(b) && b != "\n"
    ensures WholeLines([a, b, c]) && NoPairs([a, b, c])
  {
    assert [a, c][..1] == [a] && [a, b, c][..2] == [a, b];
    assert [a][0] == a && [a, c][0] == a && [a, c][1] == c;
  }

  lemma BlockOfThree(a: Line, b: Line, c: Line)
    requires IsStart(a) && !IsMarker(b) && IsEnd(c) && !IsStart(c)
    ensures DocOf([a, b, c]) == Block([a], [b], c, Tail([]))
  {
    var none: seq<Line> := [];
    assert [a][1..] == [] && OpenAfter([a], false).Some?;
    assert Cut(none, none, None) == Tail(none + none) && none + none == none;
    CutOneBlock([a], [b], c, none);
    assert [a, b, c] == [a] + [b] + [c] + none;
  }

  lemma OneLineDoc(line: Line)
    requires OneLine(line) && Ended(line) && !IsMarker(line) && line != "\n"
    ensures DocBefore(OneLineFile(line)) == Block([START + "\n"], [line], END + "\n", Tail([]))
  {
    OneLineSplit(line, [START + "\n", line, END + "\n"]);
    NewMarkers();
    BlockOfThree(START + "\n", line, END + "\n");
  }

  lemma QuotedAssignmentIsNoMarker(name: string, value: string)
    ensures !IsMarker(QuotedAssignment(name, value)) && QuotedAssignment(name, value) != "\n"
  {
    var line := QuotedAssignment(name, value);
    assert line[0] == 'e' && START[0] == '#' && END[0] == '#';
    Text.RStripKeepsHead(line);
  }

  lemma ShadowedByOne(d: Doc, line: Line, name: string, value: string, former: string)
    requires d.Block? && d.body == [line] && LineReading(line) == Some((name, former)) && Exported(line) != Some(name)
    ensures Shadow(d, [(name, value)], {}, 0) == Some(former)
  {
    assert Yielding([(name, value)], {}, 0) == {};
    assert [line][1..] == [] && [line][..1] == [line] && Drop([line], {}) == [line];
  }

  /** A line that quotes the whole assignment hides the token from the pattern, and its old value is read. */
  lemma QuotedAssignmentShadows(name: string, former: string, value: string)
    requires ValidName(name) && IsTokenName(name) && value != former
    requires former != [] && ShellWords.AllPlain(former) && Unbroken(former) && value != []
    ensures
      var read := ReadBack(UpsertedText(OneLineFile(QuotedAssignment(name, former)), [(name, value)], {}), name);
      read != Some(value) && (Unbroken(value) ==> read == Some(former))
  {
    var line, entries: seq<Entry> := QuotedAssignment(name, former), [(name, value)];
    QuotedAssignmentIsOne(name, former);
    QuotedAssignmentIsNoMarker(name, former);
    OneLineDoc(line);
    QuotedAssignmentReads(name, former);
    QuotedAssignmentIsHidden(name, former);
    NotTheName(name);
    ShadowedByOne(DocBefore(OneLineFile(line)), line, name, value, former);
    ReadsBackExactly(OneLineFile(line), entries, {}, 0);
    if Unbroken(value) {
      ReadInText(OneLineFile(line), entries, {}, 0);
    }
  }

  lemma NotTheName(name: string)
    ensures "\"" + name != name
  {
    assert |"\"" + name| == |name| + 1;
  }
}
