/** scripts/claude_linter.py: cutting a markdown file into sections and taking one out. */
module MarkdownSections {
  // Sections are those of the second and third level. Files are read with universal newlines, so a line feed is the
  // only line end.

  import opened Wrappers
  import Text

  /* ---- text.split("\n") and "\n".join(lines) ---- */

  function Split(text: string): (lines: seq<string>)
    ensures lines != []
  {
    if text == [] then [""]
    else
      var rest := Split(text[1..]);
      if text[0] == '\n' then [""] + rest else [[text[0]] + rest[0]] + rest[1..]
  }

  predicate Flat(lines: seq<string>) {
    forall line :: line in lines ==> '\n' !in line
  }

  lemma {:induction false} SplitIsFlat(text: string)
    ensures Flat(Split(text))
  {
    if text != [] {
      SplitIsFlat(text[1..]);
      var rest := Split(text[1..]);
      assert rest == [rest[0]] + rest[1..];
    }
  }

  function Join(lines: seq<string>): string {
    if lines == [] then "" else if |lines| == 1 then lines[0] else lines[0] + "\n" + Join(lines[1..])
  }

  lemma JoinGrown(c: char, lines: seq<string>)
    requires lines != []
    ensures Join([[c] + lines[0]] + lines[1..]) == [c] + Join(lines)
  {
    var grown := [[c] + lines[0]] + lines[1..];
    if |lines| > 1 {
      assert grown[1..] == lines[1..];
      assert [c] + (lines[0] + "\n" + Join(lines[1..])) == ([c] + lines[0]) + "\n" + Join(lines[1..]);
    }
  }

  lemma {:induction false} JoinSplit(text: string)
    ensures Join(Split(text)) == text
  {
    if text != [] {
      var rest := Split(text[1..]);
      JoinSplit(text[1..]);
      if text[0] == '\n' {
        assert ([""] + rest)[1..] == rest;
      } else {
        JoinGrown(text[0], rest);
      }
    }
  }

  lemma {:induction false} SplitLine(line: string, rest: string)
    requires '\n' !in line
    ensures Split(line) == [line]
    ensures Split(line + "\n" + rest) == [line] + Split(rest)
  {
    var text := line + "\n" + rest;
    if line == [] {
      assert text[1..] == rest;
    } else {
      SplitLine(line[1..], rest);
      assert [line[0]] + line[1..] == line;
      assert text[1..] == line[1..] + "\n" + rest;
    }
  }

  lemma {:induction false} SplitJoin(lines: seq<string>)
    requires lines != [] && Flat(lines)
    ensures Split(Join(lines)) == lines
  {
    if |lines| == 1 {
      SplitLine(lines[0], "");
    } else {
      SplitLine(lines[0], Join(lines[1..]));
      SplitJoin(lines[1..]);
    }
  }

  lemma {:induction false} JoinConcat(a: seq<string>, b: seq<string>)
    requires a != [] && b != []
    ensures Join(a + b) == Join(a) + "\n" + Join(b)
  {
    assert (a + b)[1..] == a[1..] + b;
    if |a| > 1 {
      JoinConcat(a[1..], b);
      assert a[0] + "\n" + (Join(a[1..]) + "\n" + Join(b)) == (a[0] + "\n" + Join(a[1..])) + "\n" + Join(b);
    }
  }

  /* ---- headings ---- */

  const PREAMBLE := "(document preamble)"

  /** The level and the name of a heading. */
  datatype Mark = Mark(level: nat, name: string)

  /** What the parser asks about a line: whether it is a heading, and whether it is blank. */
  datatype Reader = Reader(mark: string -> Option<Mark>, blank: string -> bool)

  function Hashes(line: string): (n: nat)
    ensures n <= |line|
    ensures forall k :: 0 <= k < n ==> line[k] == '#'
    ensures n < |line| ==> line[n] != '#'
  {
    if line != [] && line[0] == '#' then 1 + Hashes(line[1..]) else 0
  }

  /** Two or three hash marks, white space and at least one more character. */
  function MarkOf(line: string): Option<Mark> {
    var n := Hashes(line);
    if 2 <= n <= 3 && n + 2 <= |line| && Text.IsSpace(line[n]) then Some(Mark(n, Text.Strip(line[n..]))) else None
  }

  predicate Blank(line: string) {
    Text.Strip(line) == ""
  }

  const MARKDOWN := Reader(MarkOf, Blank)

  ghost predicate Sound(r: Reader) {
    forall line :: r.mark(line).Some? ==> line != "" && !r.blank(line) && r.mark(line).value.level != 0
  }

  lemma MarkdownIsSound()
    ensures Sound(MARKDOWN)
  {
    forall line | MarkOf(line).Some?
      ensures line != "" && !Blank(line) && MarkOf(line).value.level != 0
    {
      assert line[0] == '#';
      Text.RStripKeepsHead(line);
    }
  }

  /** Two or three hash marks, a white space character and anything behind it are a heading of that level and name. */
  lemma HeadingIsRead(w: char, rest: string)
    requires Text.IsSpace(w) && rest != ""
    ensures MarkOf("##" + [w] + rest) == Some(Mark(2, Text.Strip(rest)))
    ensures MarkOf("###" + [w] + rest) == Some(Mark(3, Text.Strip(rest)))
  {
    assert w != '#';
    HashesOf("##", [w] + rest);
    HashesOf("###", [w] + rest);
    assert "##" + [w] + rest == "##" + ([w] + rest) && "###" + [w] + rest == "###" + ([w] + rest);
    Text.LStripSpaces([w], rest);
  }

  lemma {:induction false} HashesOf(hashes: string, rest: string)
    requires (forall i :: 0 <= i < |hashes| ==> hashes[i] == '#') && (rest != "" ==> rest[0] != '#')
    ensures Hashes(hashes + rest) == |hashes| && (hashes + rest)[|hashes|..] == rest
  {
    if hashes == "" {
      assert hashes + rest == rest;
    } else {
      assert (hashes + rest)[1..] == hashes[1..] + rest;
      HashesOf(hashes[1..], rest);
    }
  }

  /** And no other line is a heading. */
  lemma HeadingShape(line: string) returns (w: char, rest: string)
    requires MarkOf(line).Some?
    ensures Text.IsSpace(w) && rest != ""
    ensures line == "##" + [w] + rest || line == "###" + [w] + rest
  {
    var n := Hashes(line);
    w, rest := line[n], line[n + 1..];
    assert line == line[..n] + [w] + rest;
    assert line[..n] == if n == 2 then "##" else "###";
  }

  /** A blank line is one of nothing but white space. */
  lemma BlankExactly(line: string)
    ensures Blank(line) <==> Text.AllSpace(line)
  {
    var a, b := Text.StripShape(line);
    if Text.AllSpace(line) {
      Text.StripPadded(line, "", "");
      assert line + "" + "" == line;
    }
    assert a + "" + b == a + b;
  }

  /* ---- parse_sections ---- */

  datatype Section = Section(heading: string, level: nat, content: string, startLine: int, endLine: int)

  predicate IsHeading(r: Reader, line: string) {
    r.mark(line).Some?
  }

  predicate AllBlank(r: Reader, lines: seq<string>) {
    forall line :: line in lines ==> r.blank(line)
  }

  /** Where the next heading stands, or the end. */
  function Next(r: Reader, lines: seq<string>, from: nat): (n: nat)
    requires from <= |lines|
    ensures from <= n <= |lines|
    ensures forall k :: from <= k < n ==> !IsHeading(r, lines[k])
    ensures n < |lines| ==> IsHeading(r, lines[n])
    decreases |lines| - from
  {
    if from == |lines| || IsHeading(r, lines[from]) then from else Next(r, lines, from + 1)
  }

  /**
   * What a heading behind `current` makes the parser report. A heading with nothing but white space behind its
   * hash marks has no name, and its lines are taken for a preamble.
   */
  function Reported(r: Reader, mark: Mark, current: seq<string>, start: nat, end: nat): seq<Section> {
    if mark.name != "" then [Section(mark.name, mark.level, Join(current), start + 1, end)]
    else if AllBlank(r, current) then []
    else [Section(PREAMBLE, 0, Join(current), 1, end)]
  }

  /** What the end of the file makes the parser report. */
  function ReportedLast(mark: Mark, current: seq<string>, start: nat, end: nat): seq<Section> {
    if mark.name != "" then [Section(mark.name, mark.level, Join(current), start + 1, end)] else []
  }

  /** The sections from the heading at `at` on. */
  function From(r: Reader, lines: seq<string>, at: nat): seq<Section>
    requires at <= |lines| && (at < |lines| ==> IsHeading(r, lines[at]))
    decreases |lines| - at
  {
    if at == |lines| then []
    else
      var mark, end := r.mark(lines[at]).value, Next(r, lines, at + 1);
      if end == |lines| then ReportedLast(mark, lines[at..end], at, end)
      else Reported(r, mark, lines[at..end], at, end) + From(r, lines, end)
  }

  const UNNAMED := Mark(0, "")

  /** What stands before the first heading is reported when it is not blank and there is a heading. */
  function Preamble(r: Reader, lines: seq<string>): seq<Section> {
    var first := Next(r, lines, 0);
    if first < |lines| then Reported(r, UNNAMED, lines[..first], 0, first) else []
  }

  function SectionsOf(r: Reader, lines: seq<string>): seq<Section> {
    Preamble(r, lines) + From(r, lines, Next(r, lines, 0))
  }

  /** Lines before the first heading are reported as the preamble of the document, unless they are all blank. */
  lemma PreambleIsReported(lines: seq<string>, first: nat)
    requires 0 < first < |lines| && MarkOf(lines[first]).Some?
    requires forall i :: 0 <= i < first ==> MarkOf(lines[i]).None?
    ensures
      var sections := SectionsOf(MARKDOWN, lines);
      if forall i :: 0 <= i < first ==> Text.AllSpace(lines[i]) then sections == From(MARKDOWN, lines, first)
      else sections != [] && sections[0] == Section("(document preamble)", 0, Join(lines[..first]), 1, first)
  {
    NextIs(MARKDOWN, lines, 0, first);
    forall i | 0 <= i < first
      ensures Blank(lines[i]) <==> Text.AllSpace(lines[i])
    {
      BlankExactly(lines[i]);
    }
    BlankFront(lines, first);
  }

  lemma BlankFront(lines: seq<string>, first: nat)
    requires first <= |lines|
    ensures AllBlank(MARKDOWN, lines[..first]) <==> forall i :: 0 <= i < first ==> Blank(lines[i])
  {
    forall i | 0 <= i < first
      ensures lines[i] == lines[..first][i] && lines[i] in lines[..first]
    {}
  }

  lemma NextIs(r: Reader, lines: seq<string>, start: nat, end: nat)
    requires start <= end <= |lines| && (end < |lines| ==> IsHeading(r, lines[end]))
    requires forall k :: start <= k < end ==> !IsHeading(r, lines[k])
    ensures Next(r, lines, start) == end
  {}

  /** The parser has reported `done`, and the section under `mark` began at `start`. */
  ghost predicate Parsing(r: Reader, lines: seq<string>, done: seq<Section>, mark: Mark, start: nat) {
    start < |lines| && r.mark(lines[start]) == Some(mark) && SectionsOf(r, lines) == done + From(r, lines, start)
  }

  lemma FirstHeading(r: Reader, lines: seq<string>, at: nat, mark: Mark)
    requires at < |lines| && r.mark(lines[at]) == Some(mark)
    requires forall k :: 0 <= k < at ==> !IsHeading(r, lines[k])
    ensures Parsing(r, lines, Reported(r, UNNAMED, lines[..at], 0, at), mark, at)
  {
    NextIs(r, lines, 0, at);
  }

  lemma NextHeading(r: Reader, lines: seq<string>, done: seq<Section>, mark: Mark, start: nat, at: nat, next: Mark)
    requires Parsing(r, lines, done, mark, start) && start < at < |lines| && r.mark(lines[at]) == Some(next)
    requires forall k :: start < k < at ==> !IsHeading(r, lines[k])
    ensures Parsing(r, lines, done + Reported(r, mark, lines[start..at], start, at), next, at)
  {
    NextIs(r, lines, start + 1, at);
    var report, rest := Reported(r, mark, lines[start..at], start, at), From(r, lines, at);
    assert done + (report + rest) == (done + report) + rest;
  }

  lemma NoMoreHeadings(r: Reader, lines: seq<string>, done: seq<Section>, mark: Mark, start: nat)
    requires Parsing(r, lines, done, mark, start)
    requires forall k :: start < k < |lines| ==> !IsHeading(r, lines[k])
    ensures SectionsOf(r, lines) == done + ReportedLast(mark, lines[start..|lines|], start, |lines|)
  {
    NextIs(r, lines, start + 1, |lines|);
  }

  /** The parser has read `i` lines and holds those behind the last heading, if it met one, in `current`. */
  ghost predicate Read(r: Reader, lines: seq<string>, i: nat, done: seq<Section>, mark: Mark, start: nat, current: seq<string>) {
    && start <= i <= |lines| && current == lines[start..i]
    && (forall k :: start < k < i ==> !IsHeading(r, lines[k]))
    && if Started(r, lines, i, start) then Parsing(r, lines, done, mark, start)
       else start == 0 && mark == UNNAMED && done == []
  }

  predicate Started(r: Reader, lines: seq<string>, i: nat, start: nat) {
    start < i <= |lines| && IsHeading(r, lines[start])
  }

  lemma ReadHeading(r: Reader, lines: seq<string>, i: nat, done: seq<Section>, mark: Mark, start: nat, current: seq<string>)
    requires Read(r, lines, i, done, mark, start, current) && i < |lines| && IsHeading(r, lines[i])
    ensures Read(r, lines, i + 1, done + Reported(r, mark, current, start, i), r.mark(lines[i]).value, i, [lines[i]])
  {
    var next := r.mark(lines[i]).value;
    assert lines[i..i + 1] == [lines[i]];
    if Started(r, lines, i, start) {
      NextHeading(r, lines, done, mark, start, i, next);
    } else {
      ReadFirst(r, lines, i, current, next);
      NothingBefore(Reported(r, UNNAMED, current, 0, i));
    }
  }

  lemma NothingBefore(sections: seq<Section>)
    ensures [] + sections == sections
  {}

  lemma ReadFirst(r: Reader, lines: seq<string>, i: nat, current: seq<string>, next: Mark)
    requires i < |lines| && r.mark(lines[i]) == Some(next) && current == lines[0..i]
    requires forall k :: 0 <= k < i ==> !IsHeading(r, lines[k])
    ensures Parsing(r, lines, Reported(r, UNNAMED, current, 0, i), next, i)
  {
    assert current == lines[..i];
    FirstHeading(r, lines, i, next);
  }

  lemma OneMoreLine(lines: seq<string>, start: nat, i: nat)
    requires start <= i < |lines|
    ensures lines[start..i + 1] == lines[start..i] + [lines[i]]
  {}

  lemma ReadLine(r: Reader, lines: seq<string>, i: nat, done: seq<Section>, mark: Mark, start: nat, current: seq<string>)
    requires Read(r, lines, i, done, mark, start, current) && i < |lines| && !IsHeading(r, lines[i])
    ensures Read(r, lines, i + 1, done, mark, start, current + [lines[i]])
  {
    OneMoreLine(lines, start, i);
    assert Started(r, lines, i + 1, start) == Started(r, lines, i, start);
  }

  lemma ReadAll(r: Reader, lines: seq<string>, done: seq<Section>, mark: Mark, start: nat, current: seq<string>)
    requires Read(r, lines, |lines|, done, mark, start, current)
    ensures SectionsOf(r, lines) == done + ReportedLast(mark, current, start, |lines|)
  {
    if Started(r, lines, |lines|, start) {
      NoMoreHeadings(r, lines, done, mark, start);
    } else {
      NextIs(r, lines, 0, |lines|);
    }
  }

  method ParseLines(r: Reader, lines: seq<string>) returns (sections: seq<Section>)
    ensures sections == SectionsOf(r, lines)
  {
    sections := [];
    var mark, start: nat, current: seq<string> := UNNAMED, 0, [];
    for i := 0 to |lines|
      invariant Read(r, lines, i, sections, mark, start, current)
    {
      var line := lines[i];
      var next := r.mark(line);
      if next.Some? {
        ReadHeading(r, lines, i, sections, mark, start, current);
        ghost var done := sections + Reported(r, mark, current, start, i);
        if mark.name == "" && !AllBlank(r, current) {
          sections := sections + [Section(PREAMBLE, 0, Join(current), 1, i)];
        }
        if mark.name != "" {
          sections := sections + [Section(mark.name, mark.level, Join(current), start + 1, i)];
        }
        assert sections == done;
        mark, start, current := next.value, i, [line];
      } else {
        ReadLine(r, lines, i, sections, mark, start, current);
        current := current + [line];
      }
    }
    ReadAll(r, lines, sections, mark, start, current);
    if mark.name != "" {
      sections := sections + [Section(mark.name, mark.level, Join(current), start + 1, |lines|)];
    }
  }

  /** `parse_sections`. */
  method ParseSections(r: Reader, text: string) returns (sections: seq<Section>)
    ensures sections == SectionsOf(r, Split(text))
  {
    sections := ParseLines(r, Split(text));
  }

  /* ---- the sections tile the file ---- */

  function Contents(sections: seq<Section>): seq<string> {
    seq(|sections|, i requires 0 <= i < |sections| => sections[i].content)
  }

  /** The sections cover the lines from `from` on, one behind the other, each with exactly its lines. */
  predicate Tile(lines: seq<string>, sections: seq<Section>, from: nat) {
    if sections == [] then from == |lines|
    else
      var s := sections[0];
      && s.startLine == from + 1 && from < s.endLine <= |lines|
      && s.content == Join(lines[from..s.endLine])
      && Tile(lines, sections[1..], s.endLine)
  }

  /** What a heading makes the parser report, unless it is the last one and has no name. */
  function SectionAt(r: Reader, lines: seq<string>, at: nat, end: nat): Section
    requires at < end <= |lines| && IsHeading(r, lines[at])
  {
    var mark := r.mark(lines[at]).value;
    if mark.name != "" then Section(mark.name, mark.level, Join(lines[at..end]), at + 1, end)
    else Section(PREAMBLE, 0, Join(lines[at..end]), 1, end)
  }

  lemma FromStep(r: Reader, lines: seq<string>, at: nat)
    requires Sound(r) && at < |lines| && IsHeading(r, lines[at])
    ensures
      var end := Next(r, lines, at + 1);
      From(r, lines, at) ==
      if end == |lines| && r.mark(lines[at]).value.name == "" then []
      else [SectionAt(r, lines, at, end)] + From(r, lines, end)
  {
    assert lines[at..Next(r, lines, at + 1)][0] == lines[at];
  }

  /** Every heading from the one at `at` on has a name, or it stands on the first line and is not the last. */
  predicate NamedBehind(r: Reader, lines: seq<string>, at: nat)
    requires at < |lines| && IsHeading(r, lines[at])
    decreases |lines| - at
  {
    var end := Next(r, lines, at + 1);
    var named := r.mark(lines[at]).value.name != "";
    if end == |lines| then named else (named || at == 0) && NamedBehind(r, lines, end)
  }

  lemma {:induction false} FromTilesExactly(r: Reader, lines: seq<string>, at: nat)
    requires Sound(r) && at < |lines| && IsHeading(r, lines[at])
    ensures Tile(lines, From(r, lines, at), at) <==> NamedBehind(r, lines, at)
    decreases |lines| - at
  {
    var end := Next(r, lines, at + 1);
    FromStep(r, lines, at);
    if end < |lines| {
      FromTilesExactly(r, lines, end);
      assert From(r, lines, at)[1..] == From(r, lines, end);
    } else if r.mark(lines[at]).value.name != "" {
      assert From(r, lines, at)[1..] == [];
    }
  }

  /** Where the sections should begin: behind blank lines that stand first. */
  function TilesFrom(r: Reader, lines: seq<string>): nat {
    var first := Next(r, lines, 0);
    if AllBlank(r, lines[..first]) then first else 0
  }

  /**
   * The sections tile a file to its last line exactly when every heading has a name, or stands on the first line
   * and is not the last; a file without headings is tiled when it is blank.
   */
  lemma SectionsTileExactly(r: Reader, lines: seq<string>)
    requires Sound(r)
    ensures
      var first := Next(r, lines, 0);
      Tile(lines, SectionsOf(r, lines), TilesFrom(r, lines)) <==>
      if first < |lines| then NamedBehind(r, lines, first) else AllBlank(r, lines[..first])
  {
    var first := Next(r, lines, 0);
    if first == |lines| {
      assert SectionsOf(r, lines) == [];
    } else {
      FromTilesExactly(r, lines, first);
      if !AllBlank(r, lines[..first]) {
        assert SectionsOf(r, lines)[1..] == From(r, lines, first);
        assert lines[0..first] == lines[..first];
      } else {
        assert SectionsOf(r, lines) == From(r, lines, first);
      }
    }
  }

  /** The last heading has a name. */
  predicate LastNamed(r: Reader, lines: seq<string>, at: nat)
    requires at < |lines| && IsHeading(r, lines[at])
    decreases |lines| - at
  {
    var end := Next(r, lines, at + 1);
    if end == |lines| then r.mark(lines[at]).value.name != "" else LastNamed(r, lines, end)
  }

  lemma JoinOneMore(s: Section, rest: seq<Section>)
    requires rest != []
    ensures Join(Contents([s] + rest)) == s.content + "\n" + Join(Contents(rest))
  {
    assert Contents([s] + rest)[1..] == Contents(rest);
  }

  lemma JoinPieces(lines: seq<string>, at: nat, end: nat)
    requires at < end < |lines|
    ensures Join(lines[at..]) == Join(lines[at..end]) + "\n" + Join(lines[end..])
  {
    assert lines[at..] == lines[at..end] + lines[end..];
    JoinConcat(lines[at..end], lines[end..]);
  }

  lemma {:induction false} FromContents(r: Reader, lines: seq<string>, at: nat)
    requires Sound(r) && at < |lines| && IsHeading(r, lines[at])
    ensures From(r, lines, at) == [] ==> Join(lines[at..]) != ""
    ensures LastNamed(r, lines, at) ==> From(r, lines, at) != [] && Join(Contents(From(r, lines, at))) == Join(lines[at..])
    ensures !LastNamed(r, lines, at) ==> |Join(Contents(From(r, lines, at)))| < |Join(lines[at..])|
    decreases |lines| - at
  {
    var mark, end := r.mark(lines[at]).value, Next(r, lines, at + 1);
    if end == |lines| {
      assert lines[at..end] == lines[at..];
    } else {
      var rest := From(r, lines, end);
      assert lines[at..end][0] == lines[at];
      var s := Reported(r, mark, lines[at..end], at, end)[0];
      FromContents(r, lines, end);
      JoinPieces(lines, at, end);
      assert From(r, lines, at) == [s] + rest;
      if rest != [] {
        JoinOneMore(s, rest);
      }
    }
  }

  lemma ContentsBehindHeadings(r: Reader, lines: seq<string>)
    requires Sound(r) && Next(r, lines, 0) < |lines|
    ensures
      var first := Next(r, lines, 0);
      Join(Contents(SectionsOf(r, lines))) == Join(lines) <==>
      LastNamed(r, lines, first) && (first == 0 || !AllBlank(r, lines[..first]))
  {
    var first, sections := Next(r, lines, 0), SectionsOf(r, lines);
    var rest := From(r, lines, first);
    FromContents(r, lines, first);
    assert lines[0..] == lines;
    if first > 0 {
      JoinPieces(lines, 0, first);
      assert lines[0..first] == lines[..first];
    }
    if Preamble(r, lines) != [] {
      var s := Preamble(r, lines)[0];
      assert sections == [s] + rest;
      if rest != [] {
        JoinOneMore(s, rest);
      }
    } else {
      assert sections == rest;
    }
  }

  /**
   * The contents joined are the text exactly when the last heading has a name and nothing but a reported
   * preamble stands before the first one; without a heading, exactly when the text is empty.
   */
  lemma ContentsGiveTextBackExactly(r: Reader, text: string)
    requires Sound(r)
    ensures
      var lines := Split(text);
      var first := Next(r, lines, 0);
      Join(Contents(SectionsOf(r, lines))) == text <==>
      if first < |lines| then LastNamed(r, lines, first) && (first == 0 || !AllBlank(r, lines[..first]))
      else text == ""
  {
    var lines := Split(text);
    JoinSplit(text);
    if Next(r, lines, 0) < |lines| {
      ContentsBehindHeadings(r, lines);
    } else {
      assert Contents(SectionsOf(r, lines)) == [];
    }
  }

  lemma NamelessHeadingExists()
    ensures MarkOf("##  ") == Some(Mark(2, ""))
  {
    assert "##  "[2..] == "  ";
    assert "  "[1..] == " " && " "[1..] == "";
  }

  /* ---- extract_to_skill ---- */

  datatype ExtractError = NotFound | Ambiguous

  /** The sections of that heading, white space around it and letter case aside. */
  function Matching(sections: seq<Section>, heading: string, lower: string -> string): (found: seq<Section>)
    ensures forall s :: s in found ==> s in sections
  {
    if sections == [] then []
    else
      var rest := Matching(sections[1..], heading, lower);
      if lower(Text.Strip(sections[0].heading)) == lower(Text.Strip(heading)) then [sections[0]] + rest else rest
  }

  /** Exactly the sections whose heading is the one asked for, each as often as it is there. */
  lemma {:induction false} MatchingExactly(sections: seq<Section>, heading: string, lower: string -> string, s: Section)
    ensures multiset(Matching(sections, heading, lower))[s] ==
            if lower(Text.Strip(s.heading)) == lower(Text.Strip(heading)) then multiset(sections)[s] else 0
  {
    if sections != [] {
      MatchingExactly(sections[1..], heading, lower, s);
      assert sections == [sections[0]] + sections[1..];
    }
  }

  /** The body of a section: its text without the heading line. */
  function SkillText(content: string): string {
    var lines := Split(Text.Strip(content));
    Text.Strip(Join(if "#" <= lines[0] then lines[1..] else lines)) + "\n"
  }

  function SkipBlank(r: Reader, lines: seq<string>, end: nat): (n: nat)
    requires end <= |lines|
    ensures end <= n <= |lines|
    decreases |lines| - end
  {
    if end < |lines| && r.blank(lines[end]) then SkipBlank(r, lines, end + 1) else end
  }

  /** A section of a file lies inside it. */
  predicate Inside(s: Section, lines: seq<string>) {
    1 <= s.startLine <= s.endLine <= |lines|
  }

  /** The file without a section and the blank lines behind it. */
  function Without(r: Reader, lines: seq<string>, s: Section): seq<string>
    requires Inside(s, lines)
  {
    lines[..s.startLine - 1] + lines[SkipBlank(r, lines, s.endLine)..]
  }

  /** The file without a section. */
  function Cut(lines: seq<string>, s: Section): seq<string>
    requires Inside(s, lines)
  {
    lines[..s.startLine - 1] + lines[s.endLine..]
  }

  /** A section ends where a heading stands or the file ends. */
  predicate Bounded(r: Reader, lines: seq<string>, s: Section) {
    Inside(s, lines) && (s.endLine < |lines| ==> IsHeading(r, lines[s.endLine]))
  }

  lemma {:induction false} FromIsBounded(r: Reader, lines: seq<string>, at: nat, s: Section)
    requires at <= |lines| && (at < |lines| ==> IsHeading(r, lines[at])) && s in From(r, lines, at)
    ensures Bounded(r, lines, s)
    decreases |lines| - at
  {
    var end := Next(r, lines, at + 1);
    if end < |lines| && s in From(r, lines, end) {
      FromIsBounded(r, lines, end, s);
    }
  }

  lemma SectionsAreBounded(r: Reader, lines: seq<string>, s: Section)
    requires s in SectionsOf(r, lines)
    ensures Bounded(r, lines, s)
  {
    assert AllBlank(r, lines[..0]);
    if s !in Preamble(r, lines) {
      FromIsBounded(r, lines, Next(r, lines, 0), s);
    }
  }

  /** The loop that skips blank lines never runs: those lines belong to the section they follow. */
  lemma NothingToSkip(r: Reader, lines: seq<string>, s: Section)
    requires Sound(r) && s in SectionsOf(r, lines)
    ensures Inside(s, lines) && Without(r, lines, s) == Cut(lines, s)
  {
    SectionsAreBounded(r, lines, s);
  }

  /** The loop that moves the end of a section behind the blank lines that follow it. */
  method SkipBlankLines(r: Reader, lines: seq<string>, from: nat) returns (end: nat)
    requires from <= |lines|
    ensures end == SkipBlank(r, lines, from)
  {
    end := from;
    while end < |lines| && r.blank(lines[end])
      invariant end <= |lines| && SkipBlank(r, lines, from) == SkipBlank(r, lines, end)
    {
      end := end + 1;
    }
  }

  /** `extract_to_skill`: the skill's text and the text that is left, or why nothing is taken. */
  method ExtractToSkill(r: Reader, lower: string -> string, text: string, heading: string)
      returns (result: Result<(string, string), ExtractError>)
    ensures
      var lines := Split(text);
      var found := Matching(SectionsOf(r, lines), heading, lower);
      && (|found| == 0 ==> result == Err(NotFound))
      && (|found| >= 2 ==> result == Err(Ambiguous))
      && (|found| == 1 ==>
            Inside(found[0], lines) && result == Ok((SkillText(found[0].content), Join(Without(r, lines, found[0])))))
  {
    var sections := ParseSections(r, text);
    var matches := Matching(sections, heading, lower);
    if matches == [] {
      return Err(NotFound);
    }
    if |matches| > 1 {
      return Err(Ambiguous);
    }
    var target, lines := matches[0], Split(text);
    SectionsAreBounded(r, lines, target);
    var end := SkipBlankLines(r, lines, target.endLine);
    return Ok((SkillText(target.content), Join(lines[..target.startLine - 1] + lines[end..])));
  }

  function Length(s: Section): int {
    s.endLine - s.startLine + 1
  }

  /** The same sections, `count` lines further up. */
  function Up(sections: seq<Section>, count: int): seq<Section> {
    seq(|sections|, i requires 0 <= i < |sections| =>
      sections[i].(startLine := sections[i].startLine - count, endLine := sections[i].endLine - count))
  }

  lemma SameTail(r: Reader, a: seq<string>, i: nat, b: seq<string>, j: nat)
    requires i <= |a| && j <= |b| && a[i..] == b[j..]
    ensures Next(r, b, j) - j == Next(r, a, i) - i
  {
    var n := Next(r, a, i) - i + j;
    forall k | j <= k < |b|
      ensures b[k] == a[k - j + i]
    {
      assert b[k] == b[j..][k - j] && a[k - j + i] == a[i..][k - j];
    }
    NextIs(r, b, j, n);
  }

  /** The same lines further up: the first section, and what follows it. */
  lemma SectionMoved(r: Reader, a: seq<string>, i: nat, b: seq<string>, j: nat)
    requires i < |a| && j < |b| && a[i..] == b[j..]
    ensures a[i] == b[j] && Next(r, b, j + 1) - j == Next(r, a, i + 1) - i
    ensures a[i..Next(r, a, i + 1)] == b[j..Next(r, b, j + 1)]
    ensures a[Next(r, a, i + 1)..] == b[Next(r, b, j + 1)..]
  {
    assert a[i] == a[i..][0] && b[j] == b[j..][0];
    assert a[i + 1..] == a[i..][1..] && b[j + 1..] == b[j..][1..];
    SameTail(r, a, i + 1, b, j + 1);
    var end, last := Next(r, a, i + 1), Next(r, b, j + 1);
    assert a[i..end] == a[i..][..end - i] && b[j..last] == b[j..][..last - j];
    assert a[end..] == a[i..][end - i..] && b[last..] == b[j..][last - j..];
  }

  function Moved(s: Section, count: int): Section {
    s.(startLine := s.startLine - count, endLine := s.endLine - count)
  }

  lemma UpOneMore(s: Section, rest: seq<Section>, count: int)
    ensures Up([s] + rest, count) == [Moved(s, count)] + Up(rest, count)
  {}

  /** No section stands under a heading without a name. */
  predicate AllNamed(sections: seq<Section>) {
    forall s :: s in sections ==> s.level != 0
  }

  lemma SectionAtMoved(r: Reader, a: seq<string>, i: nat, b: seq<string>, j: nat, count: nat)
    requires Sound(r) && i < |a| && j < |b| && a[i..] == b[j..] && IsHeading(r, a[i]) && count == i - j > 0
    ensures IsHeading(r, b[j])
    ensures
      var s := SectionAt(r, a, i, Next(r, a, i + 1));
      SectionAt(r, b, j, Next(r, b, j + 1)) == Moved(s, count) <==> s.level != 0
  {
    SectionMoved(r, a, i, b, j);
  }

  lemma MovedOneMore(s: Section, t: Section, ss: seq<Section>, ts: seq<Section>, count: nat)
    requires t == Moved(s, count) <==> s.level != 0
    requires |ss| == |ts| && (ts == Up(ss, count) <==> AllNamed(ss))
    ensures [t] + ts == Up([s] + ss, count) <==> AllNamed([s] + ss)
  {
    UpOneMore(s, ss, count);
    assert ([t] + ts)[0] == t && ([t] + ts)[1..] == ts;
    assert ([Moved(s, count)] + Up(ss, count))[1..] == Up(ss, count);
    assert ([s] + ss)[0] == s && forall x :: x in ss ==> x in [s] + ss;
  }

  /** The same lines further up give the same sections further up, unless one of them has no name. */
  lemma {:induction false} FromMovedExactly(r: Reader, a: seq<string>, i: nat, b: seq<string>, j: nat, count: nat)
    requires Sound(r) && i <= |a| && j <= |b| && a[i..] == b[j..] && count == i - j > 0
    requires i < |a| ==> IsHeading(r, a[i])
    requires j < |b| ==> IsHeading(r, b[j])
    ensures |From(r, b, j)| == |From(r, a, i)|
    ensures From(r, b, j) == Up(From(r, a, i), count) <==> AllNamed(From(r, a, i))
    decreases |a| - i
  {
    assert |a[i..]| == |b[j..]|;
    if i < |a| {
      var end, last := Next(r, a, i + 1), Next(r, b, j + 1);
      SectionMoved(r, a, i, b, j);
      FromStep(r, a, i);
      FromStep(r, b, j);
      FromMovedExactly(r, a, end, b, last, count);
      SectionAtMoved(r, a, i, b, j, count);
      MovedOneMore(
        SectionAt(r, a, i, end), SectionAt(r, b, j, last), From(r, a, end), From(r, b, last), count);
    }
  }

  /** One section for each heading from `start` up to the heading or the end of the file at `at`. */
  function Between(r: Reader, lines: seq<string>, start: nat, at: nat): seq<Section>
    requires start <= at <= |lines|
    requires start < at ==> IsHeading(r, lines[start])
    requires at < |lines| ==> IsHeading(r, lines[at])
    decreases at - start
  {
    if start == at then []
    else
      var end := Next(r, lines, start + 1);
      [SectionAt(r, lines, start, end)] + Between(r, lines, end, at)
  }

  lemma Regroup(a: seq<Section>, b: seq<Section>, c: seq<Section>)
    ensures a + (b + c) == (a + b) + c
  {}

  /** A heading cuts the sections in two. */
  lemma {:induction false} FromCut(r: Reader, lines: seq<string>, start: nat, at: nat)
    requires Sound(r) && start <= at < |lines| && IsHeading(r, lines[start]) && IsHeading(r, lines[at])
    ensures From(r, lines, start) == Between(r, lines, start, at) + From(r, lines, at)
    decreases at - start
  {
    if start < at {
      var end := Next(r, lines, start + 1);
      FromStep(r, lines, start);
      FromCut(r, lines, end, at);
      Regroup([SectionAt(r, lines, start, end)], Between(r, lines, end, at), From(r, lines, at));
    }
  }

  function WithoutLastNameless(all: seq<Section>): seq<Section> {
    if all != [] && all[|all| - 1].level == 0 then all[..|all| - 1] else all
  }

  lemma OneMoreBefore(s: Section, all: seq<Section>)
    requires all != []
    ensures WithoutLastNameless([s] + all) == [s] + WithoutLastNameless(all)
  {
    assert ([s] + all)[..|[s] + all| - 1] == [s] + all[..|all| - 1];
  }

  /** All that is reported of a file is a section for each heading, but for a last one without a name. */
  lemma {:induction false} FromIsBetween(r: Reader, lines: seq<string>, start: nat)
    requires Sound(r) && start < |lines| && IsHeading(r, lines[start])
    ensures
      var all := Between(r, lines, start, |lines|);
      all != [] && From(r, lines, start) == WithoutLastNameless(all)
    decreases |lines| - start
  {
    var end := Next(r, lines, start + 1);
    var s, rest := SectionAt(r, lines, start, end), Between(r, lines, end, |lines|);
    FromStep(r, lines, start);
    if end < |lines| {
      FromIsBetween(r, lines, end);
      OneMoreBefore(s, rest);
    } else {
      assert rest == [] && [s] + rest == [s];
    }
  }

  lemma SectionKept(r: Reader, a: seq<string>, b: seq<string>, start: nat, at: nat)
    requires start < at <= |a| && at <= |b| && a[..at] == b[..at] && IsHeading(r, a[start])
    requires (at < |a| ==> IsHeading(r, a[at])) && (at < |b| ==> IsHeading(r, b[at]))
    ensures b[start] == a[start] && Next(r, b, start + 1) == Next(r, a, start + 1) <= at
    ensures SectionAt(r, b, start, Next(r, b, start + 1)) == SectionAt(r, a, start, Next(r, a, start + 1))
  {
    var end := Next(r, a, start + 1);
    SameUpTo(a, b, at);
    NextIs(r, b, start + 1, end);
    SameSlice(a, b, at, start, end);
  }

  lemma SameSlice(a: seq<string>, b: seq<string>, at: nat, start: nat, end: nat)
    requires start <= end <= at <= |a| && at <= |b| && a[..at] == b[..at]
    ensures a[start..end] == b[start..end]
  {
    assert a[start..end] == a[..at][start..end] && b[start..end] == b[..at][start..end];
  }

  lemma SameUpTo(a: seq<string>, b: seq<string>, at: nat)
    requires at <= |a| && at <= |b| && a[..at] == b[..at]
    ensures forall k :: 0 <= k < at ==> a[k] == b[k]
  {
    forall k | 0 <= k < at
      ensures a[k] == b[k]
    {
      assert a[..at][k] == b[..at][k];
    }
  }

  /** The sections before a cut do not depend on what stands behind it. */
  lemma {:induction false} BetweenKept(r: Reader, a: seq<string>, b: seq<string>, start: nat, at: nat)
    requires start <= at <= |a| && at <= |b| && a[..at] == b[..at]
    requires start < at ==> IsHeading(r, a[start]) && IsHeading(r, b[start])
    requires (at < |a| ==> IsHeading(r, a[at])) && (at < |b| ==> IsHeading(r, b[at]))
    ensures Between(r, b, start, at) == Between(r, a, start, at)
    decreases at - start
  {
    if start < at {
      SectionKept(r, a, b, start, at);
      BetweenKept(r, a, b, Next(r, a, start + 1), at);
    }
  }

  lemma PartsBehind(s: Section, rest: seq<Section>, k: nat, n: nat)
    requires n < |rest| && k == n + 1
    ensures ([s] + rest)[..k] == [s] + rest[..n]
    ensures ([s] + rest)[k] == rest[n]
    ensures ([s] + rest)[k + 1..] == rest[n + 1..]
  {
  }

  /** Where the `k`-th section begins, and what stands before it and behind it. */
  lemma {:induction false} FromIndex(r: Reader, lines: seq<string>, start: nat, k: nat) returns (at: nat, end: nat)
    requires Sound(r) && start < |lines| && IsHeading(r, lines[start]) && k < |From(r, lines, start)|
    ensures start <= at < end <= |lines| && IsHeading(r, lines[at]) && end == Next(r, lines, at + 1)
    ensures From(r, lines, start)[k] == SectionAt(r, lines, at, end)
    ensures From(r, lines, start)[..k] == Between(r, lines, start, at)
    ensures From(r, lines, start)[k + 1..] == From(r, lines, end)
    ensures end == |lines| ==> SectionAt(r, lines, at, end).level != 0
    decreases k
  {
    var next := Next(r, lines, start + 1);
    FromStep(r, lines, start);
    if k == 0 {
      at, end := start, next;
    } else {
      var n := k - 1;
      at, end := FromIndex(r, lines, next, n);
      PartsBehind(SectionAt(r, lines, start, next), From(r, lines, next), k, n);
    }
  }

  /** Text that is read back has its lines; the empty text has one more than the empty file. */
  lemma SectionsReadBack(r: Reader, lines: seq<string>)
    requires Sound(r) && Flat(lines)
    ensures SectionsOf(r, Split(Join(lines))) == SectionsOf(r, lines)
  {
    if lines == [] {
      NextIs(r, [""], 0, 1);
      assert SectionsOf(r, [""]) == [] == SectionsOf(r, []);
    } else {
      SplitJoin(lines);
    }
  }

  /** The old sections without the `k`-th, later ones further up. */
  function Others(sections: seq<Section>, k: nat): seq<Section>
    requires k < |sections|
  {
    sections[..k] + Up(sections[k + 1..], Length(sections[k]))
  }

  /**
   * What a caller can read off the sections: no section from the target on, except the first of all, stands
   * under a heading without a name, and a target that ends the file has no such section right before it. What
   * stands before the first heading has no name either.
   */
  predicate CanTake(sections: seq<Section>, k: nat, count: nat)
    requires k < |sections|
  {
    && AllNamed(sections[if k == 0 then 1 else k..])
    && (0 < k && sections[k].endLine == count ==> sections[k - 1].level != 0)
  }

  /** Taking out a section that is reported from line 1 on leaves only what stands behind it. */
  lemma HeadTaken(r: Reader, lines: seq<string>, k: nat, end: nat)
    requires Sound(r) && k < |SectionsOf(r, lines)| && 0 < end < |lines| && IsHeading(r, lines[end])
    requires
      var s := SectionsOf(r, lines)[k];
      s.level == 0 && s.startLine == 1 && s.endLine == end
    requires SectionsOf(r, lines)[k + 1..] == From(r, lines, end)
    ensures
      var sections := SectionsOf(r, lines);
      SectionsOf(r, Cut(lines, sections[k])) == Others(sections, k) <==> CanTake(sections, k, |lines|)
  {
    var sections, left := SectionsOf(r, lines), lines[end..];
    assert Cut(lines, sections[k]) == left;
    assert AllBlank(r, left[..0]);
    assert left[0] == lines[end] && left[0..] == left;
    NextIs(r, left, 0, 0);
    FromMovedExactly(r, lines, end, left, 0, end);
    if k == 0 {
      assert Others(sections, 0) == Up(From(r, lines, end), end);
    } else {
      assert sections[k] == sections[k..][0];
      assert |Others(sections, k)| == k + |From(r, lines, end)|;
    }
  }

  lemma StartsAlike(r: Reader, lines: seq<string>, left: seq<string>, at: nat)
    requires Next(r, lines, 0) <= at <= |lines| && at <= |left| && left[..at] == lines[..at]
    requires at < |left| ==> IsHeading(r, left[at])
    requires Next(r, lines, 0) < |left|
    ensures Next(r, left, 0) == Next(r, lines, 0)
    ensures Next(r, lines, 0) < |lines| ==> Preamble(r, left) == Preamble(r, lines)
  {
    var first := Next(r, lines, 0);
    forall k | 0 <= k < at
      ensures left[k] == lines[k]
    {
      assert left[..at][k] == lines[..at][k];
    }
    NextIs(r, left, 0, first);
    assert left[..first] == left[..at][..first] && lines[..first] == lines[..at][..first];
  }

  /** A file that agrees with `lines` up to its heading at `at`. */
  lemma MiddleLeft(r: Reader, lines: seq<string>, left: seq<string>, first: nat, at: nat)
    requires Sound(r) && first == Next(r, lines, 0) <= at < |lines| && at < |left| && left[..at] == lines[..at]
    requires IsHeading(r, lines[at]) && IsHeading(r, left[at])
    ensures SectionsOf(r, left) == Preamble(r, lines) + (Between(r, lines, first, at) + From(r, left, at))
  {
    StartsAlike(r, lines, left, at);
    FromCut(r, left, first, at);
    BetweenKept(r, lines, left, first, at);
  }

  /** The file without the section from `at` to `end`, with a heading behind it. */
  lemma MiddleTaken(r: Reader, lines: seq<string>, left: seq<string>, first: nat, at: nat, end: nat, count: nat)
    requires Sound(r) && first == Next(r, lines, 0) <= at < end < |lines| && count == end - at
    requires IsHeading(r, lines[at]) && IsHeading(r, lines[end])
    requires at < |left| && left[..at] == lines[..at] && left[at..] == lines[end..]
    ensures
      var rest := From(r, lines, end);
      SectionsOf(r, left) == Preamble(r, lines) + Between(r, lines, first, at) + Up(rest, count) <==> AllNamed(rest)
  {
    assert left[at] == left[at..][0] && lines[end] == lines[end..][0];
    MiddleLeft(r, lines, left, first, at);
    FromMovedExactly(r, lines, end, left, at, count);
    SameHead(Preamble(r, lines), Between(r, lines, first, at), From(r, left, at), Up(From(r, lines, end), count));
  }

  lemma SameHead(a: seq<Section>, b: seq<Section>, c: seq<Section>, d: seq<Section>)
    ensures a + (b + c) == a + b + d <==> c == d
  {
    assert a + (b + c) == a + b + c;
    assert (a + b + c)[|a + b|..] == c && (a + b + d)[|a + b|..] == d;
  }

  /** The file without its last section. */
  lemma LastTaken(r: Reader, lines: seq<string>, first: nat, at: nat)
    requires Sound(r) && first == Next(r, lines, 0) <= at < |lines| && IsHeading(r, lines[at])
    ensures
      var before := Preamble(r, lines) + Between(r, lines, first, at);
      SectionsOf(r, lines[..at]) == before <==> before == [] || before[|before| - 1].level != 0
  {
    var left := lines[..at];
    if at == first {
      NextIs(r, left, 0, at);
      assert SectionsOf(r, left) == [];
    } else {
      StartsAlike(r, lines, left, at);
      assert left[first] == lines[first];
      FromIsBetween(r, left, first);
      BetweenKept(r, lines, left, first, at);
      var all := Between(r, lines, first, at);
      var before := Preamble(r, lines) + all;
      assert before[|before| - 1] == all[|all| - 1];
    }
  }

  lemma NamedLength(r: Reader, lines: seq<string>, at: nat, end: nat)
    requires Sound(r) && at < end <= |lines| && IsHeading(r, lines[at]) && SectionAt(r, lines, at, end).level != 0
    ensures
      var s := SectionAt(r, lines, at, end);
      && Inside(s, lines) && Length(s) == end - at && s.endLine == end
      && Cut(lines, s) == lines[..at] + lines[end..]
  {
  }

  /** Taking out a section under a heading with a name. */
  lemma NamedTaken(r: Reader, lines: seq<string>, s: Section, before: seq<Section>, first: nat, at: nat, end: nat)
    requires Sound(r) && first == Next(r, lines, 0) <= at < end <= |lines|
    requires IsHeading(r, lines[at]) && (end < |lines| ==> IsHeading(r, lines[end]))
    requires s == SectionAt(r, lines, at, end) && s.level != 0
    requires before == Preamble(r, lines) + Between(r, lines, first, at)
    ensures
      var rest := From(r, lines, end);
      Inside(s, lines) &&
      (SectionsOf(r, Cut(lines, s)) == before + Up(rest, Length(s)) <==>
       if end < |lines| then AllNamed(rest) else before == [] || before[|before| - 1].level != 0)
  {
    NamedLength(r, lines, at, end);
    if end < |lines| {
      var left := lines[..at] + lines[end..];
      CutPieces(lines, left, at, end);
      MiddleTaken(r, lines, left, first, at, end, end - at);
    } else {
      assert lines[..at] + lines[end..] == lines[..at];
      assert before + Up([], Length(s)) == before;
      LastTaken(r, lines, first, at);
    }
  }

  lemma CutPieces(lines: seq<string>, left: seq<string>, at: nat, end: nat)
    requires at <= end <= |lines| && left == lines[..at] + lines[end..]
    ensures at <= |left| && left[..at] == lines[..at] && left[at..] == lines[end..]
  {}

  lemma CanTakeNamed(sections: seq<Section>, k: nat, count: nat)
    requires k < |sections| && sections[k].level != 0
    requires sections[k].endLine == count ==> sections[k + 1..] == []
    ensures
      var before, rest := sections[..k], sections[k + 1..];
      CanTake(sections, k, count) <==>
      if sections[k].endLine != count then AllNamed(rest) else before == [] || before[|before| - 1].level != 0
  {
    assert sections[k..] == [sections[k]] + sections[k + 1..];
  }

  /** What stands before and behind a section that a heading makes the parser report. */
  lemma SectionParts(preamble: seq<Section>, rest: seq<Section>, n: nat)
    requires n < |rest|
    ensures
      var sections, k := preamble + rest, |preamble| + n;
      sections[..k] == preamble + rest[..n] && sections[k] == rest[n] && sections[k + 1..] == rest[n + 1..]
  {
  }

  lemma PreambleTaken(r: Reader, lines: seq<string>)
    requires Sound(r) && Preamble(r, lines) != []
    ensures TakenAs(r, lines, 0)
  {
    var first, sections := Next(r, lines, 0), SectionsOf(r, lines);
    assert AllBlank(r, lines[..0]);
    assert sections[1..] == From(r, lines, first) && sections[0] == Preamble(r, lines)[0];
    HeadTaken(r, lines, 0, first);
  }

  lemma HeadingTaken(r: Reader, lines: seq<string>, k: nat, at: nat, end: nat)
    requires Sound(r) && k < |SectionsOf(r, lines)| && Next(r, lines, 0) <= at < end <= |lines|
    requires IsHeading(r, lines[at]) && end == Next(r, lines, at + 1)
    requires SectionsOf(r, lines)[k] == SectionAt(r, lines, at, end)
    requires SectionsOf(r, lines)[..k] == Preamble(r, lines) + Between(r, lines, Next(r, lines, 0), at)
    requires SectionsOf(r, lines)[k + 1..] == From(r, lines, end)
    requires end == |lines| ==> SectionAt(r, lines, at, end).level != 0
    ensures TakenAs(r, lines, k)
  {
    var s := SectionAt(r, lines, at, end);
    if s.level == 0 {
      HeadTaken(r, lines, k, end);
    } else {
      NamedLength(r, lines, at, end);
      NamedTaken(r, lines, s, SectionsOf(r, lines)[..k], Next(r, lines, 0), at, end);
      CanTakeNamed(SectionsOf(r, lines), k, |lines|);
    }
  }

  /** Taking out section `k` leaves the others exactly when it can be taken. */
  predicate TakenAs(r: Reader, lines: seq<string>, k: nat)
    requires k < |SectionsOf(r, lines)|
  {
    var sections := SectionsOf(r, lines);
    Inside(sections[k], lines) &&
    (SectionsOf(r, Cut(lines, sections[k])) == Others(sections, k) <==> CanTake(sections, k, |lines|))
  }

  lemma TakenExactly(r: Reader, lines: seq<string>, k: nat)
    requires Sound(r) && k < |SectionsOf(r, lines)|
    ensures TakenAs(r, lines, k)
  {
    var first := Next(r, lines, 0);
    var preamble, rest := Preamble(r, lines), From(r, lines, first);
    if k < |preamble| {
      PreambleTaken(r, lines);
    } else {
      var at, end := FromIndex(r, lines, first, k - |preamble|);
      SectionParts(preamble, rest, k - |preamble|);
      HeadingTaken(r, lines, k, at, end);
    }
  }

  /**
   * Parsing what an extraction leaves gives the old sections without the target, with later ones further up,
   * exactly when `CanTake` holds: so always for a file with a heading left and no heading without a name.
   */
  lemma ExtractionKeepsTheRestExactly(r: Reader, text: string, k: nat)
    requires Sound(r) && k < |SectionsOf(r, Split(text))|
    ensures
      var lines := Split(text);
      var sections := SectionsOf(r, lines);
      Inside(sections[k], lines) &&
      (SectionsOf(r, Split(Join(Without(r, lines, sections[k])))) == Others(sections, k)
       <==> CanTake(sections, k, |lines|))
  {
    var lines := Split(text);
    var target := SectionsOf(r, lines)[k];
    SplitIsFlat(text);
    TakenExactly(r, lines, k);
    NothingToSkip(r, lines, target);
    CutIsFlat(lines, target);
    SectionsReadBack(r, Cut(lines, target));
  }

  lemma CutIsFlat(lines: seq<string>, s: Section)
    requires Flat(lines) && Inside(s, lines)
    ensures Flat(Cut(lines, s))
  {}

  /* ---- the skill ---- */

  lemma {:induction false} LStripAppend(s: string, c: char)
    ensures Text.LStrip(s + [c]) == if Text.LStrip(s) == "" && Text.IsSpace(c) then "" else Text.LStrip(s) + [c]
  {
    if s != [] && Text.IsSpace(s[0]) {
      assert (s + [c])[1..] == s[1..] + [c];
      LStripAppend(s[1..], c);
    } else if s == [] {
      assert s + [c] == [c] && [c][1..] == "";
    }
  }

  lemma {:induction false} StripRStrip(s: string)
    ensures Text.Strip(Text.RStrip(s)) == Text.Strip(s)
  {
    if s != [] && Text.IsSpace(s[|s| - 1]) {
      var front, c := s[..|s| - 1], s[|s| - 1];
      StripRStrip(front);
      LStripAppend(front, c);
      assert front + [c] == s;
      assert (Text.LStrip(front) + [c])[..|Text.LStrip(front)|] == Text.LStrip(front);
    }
  }

  lemma {:induction false} RStripConcat(a: string, b: string)
    ensures Text.RStrip(a + b) == if Text.RStrip(b) == "" then Text.RStrip(a) else a + Text.RStrip(b)
  {
    if b == [] {
      assert a + b == a;
    } else if Text.IsSpace(b[|b| - 1]) {
      assert (a + b)[..|a + b| - 1] == a + b[..|b| - 1];
      RStripConcat(a, b[..|b| - 1]);
    }
  }

  predicate Hashed(line: string) {
    line != "" && line[0] == '#'
  }

  lemma StripHashed(line: string)
    requires Hashed(line)
    ensures Text.Strip(line) == Text.RStrip(line) && Hashed(Text.RStrip(line))
  {
    Text.RStripKeepsHead(line);
  }

  lemma Assoc(a: string, b: string, c: string)
    ensures (a + b) + c == a + (b + c)
  {}

  lemma RStripSpace(space: string, s: string)
    requires |space| == 1 && Text.IsSpace(space[0])
    ensures Text.RStrip(space + s) == if Text.RStrip(s) == "" then "" else space + Text.RStrip(s)
  {
    RStripConcat(space, s);
    assert space[..0] == "";
  }

  lemma StripSection(head: string, lf: string, body: string)
    requires Hashed(head) && |lf| == 1 && Text.IsSpace(lf[0])
    ensures Text.Strip(head + lf + body) ==
            if Text.RStrip(body) == "" then Text.RStrip(head) else head + lf + Text.RStrip(body)
  {
    StripHashed(head + lf + body);
    Assoc(head, lf, body);
    Assoc(head, lf, Text.RStrip(body));
    RStripConcat(head, lf + body);
    RStripSpace(lf, body);
  }

  lemma SkillOfHeading(content: string, head: string)
    requires '\n' !in head && Hashed(head) && Text.Strip(content) == head
    ensures SkillText(content) == Text.Strip("") + "\n"
  {
    SplitLine(head, "");
    assert "#" <= head;
    assert [head][1..] == [];
  }

  lemma SkillOfSection(content: string, head: string, body: string)
    requires '\n' !in head && Hashed(head) && Text.Strip(content) == head + "\n" + body
    ensures SkillText(content) == Text.Strip(body) + "\n"
  {
    SplitLine(head, body);
    assert "#" <= head;
    assert ([head] + Split(body))[1..] == Split(body);
    JoinSplit(body);
  }

  /** White space aside, the skill of a section under a heading holds every line of it but the heading. */
  lemma SkillHoldsTheBody(head: string, rest: seq<string>)
    requires MarkOf(head).Some? && '\n' !in head
    ensures SkillText(Join([head] + rest)) == Text.Strip(Join(rest)) + "\n"
  {
    var body, content, bare := Join(rest), Join([head] + rest), Text.RStrip(head);
    assert Hashed(head);
    StripHashed(head);
    StripRStrip(body);
    if rest == [] {
      assert [head] + rest == [head];
      SkillOfHeading(content, bare);
    } else {
      assert ([head] + rest)[1..] == rest;
      StripSection(head, "\n", body);
      if Text.RStrip(body) == "" {
        SkillOfHeading(content, bare);
      } else {
        SkillOfSection(content, head, Text.RStrip(body));
      }
    }
  }
}
