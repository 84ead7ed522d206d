/** The managed token blocks of an rc file (scripts/aicode_tokens.py). */
module TokenBlocks {
  // A file is its lines; a block is what stands between a start marker and the next end marker. The methods work on
  // line indices as the source does; their specifications work on `Doc`, the file cut at its blocks.

  import opened Wrappers
  import Text
  import ShellWords

  const START := "# ===AGENTIHOOKS-AICODING-TOKENS==="
  const END := "# ===AGENTIHOOKS-AICODING-TOKENS-END==="
  const CC_PREFIX := "AH_CC_TOKEN_"
  const CX_PREFIX := "AH_CX_TOKEN_"

  type Line = string

  predicate IsStart(line: Line) {
    Text.RStrip(line) == START
  }

  predicate IsEnd(line: Line) {
    Text.RStrip(line) == END
  }

  predicate IsMarker(line: Line) {
    IsStart(line) || IsEnd(line)
  }

  /** A marker stands at the start of its line, with nothing behind it but white space. */
  lemma MarkerLines(space: string)
    requires Text.AllSpace(space)
    ensures IsStart("# ===AGENTIHOOKS-AICODING-TOKENS===" + space)
    ensures IsEnd("# ===AGENTIHOOKS-AICODING-TOKENS-END===" + space)
  {
    Text.RStripSpaces(START, space);
    Text.RStripSpaces(END, space);
    assert START[|START| - 1] == '=' && END[|END| - 1] == '=';
    Text.RStripFixed(START);
    Text.RStripFixed(END);
  }

  lemma MarkerShape(line: Line) returns (space: string)
    requires IsStart(line) || IsEnd(line)
    ensures Text.AllSpace(space)
    ensures IsStart(line) ==> line == "# ===AGENTIHOOKS-AICODING-TOKENS===" + space
    ensures IsEnd(line) ==> line == "# ===AGENTIHOOKS-AICODING-TOKENS-END===" + space
  {
    Text.RStripPiece(line);
    space := line[|Text.RStrip(line)|..];
  }

  /* ---- a file cut at its blocks ---- */

  /** `lead` ends with the start marker; `close` is the end marker. */
  datatype Doc =
    | Tail(lines: seq<Line>)
    | Block(lead: seq<Line>, body: seq<Line>, close: Line, rest: Doc)

  function Flatten(d: Doc): seq<Line> {
    match d
    case Tail(lines) => lines
    case Block(lead, body, close, rest) => lead + body + [close] + Flatten(rest)
  }

  /** `lead` was read since the last block, `body` since the last start marker when there is one. */
  function Cut(lines: seq<Line>, lead: seq<Line>, body: Option<seq<Line>>): Doc {
    if lines == [] then Tail(lead + body.GetOr([]))
    else
      var line, rest := lines[0], lines[1..];
      if IsStart(line) then Cut(rest, lead + body.GetOr([]) + [line], Some([]))
      else if IsEnd(line) && body.Some? then Block(lead, body.value, line, Cut(rest, [], None))
      else if body.Some? then Cut(rest, lead, Some(body.value + [line]))
      else Cut(rest, lead + [line], None)
  }

  function DocOf(lines: seq<Line>): Doc {
    Cut(lines, [], None)
  }

  /** Whether a start marker is open behind `lines`, None when they close a block. */
  function OpenAfter(lines: seq<Line>, open: bool): Option<bool> {
    if lines == [] then Some(open)
    else if IsStart(lines[0]) then OpenAfter(lines[1..], true)
    else if IsEnd(lines[0]) && open then None
    else OpenAfter(lines[1..], open)
  }

  predicate NoMarker(lines: seq<Line>) {
    forall i :: 0 <= i < |lines| ==> !IsMarker(lines[i])
  }

  predicate Proper(d: Doc) {
    match d
    case Tail(lines) => OpenAfter(lines, false).Some?
    case Block(lead, body, close, rest) =>
      && lead != [] && IsStart(lead[|lead| - 1]) && OpenAfter(lead, false).Some?
      && NoMarker(body) && IsEnd(close) && !IsStart(close) && Proper(rest)
  }

  lemma {:induction false} CutKeepsLines(lines: seq<Line>, lead: seq<Line>, body: Option<seq<Line>>)
    ensures Flatten(Cut(lines, lead, body)) == lead + body.GetOr([]) + lines
  {
    if lines != [] {
      var line, rest := lines[0], lines[1..];
      assert lines == [line] + rest;
      if IsStart(line) {
        CutKeepsLines(rest, lead + body.GetOr([]) + [line], Some([]));
      } else if IsEnd(line) && body.Some? {
        CutKeepsLines(rest, [], None);
      } else if body.Some? {
        CutKeepsLines(rest, lead, Some(body.value + [line]));
      } else {
        CutKeepsLines(rest, lead + [line], None);
      }
    }
  }

  /** What `Cut` has read so far can stand in front of what it still reads. */
  predicate Reading(lead: seq<Line>, body: Option<seq<Line>>) {
    match body
    case None => OpenAfter(lead, false) == Some(false)
    case Some(lines) =>
      && lead != [] && IsStart(lead[|lead| - 1]) && OpenAfter(lead, false) == Some(true) && NoMarker(lines)
  }

  lemma {:induction false} OpenAfterJoin(a: seq<Line>, b: seq<Line>, open: bool)
    requires OpenAfter(a, open).Some?
    ensures OpenAfter(a + b, open) == OpenAfter(b, OpenAfter(a, open).value)
  {
    if a == [] {
      assert a + b == b;
    } else {
      assert (a + b)[1..] == a[1..] + b;
      OpenAfterJoin(a[1..], b, if IsStart(a[0]) then true else open);
    }
  }

  lemma {:induction false} NoMarkerKeepsOpen(lines: seq<Line>, open: bool)
    requires NoMarker(lines)
    ensures OpenAfter(lines, open) == Some(open)
  {
    if lines != [] {
      NoMarkerKeepsOpen(lines[1..], open);
    }
  }

  lemma ReadingOpen(lead: seq<Line>, body: Option<seq<Line>>)
    requires Reading(lead, body)
    ensures OpenAfter(lead + body.GetOr([]), false) == Some(body.Some?)
  {
    OpenAfterJoin(lead, body.GetOr([]), false);
    if body.Some? {
      NoMarkerKeepsOpen(body.value, true);
    }
  }

  lemma MarkersDiffer(line: Line)
    ensures !(IsStart(line) && IsEnd(line))
  {
    assert START[3] == END[3];
    assert |START| != |END|;
  }

  lemma {:induction false} CutIsProper(lines: seq<Line>, lead: seq<Line>, body: Option<seq<Line>>)
    requires Reading(lead, body)
    ensures Proper(Cut(lines, lead, body))
  {
    ReadingOpen(lead, body);
    if lines != [] {
      var line, rest := lines[0], lines[1..];
      var read := lead + body.GetOr([]);
      MarkersDiffer(line);
      if IsStart(line) {
        OpenAfterJoin(read, [line], false);
        CutIsProper(rest, read + [line], Some([]));
      } else if IsEnd(line) && body.Some? {
        CutIsProper(rest, [], None);
      } else if body.Some? {
        CutIsProper(rest, lead, Some(body.value + [line]));
      } else {
        OpenAfterJoin(read, [line], false);
        assert read == lead;
        CutIsProper(rest, lead + [line], None);
      }
    }
  }

  lemma {:induction false} CutBody(xs: seq<Line>, ys: seq<Line>, lead: seq<Line>, body: seq<Line>)
    requires NoMarker(xs)
    ensures Cut(xs + ys, lead, Some(body)) == Cut(ys, lead, Some(body + xs))
  {
    if xs == [] {
      assert xs + ys == ys && body + xs == body;
    } else {
      assert !IsMarker(xs[0]);
      assert (xs + ys)[1..] == xs[1..] + ys;
      assert body + [xs[0]] + xs[1..] == body + xs;
      CutBody(xs[1..], ys, lead, body + [xs[0]]);
    }
  }

  /** Lines that close no block and end with a start marker become the lead of the next block. */
  lemma {:induction false} CutLead(
    xs: seq<Line>, ys: seq<Line>, lead: seq<Line>, body: Option<seq<Line>>, read: seq<Line>)
    requires xs != [] && IsStart(xs[|xs| - 1]) && OpenAfter(xs, body.Some?).Some?
    requires read == lead + body.GetOr([])
    ensures Cut(xs + ys, lead, body) == Cut(ys, read + xs, Some([]))
  {
    var line, rest := xs[0], xs[1..];
    assert (xs + ys)[1..] == rest + ys;
    assert read + [line] + rest == read + xs;
    if rest == [] {
      assert xs == [line] && rest + ys == ys;
    } else if IsStart(line) {
      CutLead(rest, ys, read + [line], Some([]), read + [line]);
    } else if body.Some? {
      assert lead + (body.value + [line]) == read + [line];
      CutLead(rest, ys, lead, Some(body.value + [line]), read + [line]);
    } else {
      assert read == lead;
      CutLead(rest, ys, lead + [line], None, read + [line]);
    }
  }

  lemma {:induction false} CutTail(xs: seq<Line>, lead: seq<Line>, body: Option<seq<Line>>)
    requires OpenAfter(xs, body.Some?).Some?
    ensures Cut(xs, lead, body) == Tail(lead + body.GetOr([]) + xs)
  {
    if xs != [] {
      var line, rest := xs[0], xs[1..];
      assert lead + body.GetOr([]) + [line] + rest == lead + body.GetOr([]) + xs;
      if IsStart(line) {
        CutTail(rest, lead + body.GetOr([]) + [line], Some([]));
      } else if body.Some? {
        assert lead + (body.value + [line]) == lead + body.value + [line];
        CutTail(rest, lead, Some(body.value + [line]));
      } else {
        CutTail(rest, lead + [line], None);
      }
    }
  }

  lemma CutOneBlock(lead: seq<Line>, body: seq<Line>, close: Line, rest: seq<Line>)
    requires lead != [] && IsStart(lead[|lead| - 1]) && OpenAfter(lead, false).Some?
    requires NoMarker(body) && IsEnd(close) && !IsStart(close)
    ensures Cut(lead + body + [close] + rest, [], None) == Block(lead, body, close, Cut(rest, [], None))
  {
    var tail := [close] + rest;
    assert lead + body + [close] + rest == lead + (body + tail);
    CutLead(lead, body + tail, [], None, []);
    assert [] + lead == lead && [] + body == body;
    CutBody(body, tail, lead, []);
    assert tail[1..] == rest;
  }

  /** Cutting the lines of a proper document gives the document back. */
  lemma {:induction false} CutFlatten(d: Doc)
    requires Proper(d)
    ensures DocOf(Flatten(d)) == d
  {
    match d
    case Tail(lines) =>
      CutTail(lines, [], None);
      assert [] + [] + lines == lines;
    case Block(lead, body, close, rest) =>
      CutOneBlock(lead, body, close, Flatten(rest));
      CutFlatten(rest);
  }

  lemma DocOfIsProper(lines: seq<Line>)
    ensures Proper(DocOf(lines)) && Flatten(DocOf(lines)) == lines
  {
    CutIsProper(lines, [], None);
    CutKeepsLines(lines, [], None);
    assert [] + [] + lines == lines;
  }

  /* ---- spans ---- */

  type Span = (int, int)

  /** The marker positions of the blocks, for a document that starts at line `at`. */
  function Spans(d: Doc, at: nat): (spans: seq<Span>)
    ensures |spans| == BlockCount(d)
  {
    match d
    case Tail(_) => []
    case Block(lead, body, _, rest) =>
      var end := at + |lead| + |body|;
      [(at + |lead| - 1, end)] + Spans(rest, end + 1)
  }

  function BlockCount(d: Doc): nat {
    if d.Tail? then 0 else 1 + BlockCount(d.rest)
  }

  /** Where `Cut` stands: the line its current piece began at, and what it has read since. */
  datatype Reader = Reader(from: nat, lead: seq<Line>, body: Option<seq<Line>>) {
    ghost predicate Valid() {
      Reading(lead, body)
    }

    function At(): nat {
      from + |lead| + |body.GetOr([])|
    }

    function StartMarker(): Option<nat>
      requires body.Some? ==> lead != []
    {
      if body.Some? then Some(from + |lead| - 1) else None
    }

    function Next(line: Line): Reader {
      if IsStart(line) then Reader(from, lead + body.GetOr([]) + [line], Some([]))
      else if IsEnd(line) && body.Some? then Reader(At() + 1, [], None)
      else if body.Some? then Reader(from, lead, Some(body.value + [line]))
      else Reader(from, lead + [line], None)
    }

    function Closes(line: Line): seq<Span>
      requires body.Some? ==> lead != []
    {
      if !IsStart(line) && IsEnd(line) && body.Some? then [(from + |lead| - 1, At())] else []
    }

    /** The spans still to come. */
    ghost function SpansAhead(lines: seq<Line>): seq<Span> {
      Spans(Cut(lines, lead, body), from)
    }

    lemma NextIsValid(line: Line)
      requires Valid()
      ensures Next(line).Valid() && Next(line).At() == At() + 1
    {
      ReadingOpen(lead, body);
      OpenAfterJoin(lead + body.GetOr([]), [line], false);
      assert body.None? ==> lead + body.GetOr([]) == lead;
    }

    lemma SpansStep(lines: seq<Line>)
      requires Valid() && lines != []
      ensures Next(lines[0]).Valid() && Next(lines[0]).At() == At() + 1
      ensures SpansAhead(lines) == Closes(lines[0]) + Next(lines[0]).SpansAhead(lines[1..])
    {
      NextIsValid(lines[0]);
    }

    /** One turn of the loop of `Blocks`, which keeps only the position of an open start marker. */
    lemma LoopStep(lines: seq<Line>, k: nat, spans: seq<Span>, reader: Reader)
      requires Valid() && k < |lines| && At() == k && reader == Next(lines[k])
      ensures reader.Valid() && reader.At() == k + 1
      ensures
        var line, start := lines[k], StartMarker();
        var closes := !IsStart(line) && IsEnd(line) && start.Some?;
        && reader.StartMarker() == (if IsStart(line) then Some(k) else if closes then None else start)
        && spans + SpansAhead(lines[k..]) ==
           (if closes then spans + [(start.value, k)] else spans) + reader.SpansAhead(lines[k + 1..])
    {
      SpansStep(lines[k..]);
      assert lines[k..][0] == lines[k] && lines[k..][1..] == lines[k + 1..];
      Regroup(spans, Closes(lines[k]), reader.SpansAhead(lines[k + 1..]));
    }
  }

  lemma Regroup<T>(a: seq<T>, b: seq<T>, c: seq<T>)
    ensures a + (b + c) == a + b + c
  {
  }

  /** `_blocks` */
  method Blocks(lines: seq<Line>) returns (spans: seq<Span>)
    ensures Proper(DocOf(lines)) && spans == Spans(DocOf(lines), 0)
  {
    DocOfIsProper(lines);
    spans := [];
    var start: Option<nat> := None;
    ghost var reader := Reader(0, [], None);
    assert lines[0..] == lines;
    for k := 0 to |lines|
      invariant reader.Valid() && reader.At() == k && start == reader.StartMarker()
      invariant Spans(DocOf(lines), 0) == spans + reader.SpansAhead(lines[k..])
    {
      ghost var next := reader.Next(lines[k]);
      reader.LoopStep(lines, k, spans, next);
      if IsStart(lines[k]) {
        start := Some(k);
      } else if IsEnd(lines[k]) && start.Some? {
        spans := spans + [(start.value, k)];
        start := None;
      }
      reader := next;
    }
    assert lines[|lines|..] == [];
  }

  /* ---- exports ---- */

  function NameLength(s: string): (n: nat)
    ensures n <= |s|
    ensures forall i :: 0 <= i < n ==> s[i] != '=' && !Text.IsSpace(s[i])
    ensures n < |s| ==> s[n] == '=' || Text.IsSpace(s[n])
  {
    if s == [] || s[0] == '=' || Text.IsSpace(s[0]) then 0 else 1 + NameLength(s[1..])
  }

  /** `_exported`: what the pattern \s*export\s+([^=\s]+)= finds at the start of a line. */
  function Exported(line: Line): Option<string> {
    var s := Text.LStrip(line);
    if "export" <= s then AssignedName(s[6..]) else None
  }

  function AssignedName(s: string): Option<string> {
    var rest := Text.LStrip(s);
    var n := NameLength(rest);
    if |rest| == |s| || n == 0 || n == |rest| || rest[n] != '=' then None else Some(rest[..n])
  }

  /** A name that the pattern can find: no equals sign and no white space in it. */
  predicate PatternName(name: string) {
    name != "" && forall i :: 0 <= i < |name| ==> name[i] != '=' && !Text.IsSpace(name[i])
  }

  lemma {:induction false} NameEnds(name: string, rest: string)
    requires forall i :: 0 <= i < |name| ==> name[i] != '=' && !Text.IsSpace(name[i])
    ensures NameLength(name + "=" + rest) == |name|
  {
    if name == "" {
      assert name + "=" + rest == "=" + rest;
    } else {
      assert (name + "=" + rest)[1..] == name[1..] + "=" + rest;
      NameEnds(name[1..], rest);
    }
  }

  /** The pattern finds an export however it is spaced, whatever is assigned. */
  lemma ExportIsFound(before: string, between: string, name: string, value: string)
    requires Text.AllSpace(before) && Text.AllSpace(between) && between != "" && PatternName(name)
    ensures Exported(before + "export" + between + name + "=" + value) == Some(name)
  {
    var assignment := name + "=" + value;
    assert assignment[0] == name[0];
    Text.LStripSpaces(between, assignment);
    NameEnds(name, value);
    assert assignment[..|name|] == name;
    ExportHead(before, "export", between + assignment);
    assert before + ("export" + (between + assignment)) == before + "export" + between + name + "=" + value;
  }

  lemma ExportHead(before: string, word: string, behind: string)
    requires Text.AllSpace(before) && word == "export"
    ensures Exported(before + (word + behind)) == AssignedName(behind)
  {
    var s := word + behind;
    Text.LStripSpaces(before, s);
    assert s[0] == 'e' && s[6..] == behind;
  }

  lemma FoundName(s: string) returns (between: string, value: string)
    requires AssignedName(s).Some?
    ensures Text.AllSpace(between) && between != "" && PatternName(AssignedName(s).value)
    ensures s == between + (AssignedName(s).value + "=" + value)
  {
    var j := Text.LStripPiece(s);
    var rest := s[j..];
    var n := NameLength(rest);
    between, value := s[..j], rest[n + 1..];
    assert rest == rest[..n] + "=" + value;
    assert s == between + rest;
  }

  lemma SixParts(a: string, b: string, c: string, d: string, e: string, f: string)
    ensures a + (b + (c + (d + e + f))) == a + b + c + d + e + f
  {
  }

  /** And nothing else: a line that is said to export a name has this shape. */
  lemma FoundExport(line: Line) returns (before: string, between: string, value: string)
    requires Exported(line).Some?
    ensures Text.AllSpace(before) && Text.AllSpace(between) && between != "" && PatternName(Exported(line).value)
    ensures line == before + "export" + between + Exported(line).value + "=" + value
  {
    var k := Text.LStripPiece(line);
    var s := line[k..];
    before := line[..k];
    between, value := FoundName(s[6..]);
    assert s == "export" + s[6..] && line == before + s;
    SixParts(before, "export", between, Exported(line).value, "=", value);
  }

  predicate ExportsOneOf(line: Line, names: set<string>) {
    Exported(line).Some? && Exported(line).value in names
  }

  /** `_drop` */
  function Drop(body: seq<Line>, names: set<string>): seq<Line> {
    if body == [] then []
    else (if ExportsOneOf(body[0], names) then [] else [body[0]]) + Drop(body[1..], names)
  }

  /** The lines that export one name, in order. */
  function Select(body: seq<Line>, name: string): seq<Line> {
    if body == [] then []
    else (if Exported(body[0]) == Some(name) then [body[0]] else []) + Select(body[1..], name)
  }

  /** The first line that exports the name, the length of the body when there is none. */
  function FirstExport(body: seq<Line>, name: string): (at: nat)
    ensures at <= |body|
    ensures forall i :: 0 <= i < at ==> Exported(body[i]) != Some(name)
    ensures at < |body| ==> Exported(body[at]) == Some(name)
  {
    if body == [] || Exported(body[0]) == Some(name) then 0 else 1 + FirstExport(body[1..], name)
  }

  /** `_place` */
  function Place(body: seq<Line>, name: string, line: Line, stale: set<string>): seq<Line> {
    var at := FirstExport(body, name);
    if at == |body| then Drop(body, stale) + [line]
    else Drop(body[..at], stale + {name}) + [line] + Drop(body[at + 1..], stale + {name})
  }

  function ExportLine(name: string, value: string): Line {
    "export " + name + "=" + ShellWords.Quote(value) + "\n"
  }

  /* ---- one entry put into a document ---- */

  function DropAll(d: Doc, names: set<string>): Doc {
    match d
    case Tail(_) => d
    case Block(lead, body, close, rest) => Block(lead, Drop(body, names), close, DropAll(rest, names))
  }

  /** The entry goes into the first block and is dropped from the others. */
  function UpsertDoc(d: Doc, name: string, line: Line, stale: set<string>): Doc {
    match d
    case Tail(_) => d
    case Block(lead, body, close, rest) =>
      Block(lead, Place(body, name, line, stale), close, DropAll(rest, stale + {name}))
  }

  function BodyAt(d: Doc, j: nat): seq<Line>
    requires j < BlockCount(d)
  {
    if j == 0 then d.body else BodyAt(d.rest, j - 1)
  }

  function WithBody(d: Doc, j: nat, body: seq<Line>): Doc
    requires j < BlockCount(d)
  {
    if j == 0 then d.(body := body) else d.(rest := WithBody(d.rest, j - 1, body))
  }

  /** Names dropped from the blocks from number `j` on. */
  function DropFrom(d: Doc, j: nat, names: set<string>): Doc {
    if d.Tail? then d
    else if j == 0 then DropAll(d, names)
    else d.(rest := DropFrom(d.rest, j - 1, names))
  }

  predicate Led(d: Doc) {
    d.Block? ==> d.lead != [] && Led(d.rest)
  }

  lemma {:induction false} ProperIsLed(d: Doc)
    requires Proper(d)
    ensures Led(d)
  {
    if d.Block? {
      ProperIsLed(d.rest);
    }
  }

  lemma {:induction false} WithBodyIsProper(d: Doc, j: nat, body: seq<Line>)
    requires Proper(d) && j < BlockCount(d) && NoMarker(body)
    ensures Proper(WithBody(d, j, body)) && BlockCount(WithBody(d, j, body)) == BlockCount(d)
  {
    if j > 0 {
      WithBodyIsProper(d.rest, j - 1, body);
    }
  }

  /** A new body leaves earlier blocks where they were. */
  lemma {:induction false} EarlierSpansStay(d: Doc, at: nat, j: nat, body: seq<Line>, i: nat)
    requires i < j < BlockCount(d) && BlockCount(WithBody(d, j, body)) == BlockCount(d)
    ensures Spans(WithBody(d, j, body), at)[i] == Spans(d, at)[i]
  {
    if i > 0 {
      EarlierSpansStay(d.rest, at + |d.lead| + |d.body| + 1, j - 1, body, i - 1);
    }
  }

  /** `former` stands between the two places, and `body` in its stead gives `after`; the lines are counted from `at`. */
  predicate Splices(
    lines: seq<Line>, at: nat, span: Span, former: seq<Line>, body: seq<Line>, after: seq<Line>)
  {
    var (start, end) := span;
    && at <= start < end < at + |lines|
    && lines[start + 1 - at..end - at] == former
    && lines[..start + 1 - at] + body + lines[end - at..] == after
  }

  ghost predicate SplicesAt(d: Doc, at: nat, j: nat, body: seq<Line>)
    requires j < BlockCount(d)
  {
    Splices(Flatten(d), at, Spans(d, at)[j], BodyAt(d, j), body, Flatten(WithBody(d, j, body)))
  }

  /** A block's markers cut the lines where its body is. */
  lemma {:induction false} SpliceBlock(d: Doc, at: nat, j: nat, body: seq<Line>)
    requires Led(d) && j < BlockCount(d)
    ensures SplicesAt(d, at, j, body)
  {
    if j == 0 {
      SpliceFirst(d, at, body);
    } else {
      var before := d.lead + d.body + [d.close];
      SpliceBlock(d.rest, at + |before|, j - 1, body);
      SpliceLater(d, at, j, body, before, at + |before|, j - 1);
    }
  }

  lemma SpliceFirst(d: Doc, at: nat, body: seq<Line>)
    requires Led(d) && 0 < BlockCount(d)
    ensures SplicesAt(d, at, 0, body)
  {
    var tail := [d.close] + Flatten(d.rest);
    Assoc(d.lead + d.body, [d.close], Flatten(d.rest));
    Assoc(d.lead + body, [d.close], Flatten(d.rest));
    SpliceMiddle(d.lead, d.body, tail, body);
  }

  lemma SpliceLater(d: Doc, at: nat, j: nat, body: seq<Line>, before: seq<Line>, next: nat, k: nat)
    requires 0 < j < BlockCount(d) && before == d.lead + d.body + [d.close] && next == at + |before| && k == j - 1
    requires SplicesAt(d.rest, next, k, body)
    ensures SplicesAt(d, at, j, body)
  {
    LaterBlock(d, at, j, body, before, next, k);
    SplicesBehind(
      before, Flatten(d.rest), at, next, Spans(d.rest, next)[k], BodyAt(d.rest, k), body, Flatten(WithBody(d.rest, k, body)));
  }

  lemma SplicesBehind(
    before: seq<Line>, lines: seq<Line>, at: nat, next: nat, span: Span, former: seq<Line>, body: seq<Line>,
    after: seq<Line>)
    requires next == at + |before| && Splices(lines, next, span, former, body, after)
    ensures Splices(before + lines, at, span, former, body, before + after)
  {
    var lo, hi := span.0 + 1 - next, span.1 - next;
    assert span.0 + 1 - at == |before| + lo && span.1 - at == |before| + hi;
    SpliceBehind(before, lines, lo, hi, body);
  }

  /** A block behind the first one, seen from what follows the first. */
  lemma LaterBlock(d: Doc, at: nat, j: nat, body: seq<Line>, before: seq<Line>, next: nat, k: nat)
    requires 0 < j < BlockCount(d) && before == d.lead + d.body + [d.close] && next == at + |before| && k == j - 1
    ensures Spans(d, at)[j] == Spans(d.rest, next)[k] && BodyAt(d, j) == BodyAt(d.rest, k)
    ensures Flatten(d) == before + Flatten(d.rest)
    ensures Flatten(WithBody(d, j, body)) == before + Flatten(WithBody(d.rest, k, body))
  {
  }

  lemma Assoc<T>(a: seq<T>, b: seq<T>, c: seq<T>)
    ensures a + b + c == a + (b + c)
  {
  }

  lemma SpliceMiddle(a: seq<Line>, b: seq<Line>, c: seq<Line>, body: seq<Line>)
    ensures (a + b + c)[|a|..|a| + |b|] == b
    ensures (a + b + c)[..|a|] + body + (a + b + c)[|a| + |b|..] == a + body + c
  {
  }

  lemma SpliceBehind(before: seq<Line>, lines: seq<Line>, lo: nat, hi: nat, body: seq<Line>)
    requires lo <= hi < |lines|
    ensures (before + lines)[|before| + lo..|before| + hi] == lines[lo..hi]
    ensures (before + lines)[..|before| + lo] + body + (before + lines)[|before| + hi..] ==
            before + (lines[..lo] + body + lines[hi..])
  {
  }

  lemma {:induction false} DropKeepsNoMarker(body: seq<Line>, names: set<string>)
    requires NoMarker(body)
    ensures NoMarker(Drop(body, names))
  {
    if body != [] {
      assert !IsMarker(body[0]);
      DropKeepsNoMarker(body[1..], names);
    }
  }

  lemma {:induction false} DropFromEnd(d: Doc, names: set<string>)
    ensures DropFrom(d, BlockCount(d), names) == d
  {
    if d.Block? {
      DropFromEnd(d.rest, names);
    }
  }

  lemma {:induction false} DropOneBlock(d: Doc, j: nat, next: nat, names: set<string>)
    requires j < BlockCount(d) && next == j + 1
    ensures
      var later := DropFrom(d, next, names);
      && BlockCount(later) == BlockCount(d) && BodyAt(later, j) == BodyAt(d, j)
      && WithBody(later, j, Drop(BodyAt(d, j), names)) == DropFrom(d, j, names)
  {
    if j > 0 {
      DropOneBlock(d.rest, j - 1, j, names);
    } else {
      DropFromFirst(d.rest, names);
    }
  }

  lemma {:induction false} DropFromFirst(d: Doc, names: set<string>)
    ensures DropFrom(d, 0, names) == DropAll(d, names) && BlockCount(DropAll(d, names)) == BlockCount(d)
  {
    if d.Block? {
      DropFromFirst(d.rest, names);
    }
  }

  lemma {:induction false} BodyHasNoMarker(d: Doc, j: nat)
    requires Proper(d) && j < BlockCount(d)
    ensures NoMarker(BodyAt(d, j))
  {
    if j > 0 {
      BodyHasNoMarker(d.rest, j - 1);
    }
  }

  /** The document in the middle of the reverse loop: blocks before `j` stand where `spans` says. */
  ghost predicate Spliced(d: Doc, cur: Doc, spans: seq<Span>, j: nat) {
    && Proper(cur) && BlockCount(cur) == BlockCount(d) == |spans| && j <= |spans|
    && (forall i :: 0 <= i < j ==> Spans(cur, 0)[i] == spans[i])
  }

  lemma StaysSpliced(d: Doc, cur: Doc, spans: seq<Span>, j: nat, next: nat, body: seq<Line>)
    requires next == j + 1 && Spliced(d, cur, spans, next) && NoMarker(body)
    ensures Spliced(d, WithBody(cur, j, body), spans, j)
  {
    WithBodyIsProper(cur, j, body);
    forall i | 0 <= i < j
      ensures Spans(WithBody(cur, j, body), 0)[i] == spans[i]
    {
      EarlierSpansStay(cur, 0, j, body, i);
    }
  }

  lemma SpliceText(cur: Doc, j: nat, span: Span, body: seq<Line>)
    requires Led(cur) && j < BlockCount(cur) && Spans(cur, 0)[j] == span
    ensures 0 <= span.0 < span.1 < |Flatten(cur)|
    ensures Flatten(cur)[span.0 + 1..span.1] == BodyAt(cur, j)
    ensures Flatten(cur)[..span.0 + 1] + body + Flatten(cur)[span.1..] == Flatten(WithBody(cur, j, body))
  {
    SpliceBlock(cur, 0, j, body);
    var lo, hi := span.0 + 1 - 0, span.1 - 0;
    assert lo == span.0 + 1 && hi == span.1;
  }

  /** One turn of the reverse loop. */
  lemma DropStep(d: Doc, spans: seq<Span>, j: nat, next: nat, names: set<string>)
    requires next == j + 1 <= |spans| && Spliced(d, DropFrom(d, next, names), spans, next)
    ensures Spliced(d, DropFrom(d, j, names), spans, j)
    ensures
      var lines := Flatten(DropFrom(d, next, names));
      var (start, end) := spans[j];
      && 0 <= start < end < |lines|
      && lines[..start + 1] + Drop(lines[start + 1..end], names) + lines[end..] == Flatten(DropFrom(d, j, names))
  {
    var cur := DropFrom(d, next, names);
    DropOneBlock(d, j, next, names);
    DropOneSplice(d, cur, spans, j, next, names);
  }

  lemma DropOneSplice(d: Doc, cur: Doc, spans: seq<Span>, j: nat, next: nat, names: set<string>)
    requires next == j + 1 <= |spans| && Spliced(d, cur, spans, next)
    ensures
      var lines := Flatten(cur);
      var (start, end) := spans[j];
      var after := WithBody(cur, j, Drop(BodyAt(cur, j), names));
      && Spliced(d, after, spans, j)
      && 0 <= start < end < |lines|
      && lines[..start + 1] + Drop(lines[start + 1..end], names) + lines[end..] == Flatten(after)
  {
    BodyHasNoMarker(cur, j);
    DropKeepsNoMarker(BodyAt(cur, j), names);
    ProperIsLed(cur);
    SpliceText(cur, j, spans[j], Drop(BodyAt(cur, j), names));
    StaysSpliced(d, cur, spans, j, next, Drop(BodyAt(cur, j), names));
  }

  /** The reverse loop of `upsert` and `remove_exports`: spans found once stay right for the blocks before. */
  method DropSpans(lines: seq<Line>, spans: seq<Span>, from: nat, names: set<string>, ghost d: Doc)
    returns (result: seq<Line>)
    requires Proper(d) && lines == Flatten(d) && spans == Spans(d, 0) && from <= |spans|
    ensures result == Flatten(DropFrom(d, from, names))
    ensures Spliced(d, DropFrom(d, from, names), spans, from)
  {
    result := lines;
    var j := |spans|;
    DropFromEnd(d, names);
    while from < j
      invariant from <= j <= |spans|
      invariant result == Flatten(DropFrom(d, j, names))
      invariant Spliced(d, DropFrom(d, j, names), spans, j)
    {
      var k := j - 1;
      DropStep(d, spans, k, j, names);
      var (inner, outer) := spans[k];
      result := result[..inner + 1] + Drop(result[inner + 1..outer], names) + result[outer..];
      j := k;
    }
  }

  /** `remove_exports` on the lines of the file. */
  method RemoveExports(lines: seq<Line>, names: set<string>) returns (result: seq<Line>)
    ensures result == Flatten(DropAll(DocOf(lines), names))
  {
    var spans := Blocks(lines);
    DocOfIsProper(lines);
    result := DropSpans(lines, spans, 0, names, DocOf(lines));
    DropFromFirst(DocOf(lines), names);
  }

  predicate ValidName(name: string) {
    PatternName(name) && ShellWords.AllPlain(name)
  }

  lemma WrittenLineIsNoMarker(name: string, value: string)
    ensures !IsMarker(ExportLine(name, value))
  {
    var line := ExportLine(name, value);
    assert line[0] == 'e';
    Text.RStripKeepsHead(line);
    assert START[0] == '#' && END[0] == '#';
  }

  lemma PlaceKeepsNoMarker(body: seq<Line>, name: string, line: Line, stale: set<string>)
    requires NoMarker(body) && !IsMarker(line)
    ensures NoMarker(Place(body, name, line, stale))
  {
    var at, behind, names := PlacedParts(body, name, line, stale);
    NoMarkerAround(body, at, behind);
    KeptNoMarker(body[..at], names, line, body[behind..]);
  }

  /** Where the line is put in, and what is dropped before and behind it. */
  lemma PlacedParts(body: seq<Line>, name: string, line: Line, stale: set<string>)
      returns (at: nat, behind: nat, names: set<string>)
    ensures at <= behind <= |body|
    ensures Place(body, name, line, stale) == Drop(body[..at], names) + [line] + Drop(body[behind..], names)
  {
    at := FirstExport(body, name);
    if at < |body| {
      behind, names := at + 1, stale + {name};
    } else {
      behind, names := at, stale;
      assert body[..at] == body && body[behind..] == [];
      NothingFollows(Drop(body, stale) + [line]);
    }
  }

  lemma NothingFollows(lines: seq<Line>)
    ensures lines + [] == lines
  {
  }

  lemma KeptNoMarker(head: seq<Line>, names: set<string>, line: Line, tail: seq<Line>)
    requires NoMarker(head) && !IsMarker(line) && NoMarker(tail)
    ensures NoMarker(Drop(head, names) + [line] + Drop(tail, names))
  {
    DropKeepsNoMarker(head, names);
    DropKeepsNoMarker(tail, names);
    NoMarkerBetween(Drop(head, names), line, Drop(tail, names));
  }

  lemma NoMarkerAround(body: seq<Line>, at: nat, behind: nat)
    requires NoMarker(body) && at <= behind <= |body|
    ensures NoMarker(body[..at]) && NoMarker(body[behind..])
  {
  }

  lemma NoMarkerBetween(a: seq<Line>, line: Line, b: seq<Line>)
    requires NoMarker(a) && !IsMarker(line) && NoMarker(b)
    ensures NoMarker(a + [line] + b)
  {
  }

  /** The first block rewritten behind the reverse loop over the others. */
  lemma PlaceStep(d: Doc, spans: seq<Span>, name: string, line: Line, stale: set<string>)
    requires Proper(d) && d.Block? && !IsMarker(line)
    requires Spliced(d, DropFrom(d, 1, stale + {name}), spans, 1)
    ensures Proper(UpsertDoc(d, name, line, stale))
    ensures
      var lines := Flatten(DropFrom(d, 1, stale + {name}));
      var (start, end) := spans[0];
      && 0 <= start < end < |lines|
      && lines[..start + 1] + Place(lines[start + 1..end], name, line, stale) + lines[end..]
         == Flatten(UpsertDoc(d, name, line, stale))
  {
    var cur := DropFrom(d, 1, stale + {name});
    DropFromFirst(d.rest, stale + {name});
    BodyHasNoMarker(d, 0);
    PlaceKeepsNoMarker(d.body, name, line, stale);
    ProperIsLed(cur);
    SpliceText(cur, 0, spans[0], Place(d.body, name, line, stale));
    StaysSpliced(d, cur, spans, 0, 1, Place(d.body, name, line, stale));
  }

  /** One turn of the loop of `upsert`. */
  method UpsertOne(lines: seq<Line>, name: string, value: string, stale: set<string>) returns (result: seq<Line>)
    requires 0 < BlockCount(DocOf(lines))
    ensures Proper(UpsertDoc(DocOf(lines), name, ExportLine(name, value), stale))
    ensures result == Flatten(UpsertDoc(DocOf(lines), name, ExportLine(name, value), stale))
  {
    var spans := Blocks(lines);
    DocOfIsProper(lines);
    var (start, end) := spans[0];
    result := DropSpans(lines, spans, 1, stale + {name}, DocOf(lines));
    var line := ExportLine(name, value);
    WrittenLineIsNoMarker(name, value);
    PlaceStep(DocOf(lines), spans, name, line, stale);
    result := result[..start + 1] + Place(result[start + 1..end], name, line, stale) + result[end..];
  }
}
