/** hooks/config.py: environment files layered below the environment of the process. */
module EnvFiles {
  // The first definition in a file counts, the last file counts, and what the process itself set is never touched.

  import opened Wrappers
  import Text

  /** One definition as a line gives it; `spans` when its quote is still open at the end of the line. */
  datatype Definition = Definition(key: string, value: string, spans: bool)

  /** What one line gives outside an open quote: a definition, and the quote it leaves open. */
  datatype LineRead = LineRead(definition: Option<Definition>, opens: Option<char>)

  /* ---- one line ---- */

  const EXPORT := "export "

  /** The line without white space around it and without a leading export. */
  function Bare(line: string): string {
    var stripped := Text.Strip(line);
    if EXPORT <= stripped then Text.LStrip(stripped[|EXPORT|..]) else stripped
  }

  /** Where `c` first stands, or the length. */
  function Find(s: string, c: char): (i: nat)
    ensures i <= |s| && c !in s[..i] && (i < |s| ==> s[i] == c)
  {
    if s == "" || s[0] == c then 0
    else
      var i := Find(s[1..], c);
      assert s[..1 + i] == [s[0]] + s[1..][..i];
      1 + i
  }

  /** The value behind the equals sign, and the quote it leaves open. */
  function ValueOf(text: string): (string, Option<char>) {
    if text != "" && (text[0] == '"' || text[0] == '\'') then
      var end := Find(text[1..], text[0]);
      (text[1..][..end], if end == |text| - 1 then Some(text[0]) else None)
    else (Text.RStrip(text[..Find(text, '#')]), None)
  }

  function ReadLine(line: string): LineRead {
    var stripped := Text.Strip(line);
    var bare := Bare(line);
    var at := Find(bare, '=');
    if stripped == "" || stripped[0] == '#' || at == |bare| then LineRead(None, None)
    else
      var (value, opens) := ValueOf(Text.Strip(bare[at + 1..]));
      LineRead(Some(Definition(Text.Strip(bare[..at]), value, opens.Some?)), opens)
  }

  /** What `_VALID_NAME` matches in full. */
  predicate ValidName(key: string) {
    && key != "" && !('0' <= key[0] <= '9')
    && forall i :: 0 <= i < |key| ==> 'A' <= key[i] <= 'Z' || 'a' <= key[i] <= 'z' || '0' <= key[i] <= '9' || key[i] == '_'
  }

  predicate Counts(key: string, blocked: set<string>) {
    key !in blocked && ValidName(key)
  }

  /** A line defines something exactly when it is no comment and holds an equals sign, `export` aside. */
  predicate Defines(line: string) {
    Text.Strip(line) != "" && Text.Strip(line)[0] != '#' && '=' in Bare(line)
  }

  /** What stands behind the first equals sign of a line that defines something. */
  function Behind(line: string): string
    requires Defines(line)
  {
    Text.Strip(Bare(line)[Find(Bare(line), '=') + 1..])
  }

  lemma FindExactly(s: string, c: char)
    ensures Find(s, c) < |s| <==> c in s
  {
    assert s[..|s|] == s;
  }

  /**
   * A line leaves a quote open exactly when it defines something whose value begins with that quote and has no
   * second one; the value is then taken for one that spans lines.
   */
  lemma QuoteOpensExactly(line: string, q: char)
    ensures ReadLine(line).opens == Some(q) <==>
            Defines(line) && q in {'"', '\''} && Behind(line) != "" && Behind(line)[0] == q && q !in Behind(line)[1..]
    ensures ReadLine(line).definition.Some? <==> Defines(line)
    ensures ReadLine(line).opens.Some? <==> ReadLine(line).definition.Some? && ReadLine(line).definition.value.spans
  {
    FindExactly(Bare(line), '=');
    if Defines(line) && Behind(line) != "" {
      FindExactly(Behind(line)[1..], Behind(line)[0]);
    }
  }

  lemma {:induction false} FindsFirst(s: string, c: char, rest: string)
    requires c !in s
    ensures Find(s + [c] + rest, c) == |s|
  {
    if s == "" {
      assert s + [c] + rest == [c] + rest;
    } else {
      assert (s + [c] + rest)[1..] == s[1..] + [c] + rest;
      FindsFirst(s[1..], c, rest);
    }
  }

  lemma StripFixed(s: string)
    requires s != "" && !Text.IsSpace(s[0]) && !Text.IsSpace(s[|s| - 1])
    ensures Text.Strip(s) == s
  {
    Text.RStripFixed(s);
  }

  /** A name is never taken for an `export`. */
  lemma NoExport(key: string, rest: string)
    requires ValidName(key)
    ensures !(EXPORT <= key + "=" + rest)
  {
    var line := key + "=" + rest;
    if 6 < |key| {
      assert line[6] == key[6] && EXPORT[6] == ' ';
    } else {
      assert line[|key|] == '=' && EXPORT[|key|] != '=';
    }
  }

  lemma BareAssignment(exported: bool, key: string, value: string)
    requires ValidName(key) && value != "" && !Text.IsSpace(value[|value| - 1])
    ensures
      var line := (if exported then EXPORT else "") + key + "=" + value;
      Text.Strip(line) == line && line[0] != '#' && Bare(line) == key + "=" + value
  {
    var text := key + "=" + value;
    assert text[0] == key[0] && text[|text| - 1] == value[|value| - 1];
    var line := (if exported then EXPORT else "") + key + "=" + value;
    assert line == (if exported then EXPORT else "") + text;
    assert line[0] == (if exported then 'e' else key[0]);
    StripFixed(line);
    if exported {
      assert line[|EXPORT|..] == text;
    } else {
      assert line == text;
      NoExport(key, value);
    }
  }

  /**
   * A value written between quotes is read back as it was written, whatever else it holds and whatever follows the
   * closing quote, and leaves no quote open.
   */
  lemma QuotedValueReadsBack(exported: bool, key: string, q: char, value: string, rest: string)
    requires ValidName(key) && q in {'"', '\''} && q !in value && (rest == "" || !Text.IsSpace(rest[|rest| - 1]))
    ensures
      ReadLine((if exported then EXPORT else "") + key + "=" + ([q] + value + [q] + rest))
      == LineRead(Some(Definition(key, value, false)), None)
  {
    var text := [q] + value + [q] + rest;
    assert text[|text| - 1] == (if rest == "" then q else rest[|rest| - 1]);
    ReadAssignment(exported, key, text);
    QuotedValue(q, value, rest);
  }

  lemma QuotedValue(q: char, value: string, rest: string)
    requires q in {'"', '\''} && q !in value
    ensures ValueOf([q] + value + [q] + rest) == (value, None)
  {
    var text := [q] + value + [q] + rest;
    assert text[1..] == value + [q] + rest;
    FindsFirst(value, q, rest);
    assert text[1..][..|value|] == value;
  }

  lemma SplitAtEquals(key: string, text: string)
    requires ValidName(key)
    ensures
      var bare := key + "=" + text;
      Find(bare, '=') == |key| < |bare| && bare[..|key|] == key && bare[|key| + 1..] == text
  {
    FindsFirst(key, '=', text);
    assert key + "=" + text == key + ['='] + text;
  }

  lemma ReadAssignment(exported: bool, key: string, text: string)
    requires ValidName(key) && text != "" && !Text.IsSpace(text[0]) && !Text.IsSpace(text[|text| - 1])
    ensures
      var (value, opens) := ValueOf(text);
      ReadLine((if exported then EXPORT else "") + key + "=" + text)
      == LineRead(Some(Definition(key, value, opens.Some?)), opens)
  {
    BareAssignment(exported, key, text);
    SplitAtEquals(key, text);
    StripFixed(text);
    StripFixed(key);
  }

  /** A bare value is read back up to its comment; one without a number sign is read back as it was written. */
  lemma BareValueReadsBack(exported: bool, key: string, value: string)
    requires ValidName(key) && value != "" && !Text.IsSpace(value[0]) && !Text.IsSpace(value[|value| - 1])
    requires value[0] !in {'"', '\''} && '#' !in value
    ensures
      ReadLine((if exported then EXPORT else "") + key + "=" + value)
      == LineRead(Some(Definition(key, value, false)), None)
  {
    ReadAssignment(exported, key, value);
    BareValue(value);
  }

  lemma BareValue(value: string)
    requires value != "" && !Text.IsSpace(value[|value| - 1]) && value[0] !in {'"', '\''} && '#' !in value
    ensures ValueOf(value) == (value, None)
  {
    FindExactly(value, '#');
    assert value[..|value|] == value;
    Text.RStripFixed(value);
  }

  lemma ValueBeforeComment(value: string, gap: string, comment: string, text: string)
    requires Text.Trimmed(value) && Text.AllSpace(gap) && (value == "" ==> gap == "")
    requires (value != "" ==> value[0] !in {'"', '\''}) && '#' !in value
    requires text == value + gap + "#" + comment
    ensures ValueOf(text) == (value, None)
  {
    FindsFirst(value + gap, '#', comment);
    assert text[0] == if value == "" then '#' else value[0];
    assert text[..|value + gap|] == value + gap;
    Text.RStripSpaces(value, gap);
    Text.RStripFixed(value);
  }

  /** A comment behind a bare value is left out, with the white space before it; where there is no value it is empty. */
  lemma CommentedValueReadsBack(exported: bool, key: string, value: string, gap: string, comment: string)
    requires ValidName(key) && Text.Trimmed(value) && Text.AllSpace(gap) && (value == "" ==> gap == "")
    requires (value != "" ==> value[0] !in {'"', '\''}) && '#' !in value
    requires comment == "" || !Text.IsSpace(comment[|comment| - 1])
    ensures
      ReadLine((if exported then EXPORT else "") + key + "=" + (value + gap + "#" + comment))
      == LineRead(Some(Definition(key, value, false)), None)
  {
    var text := value + gap + "#" + comment;
    assert text[0] == if value == "" then '#' else value[0];
    assert text[|text| - 1] == (if comment == "" then '#' else comment[|comment| - 1]);
    ReadAssignment(exported, key, text);
    ValueBeforeComment(value, gap, comment, text);
  }

  /** White space around a line, its name and its value is not part of either. */
  lemma SpacedAssignmentReadsBack(a: string, key: string, b: string, c: string, value: string, d: string)
    requires Text.AllSpace(a) && Text.AllSpace(b) && Text.AllSpace(c) && Text.AllSpace(d)
    requires ValidName(key) && (key == "export" ==> b == "")
    requires value != "" && Text.Trimmed(value) && value[0] !in {'"', '\''} && '#' !in value
    ensures ReadLine(a + (key + b + "=" + (c + value)) + d) == LineRead(Some(Definition(key, value, false)), None)
  {
    var bare := key + b + "=" + (c + value);
    assert bare[0] == key[0] && bare[|bare| - 1] == value[|value| - 1];
    Text.StripPadded(a, bare, d);
    NameIsNoExport(key, b, c + value, bare);
    SpacedParts(key, b, c, value, bare);
    BareValue(value);
    ReadParts(a + bare + d, bare, |key + b|, key, value);
  }

  lemma SpacedParts(key: string, b: string, c: string, value: string, bare: string)
    requires Text.AllSpace(b) && Text.AllSpace(c) && ValidName(key) && Text.Trimmed(value)
    requires bare == key + b + "=" + (c + value) && '=' !in key + b
    ensures Find(bare, '=') == |key + b| < |bare|
    ensures Text.Strip(bare[..|key + b|]) == key && Text.Strip(bare[|key + b| + 1..]) == value
  {
    AroundEquals(key + b, c + value, bare);
    StripSides(key, b, c, value);
  }

  lemma AroundEquals(name: string, text: string, bare: string)
    requires '=' !in name && bare == name + "=" + text
    ensures Find(bare, '=') == |name| < |bare| && bare[..|name|] == name && bare[|name| + 1..] == text
  {
    FindsFirst(name, '=', text);
  }

  lemma StripSides(key: string, b: string, c: string, value: string)
    requires Text.AllSpace(b) && Text.AllSpace(c) && Text.Trimmed(key) && Text.Trimmed(value)
    ensures Text.Strip(key + b) == key && Text.Strip(c + value) == value
  {
    Text.StripPadded([], key, b);
    Text.StripPadded(c, value, []);
    assert [] + key + b == key + b && c + value + [] == c + value;
  }

  lemma ReadParts(line: string, bare: string, at: nat, key: string, text: string)
    requires Text.Strip(line) == bare && !(EXPORT <= bare) && bare != "" && bare[0] != '#'
    requires Find(bare, '=') == at < |bare| && Text.Strip(bare[..at]) == key && Text.Strip(bare[at + 1..]) == text
    ensures
      var (value, opens) := ValueOf(text);
      ReadLine(line) == LineRead(Some(Definition(key, value, opens.Some?)), opens)
  {
  }

  /** An `export` in front of the name is not part of it, with as much white space behind it as there is. */
  lemma ExportIsDropped(space: string, key: string, value: string)
    requires Text.AllSpace(space) && ValidName(key)
    requires value != "" && Text.Trimmed(value) && value[0] !in {'"', '\''} && '#' !in value
    ensures ReadLine("export " + (space + (key + "=" + value))) == LineRead(Some(Definition(key, value, false)), None)
  {
    var bare := key + "=" + value;
    var line := EXPORT + (space + bare);
    assert bare[0] == key[0] && bare[|bare| - 1] == value[|value| - 1];
    assert line[0] == 'e' && line[|line| - 1] == value[|value| - 1] && line[|EXPORT|..] == space + bare;
    StripFixed(line);
    Text.LStripSpaces(space, bare);
    AroundEquals(key, value, bare);
    StripFixed(key);
    StripFixed(value);
    BareValue(value);
    assert Bare(line) == bare;
  }

  lemma NameIsNoExport(key: string, space: string, text: string, bare: string)
    requires ValidName(key) && Text.AllSpace(space) && (key == "export" ==> space == "")
    requires bare == key + space + "=" + text
    ensures !(EXPORT <= bare) && '=' !in key + space
  {
    if 6 < |key| {
      assert bare[6] == key[6] && EXPORT[6] == ' ';
    } else if |key| < 6 {
      assert bare[|key|] == (if space == "" then '=' else space[0]) && !Text.IsSpace(EXPORT[|key|]) && EXPORT[|key|] != '=';
    } else {
      assert bare[..6] == key && EXPORT[..6] == "export" && (space == "" ==> bare[6] == '=');
    }
  }

  /* ---- the definitions of a file ---- */

  /** The definitions that count, in order; behind a line that leaves a quote open nothing is read until it closes. */
  function Definitions(blocked: set<string>, lines: seq<string>, quote: Option<char>): seq<Definition> {
    if lines == [] then []
    else if quote.Some? then
      Definitions(blocked, lines[1..], if quote.value in lines[0] then None else quote)
    else
      var line := ReadLine(lines[0]);
      var rest := Definitions(blocked, lines[1..], line.opens);
      if line.definition.Some? && Counts(line.definition.value.key, blocked) then [line.definition.value] + rest else rest
  }

  function FirstOf(definitions: seq<Definition>, key: string): Option<string> {
    if definitions == [] then None
    else if definitions[0].key == key then Some(definitions[0].value)
    else FirstOf(definitions[1..], key)
  }

  /** The value a file gives a key: that of its first definition. */
  function FileValue(blocked: set<string>, lines: seq<string>, key: string): Option<string> {
    FirstOf(Definitions(blocked, lines, None), key)
  }

  /**
   * What a line defines counts when its name is not blocked and is made of the letters A to Z and a to z, digits and
   * underscores, with no digit in front (by their codes).
   */
  lemma OneLineCounts(blocked: set<string>, line: string, d: Definition)
    requires ReadLine(line) == LineRead(Some(d), None)
    ensures
      FileValue(blocked, [line], d.key) == if NameCodes(d.key) && d.key !in blocked then Some(d.value) else None
  {
    assert [line][1..] == [];
    assert Definitions(blocked, [line][1..], None) == [];
    ValidNameCodes(d.key);
  }

  predicate NameCodes(key: string) {
    && key != "" && !(48 <= key[0] as int <= 57)
    && forall i :: 0 <= i < |key| ==>
         65 <= key[i] as int <= 90 || 97 <= key[i] as int <= 122 || 48 <= key[i] as int <= 57 || key[i] as int == 95
  }

  lemma ValidNameCodes(key: string)
    ensures ValidName(key) <==> NameCodes(key)
  {
  }

  /** The value a list of files gives a key: that of the last file that defines it. */
  function LayeredValue(blocked: set<string>, files: seq<seq<string>>, key: string): Option<string> {
    if files == [] then None
    else
      var last := FileValue(blocked, files[|files| - 1], key);
      if last.Some? then last else LayeredValue(blocked, files[..|files| - 1], key)
  }

  /* ---- loading ---- */

  /**
   * The environment, the keys that came from a file, the keys this pass has written, and those this file has.
   */
  datatype State = State(env: map<string, string>, owned: set<string>, pass: set<string>, thisFile: set<string>)

  function Define(s: State, d: Definition, reload: bool): State {
    if d.key in s.thisFile then s
    else if d.key in s.pass then s.(env := s.env[d.key := d.value], thisFile := s.thisFile + {d.key})
    else if d.key !in s.env then
      State(s.env[d.key := d.value], s.owned + {d.key}, s.pass + {d.key}, s.thisFile + {d.key})
    else if reload && d.key in s.owned then
      s.(env := s.env[d.key := d.value], pass := s.pass + {d.key}, thisFile := s.thisFile + {d.key})
    else s
  }

  function DefineAll(s: State, definitions: seq<Definition>, reload: bool): State
    decreases |definitions|
  {
    if definitions == [] then s else DefineAll(Define(s, definitions[0], reload), definitions[1..], reload)
  }

  function Spanning(definitions: seq<Definition>): set<string> {
    if definitions == [] then {}
    else (if definitions[0].spans then {definitions[0].key} else {}) + Spanning(definitions[1..])
  }

  function LoadFile(blocked: set<string>, s: State, lines: seq<string>, reload: bool): State {
    DefineAll(s.(thisFile := {}), Definitions(blocked, lines, None), reload)
  }

  function LoadFiles(blocked: set<string>, s: State, files: seq<seq<string>>, reload: bool): State {
    if files == [] then s
    else LoadFile(blocked, LoadFiles(blocked, s, files[..|files| - 1], reload), files[|files| - 1], reload)
  }

  /** The keys whose value spans lines, in any of the files. */
  function SpanningKeys(blocked: set<string>, files: seq<seq<string>>): set<string> {
    if files == [] then {}
    else
      SpanningKeys(blocked, files[..|files| - 1])
      + Spanning(Definitions(blocked, files[|files| - 1], None))
  }

  class Environment {
    var env: map<string, string>
    var owned: set<string>

    constructor (process: map<string, string>)
      ensures env == process && owned == {}
    {
      env, owned := process, {};
    }

    /** `_parse_env_file` on the lines of one file; `pass` is what the pass has written so far. */
    method ParseEnvFile(lines: seq<string>, reload: bool, pass: set<string>, blocked: set<string>)
      returns (written: set<string>, multiline: set<string>)
      modifies this
      ensures
        var after := LoadFile(blocked, State(old(env), old(owned), pass, {}), lines, reload);
        env == after.env && owned == after.owned && written == after.pass
      ensures multiline == Spanning(Definitions(blocked, lines, None))
    {
      written, multiline := pass, {};
      var thisFile: set<string>, quote: Option<char> := {}, None;
      ghost var all := Definitions(blocked, lines, None);
      ghost var start := State(env, owned, pass, {});
      assert lines[0..] == lines;
      for n := 0 to |lines|
        invariant DefineAll(start, all, reload) ==
                  DefineAll(State(env, owned, written, thisFile), Definitions(blocked, lines[n..], quote), reload)
        invariant Spanning(all) == multiline + Spanning(Definitions(blocked, lines[n..], quote))
      {
        var raw := lines[n];
        DefinitionsStep(blocked, lines, n, quote);
        if quote.Some? {
          if quote.value in raw {
            quote := None;
          }
          continue;
        }
        var line := ReadLine(raw);
        quote := line.opens;
        if line.definition.None? || !Counts(line.definition.value.key, blocked) {
          continue;
        }
        var d := line.definition.value;
        ghost var rest := Definitions(blocked, lines[n + 1..], quote);
        DefineFirst(State(env, owned, written, thisFile), d, rest, reload, multiline);
        if d.spans {
          multiline := multiline + {d.key};
        }
        written, thisFile := SetFromFile(d, reload, written, thisFile);
      }
    }

    /** What one definition that counts does to the environment. */
    method SetFromFile(d: Definition, reload: bool, pass: set<string>, file: set<string>)
      returns (written: set<string>, thisFile: set<string>)
      modifies this
      ensures State(env, owned, written, thisFile) == Define(State(old(env), old(owned), pass, file), d, reload)
    {
      written, thisFile := pass, file;
      if d.key in thisFile {
        return;
      }
      if d.key in written {
        env := env[d.key := d.value];
        thisFile := thisFile + {d.key};
      } else if d.key !in env {
        env := env[d.key := d.value];
        owned := owned + {d.key};
        written := written + {d.key};
        thisFile := thisFile + {d.key};
      } else if reload && d.key in owned {
        env := env[d.key := d.value];
        written := written + {d.key};
        thisFile := thisFile + {d.key};
      }
    }

    /** `_load_user_env` on the files it finds, the main one first. */
    method LoadUserEnv(files: seq<seq<string>>, reload: bool, blocked: set<string>)
      returns (multiline: set<string>)
      modifies this
      ensures
        var after := LoadFiles(blocked, State(old(env), old(owned), {}, {}), files, reload);
        env == after.env && owned == after.owned
      ensures multiline == SpanningKeys(blocked, files)
    {
      var written: set<string> := {};
      multiline := {};
      for i := 0 to |files|
        invariant
          var after := LoadFiles(blocked, State(old(env), old(owned), {}, {}), files[..i], reload);
          env == after.env && owned == after.owned && written == after.pass
        invariant multiline == SpanningKeys(blocked, files[..i])
      {
        assert files[..i + 1][..i] == files[..i];
        var spanning;
        written, spanning := ParseEnvFile(files[i], reload, written, blocked);
        multiline := multiline + spanning;
      }
      assert files[..|files|] == files;
    }
  }

  /** What one line adds to the definitions of the lines behind it. */
  lemma DefinitionsStep(blocked: set<string>, lines: seq<string>, n: nat, quote: Option<char>)
    requires n < |lines|
    ensures
      Definitions(blocked, lines[n..], quote) ==
      if quote.Some? then Definitions(blocked, lines[n + 1..], if quote.value in lines[n] then None else quote)
      else
        var line := ReadLine(lines[n]);
        var rest := Definitions(blocked, lines[n + 1..], line.opens);
        if line.definition.Some? && Counts(line.definition.value.key, blocked) then [line.definition.value] + rest
        else rest
  {
    assert lines[n..][1..] == lines[n + 1..] && lines[n..][0] == lines[n];
  }

  lemma DefineFirst(s: State, d: Definition, rest: seq<Definition>, reload: bool, multiline: set<string>)
    ensures DefineAll(s, [d] + rest, reload) == DefineAll(Define(s, d, reload), rest, reload)
    ensures multiline + Spanning([d] + rest) == (if d.spans then multiline + {d.key} else multiline) + Spanning(rest)
  {
    assert ([d] + rest)[1..] == rest;
    assert multiline + ({d.key} + Spanning(rest)) == multiline + {d.key} + Spanning(rest);
  }

  /* ---- what a pass does to one key ---- */

  /** A file may set the key: the pass has set it, nothing has, or a reload meets a value that came from a file. */
  predicate Writable(s: State, key: string, reload: bool) {
    key in s.pass || key !in s.env || (reload && key in s.owned)
  }

  /** The key stands in both states alike. */
  predicate SameFor(s: State, t: State, key: string) {
    && (key in t.env <==> key in s.env) && (key in s.env ==> t.env[key] == s.env[key])
    && (key in t.owned <==> key in s.owned) && (key in t.pass <==> key in s.pass)
  }

  /** The key was set to the value, and came from a file unless it was there already. */
  predicate SetTo(s: State, t: State, key: string, value: string) {
    && key in t.env && t.env[key] == value && key in t.pass
    && (key in t.owned <==> key in s.owned || (key !in s.env && key !in s.pass))
  }

  lemma {:induction false} DefinedOnce(s: State, definitions: seq<Definition>, key: string, reload: bool)
    ensures
      var t := DefineAll(s, definitions, reload);
      var first := FirstOf(definitions, key);
      if key in s.thisFile || first.None? || !Writable(s, key, reload) then SameFor(s, t, key)
      else SetTo(s, t, key, first.value)
    decreases |definitions|
  {
    if definitions != [] {
      DefinedOnce(Define(s, definitions[0], reload), definitions[1..], key, reload);
    }
  }

  /** One file sets a key to its first definition there, if it may, and leaves every other key alone. */
  lemma FileSets(blocked: set<string>, s: State, lines: seq<string>, key: string, reload: bool)
    ensures
      var t := LoadFile(blocked, s, lines, reload);
      var value := FileValue(blocked, lines, key);
      if value.Some? && Writable(s, key, reload) then SetTo(s, t, key, value.value) else SameFor(s, t, key)
  {
    DefinedOnce(s.(thisFile := {}), Definitions(blocked, lines, None), key, reload);
  }

  /** What a pass over files makes of one key. */
  lemma {:induction false} FilesSet(
    blocked: set<string>, s: State, files: seq<seq<string>>, key: string, reload: bool)
    requires s.pass == {}
    ensures
      var t := LoadFiles(blocked, s, files, reload);
      var value := LayeredValue(blocked, files, key);
      if value.Some? && Writable(s, key, reload) then SetTo(s, t, key, value.value) else SameFor(s, t, key)
  {
    if files != [] {
      var front, last := files[..|files| - 1], files[|files| - 1];
      FilesSet(blocked, s, front, key, reload);
      FileSets(blocked, LoadFiles(blocked, s, front, reload), last, key, reload);
    }
  }

  /** The state before a pass. */
  function Fresh(env: map<string, string>, owned: set<string>): State {
    State(env, owned, {}, {})
  }

  function FirstLoad(blocked: set<string>, process: map<string, string>, files: seq<seq<string>>): State {
    LoadFiles(blocked, Fresh(process, {}), files, false)
  }

  /** The environment after the first load and any number of reloads, each of the files as they then are. */
  function Loaded(
    blocked: set<string>, process: map<string, string>, files: seq<seq<string>>,
    edits: seq<seq<seq<string>>>): State
  {
    if edits == [] then FirstLoad(blocked, process, files)
    else
      var before := Loaded(blocked, process, files, edits[..|edits| - 1]);
      LoadFiles(blocked, Fresh(before.env, before.owned), edits[|edits| - 1], true)
  }

  /** The value files give a key, the last list of files first that gives it one. */
  function LatestValue(
    blocked: set<string>, files: seq<seq<string>>, edits: seq<seq<seq<string>>>, key: string): Option<string>
  {
    if edits == [] then LayeredValue(blocked, files, key)
    else
      var value := LayeredValue(blocked, edits[|edits| - 1], key);
      if value.Some? then value else LatestValue(blocked, files, edits[..|edits| - 1], key)
  }

  /**
   * After the first load and any reloads: a key of the process has the process's value and is never taken for one
   * from a file; every other key has the value the latest files to define it give it, and is absent when none did.
   */
  lemma {:induction false} PrecedenceHolds(
    blocked: set<string>, process: map<string, string>, files: seq<seq<string>>,
    edits: seq<seq<seq<string>>>, key: string)
    ensures
      var t := Loaded(blocked, process, files, edits);
      var value := LatestValue(blocked, files, edits, key);
      if key in process then key in t.env && t.env[key] == process[key] && key !in t.owned
      else if value.Some? then key in t.env && t.env[key] == value.value && key in t.owned
      else key !in t.env && key !in t.owned
  {
    if edits == [] {
      FilesSet(blocked, Fresh(process, {}), files, key, false);
    } else {
      var front := edits[..|edits| - 1];
      var before := Loaded(blocked, process, files, front);
      PrecedenceHolds(blocked, process, files, front, key);
      FilesSet(blocked, Fresh(before.env, before.owned), edits[|edits| - 1], key, true);
    }
  }

  /**
   * After a first load and any reloads, one more reload gives a key what a first load of the edited files would give
   * it, exactly unless the key is gone from the files: then the reload keeps its old value.
   */
  lemma ReloadIsLikeAFirstLoadExactly(
    blocked: set<string>, process: map<string, string>, files: seq<seq<string>>, edits: seq<seq<seq<string>>>,
    edited: seq<seq<string>>, key: string)
    ensures
      var reloaded := Loaded(blocked, process, files, edits + [edited]);
      var first := FirstLoad(blocked, process, edited);
      SameFor(reloaded.(pass := {}), first.(pass := {}), key) <==>
      || key in process || LayeredValue(blocked, edited, key).Some?
      || LatestValue(blocked, files, edits, key).None?
  {
    assert (edits + [edited])[..|edits|] == edits;
    assert LatestValue(blocked, files, edits + [edited], key) ==
      if LayeredValue(blocked, edited, key).Some? then LayeredValue(blocked, edited, key)
      else LatestValue(blocked, files, edits, key);
    PrecedenceHolds(blocked, process, files, edits + [edited], key);
    PrecedenceHolds(blocked, process, edited, [], key);
  }

  /** A key that is blocked, or is no name, is never set. */
  lemma {:induction false} BlockedIsNeverDefined(
    blocked: set<string>, lines: seq<string>, quote: Option<char>, key: string)
    requires !Counts(key, blocked)
    ensures FirstOf(Definitions(blocked, lines, quote), key) == None
  {
    if lines != [] {
      if quote.Some? {
        BlockedIsNeverDefined(blocked, lines[1..], if quote.value in lines[0] then None else quote, key);
      } else {
        var line := ReadLine(lines[0]);
        BlockedIsNeverDefined(blocked, lines[1..], line.opens, key);
        if line.definition.Some? && Counts(line.definition.value.key, blocked) {
          var rest := Definitions(blocked, lines[1..], line.opens);
          assert ([line.definition.value] + rest)[1..] == rest;
        }
      }
    }
  }

  /** Lines inside an open quote define nothing, whatever they look like, up to the line that closes it. */
  lemma {:induction false} QuotedLinesDefineNothing(
    blocked: set<string>, lines: seq<string>, quote: char, count: nat)
    requires count <= |lines| && forall line :: line in lines[..count] ==> quote !in line
    ensures Definitions(blocked, lines, Some(quote)) == Definitions(blocked, lines[count..], Some(quote))
    ensures count < |lines| && quote in lines[count] ==>
              Definitions(blocked, lines, Some(quote)) == Definitions(blocked, lines[count + 1..], None)
  {
    if count > 0 {
      assert lines[..count][0] == lines[0];
      assert lines[..count][1..] == lines[1..][..count - 1];
      assert lines[1..][count - 1..] == lines[count..];
      if count < |lines| {
        assert lines[1..][count..] == lines[count + 1..];
      }
      QuotedLinesDefineNothing(blocked, lines[1..], quote, count - 1);
    } else {
      assert lines[0..] == lines;
    }
  }

  lemma QuotedTail(blocked: set<string>, lines: seq<string>, quote: char, count: nat)
    requires count < |lines| && forall line :: line in lines[1..count + 1] ==> quote !in line
    requires count + 1 < |lines| ==> quote in lines[count + 1]
    ensures Definitions(blocked, lines[1..], Some(quote)) ==
            if count + 1 < |lines| then Definitions(blocked, lines[count + 2..], None) else []
  {
    assert lines[1..count + 1] == lines[1..][..count];
    QuotedLinesDefineNothing(blocked, lines[1..], quote, count);
    if count + 1 < |lines| {
      assert lines[1..][count] == lines[count + 1] && lines[1..][count + 1..] == lines[count + 2..];
    } else {
      assert lines[1..][count..] == [];
    }
  }

  /**
   * From the line that opens a quote on: that line may define its own key, the lines up to the first one that
   * holds the quote define nothing, and that one neither; a quote that is never closed swallows the rest.
   */
  lemma OpenedQuoteSwallows(blocked: set<string>, lines: seq<string>, quote: char, count: nat)
    requires lines != [] && ReadLine(lines[0]).opens == Some(quote)
    requires count < |lines| && forall line :: line in lines[1..count + 1] ==> quote !in line
    requires count + 1 < |lines| ==> quote in lines[count + 1]
    ensures
      var d := ReadLine(lines[0]).definition;
      d.Some? &&
      Definitions(blocked, lines, None) ==
      (if Counts(d.value.key, blocked) then [d.value] else []) +
      (if count + 1 < |lines| then Definitions(blocked, lines[count + 2..], None) else [])
  {
    QuoteOpensExactly(lines[0], quote);
    QuotedTail(blocked, lines, quote, count);
  }
}
