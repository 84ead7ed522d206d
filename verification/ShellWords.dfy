/** Quoting a word for the shell and splitting a line into words. */
module ShellWords {
  // As Python's shlex does in its POSIX mode without comments (section 2.2 of the POSIX Shell Command Language).
  // `QuotedExportReadsBack` is the round trip.

  import opened Wrappers

  predicate IsSafe(c: char) {
    || 'a' <= c <= 'z' || 'A' <= c <= 'Z' || '0' <= c <= '9'
    || c in {'_', '@', '%', '+', '=', ':', ',', '.', '/', '-'}
  }

  predicate AllSafe(s: string) {
    forall i :: 0 <= i < |s| ==> IsSafe(s[i])
  }

  /** Every single quote becomes a quote closed, a double quoted quote, and a quote opened. */
  function Escape(s: string): string {
    if s == [] then ""
    else (if s[0] == '\'' then "'\"'\"'" else [s[0]]) + Escape(s[1..])
  }

  /** shlex.quote */
  function Quote(s: string): string {
    if s == [] then "''"
    else if AllSafe(s) then s
    else "'" + Escape(s) + "'"
  }

  datatype State = Between | InWord | InQuote(quote: char) | Escaping(back: State)

  predicate IsBlank(c: char) {
    c in {' ', '\t', '\r', '\n'}
  }

  predicate IsQuote(c: char) {
    c == '\'' || c == '"'
  }

  /** The words of `s` behind a started word; None is shlex's error for a missing quote or escaped character. */
  function Scan(s: string, state: State, word: string, quoted: bool): Option<seq<string>> {
    if s == [] then
      match state
      case Between => Some([])
      case InWord => Some(if word != [] || quoted then [word] else [])
      case _ => None
    else
      var c, rest := s[0], s[1..];
      match state
      case Between =>
        if IsBlank(c) then Scan(rest, Between, [], false)
        else if c == '\\' then Scan(rest, Escaping(InWord), [], false)
        else if IsQuote(c) then Scan(rest, InQuote(c), [], true)
        else Scan(rest, InWord, [c], false)
      case InWord =>
        if IsBlank(c) then
          var more := Scan(rest, Between, [], false);
          if more.None? then None
          else Some((if word != [] || quoted then [word] else []) + more.value)
        else if c == '\\' then Scan(rest, Escaping(InWord), word, quoted)
        else if IsQuote(c) then Scan(rest, InQuote(c), word, true)
        else Scan(rest, InWord, word + [c], quoted)
      case InQuote(q) =>
        if c == q then Scan(rest, InWord, word, quoted)
        else if c == '\\' && q == '"' then Scan(rest, Escaping(state), word, quoted)
        else Scan(rest, state, word + [c], quoted)
      case Escaping(back) =>
        var kept := if back.InQuote? && c != '\\' && c != back.quote then "\\" else "";
        Scan(rest, back, word + kept + [c], quoted)
  }

  /** shlex.split */
  function Split(s: string): Option<seq<string>> {
    Scan(s, Between, [], false)
  }

  predicate IsPlain(c: char) {
    !IsBlank(c) && !IsQuote(c) && c != '\\'
  }

  predicate AllPlain(s: string) {
    forall i :: 0 <= i < |s| ==> IsPlain(s[i])
  }

  lemma {:induction false} ScanPlain(s: string, rest: string, word: string, quoted: bool)
    requires AllPlain(s)
    ensures Scan(s + rest, InWord, word, quoted) == Scan(rest, InWord, word + s, quoted)
  {
    if s == [] {
      assert s + rest == rest && word + s == word;
    } else {
      assert (s + rest)[1..] == s[1..] + rest;
      assert word + [s[0]] + s[1..] == word + s;
      ScanPlain(s[1..], rest, word + [s[0]], quoted);
    }
  }

  /** Inside single quotes an escaped text is read as the text. */
  lemma {:induction false} ScanEscaped(s: string, rest: string, word: string)
    ensures Scan(Escape(s) + "'" + rest, InQuote('\''), word, true) == Scan(rest, InWord, word + s, true)
  {
    if s == [] {
      assert Escape(s) + "'" + rest == "'" + rest;
      assert ("'" + rest)[1..] == rest;
      assert word + s == word;
    } else {
      var tail := Escape(s[1..]) + "'" + rest;
      assert word + [s[0]] + s[1..] == word + s;
      ScanEscaped(s[1..], rest, word + [s[0]]);
      if s[0] == '\'' {
        assert Escape(s) + "'" + rest == "'\"'\"'" + tail;
        ScanQuotedQuote(tail, word);
      } else {
        assert Escape(s) + "'" + rest == [s[0]] + tail;
        assert ([s[0]] + tail)[1..] == tail;
      }
    }
  }

  lemma ScanQuotedQuote(tail: string, word: string)
    ensures Scan("'\"'\"'" + tail, InQuote('\''), word, true) == Scan(tail, InQuote('\''), word + "'", true)
  {
    var s := "'\"'\"'" + tail;
    assert s[1..] == "\"'\"'" + tail;
    assert s[1..][1..] == "'\"'" + tail;
    assert s[1..][1..][1..] == "\"'" + tail;
    assert s[1..][1..][1..][1..] == "'" + tail;
    assert s[1..][1..][1..][1..][1..] == tail;
    calc {
      Scan(s, InQuote('\''), word, true);
      Scan("\"'\"'" + tail, InWord, word, true);
      Scan("'\"'" + tail, InQuote('"'), word, true);
      Scan("\"'" + tail, InQuote('"'), word + "'", true);
      Scan("'" + tail, InWord, word + "'", true);
      Scan(tail, InQuote('\''), word + "'", true);
    }
  }

  lemma ScanEscapedWord(value: string, word: string)
    requires word != []
    ensures Scan("'" + Escape(value) + "'", InWord, word, false) == Some([word + value])
  {
    var s := "'" + Escape(value) + "'";
    assert s[1..] == Escape(value) + "'" + "";
    ScanEscaped(value, "", word);
  }

  /** A quoted text, read at the end of a started word, adds exactly the text to the word. */
  lemma ScanQuoted(value: string, word: string)
    requires word != []
    ensures Scan(Quote(value), InWord, word, false) == Some([word + value])
  {
    if value != [] && AllSafe(value) {
      assert value + "" == value;
      ScanPlain(value, "", word, false);
    } else {
      ScanEscapedWord(value, word);
    }
  }

  /** An `export` line written with a quoted value is two words, the second the name and the value itself. */
  lemma QuotedExportReadsBack(name: string, value: string)
    requires AllPlain(name) && name != []
    ensures Split("export " + name + "=" + Quote(value)) == Some(["export", name + "=" + value])
  {
    var tail := name + "=" + Quote(value);
    assert "export " + name + "=" + Quote(value) == "export" + (" " + tail);
    ScanWord("export", " " + tail);
    assert (" " + tail)[1..] == tail;
    ScanAssignment(name + "=", value);
    assert ["export"] + [name + "=" + value] == ["export", name + "=" + value];
  }

  lemma ScanWord(s: string, rest: string)
    requires AllPlain(s) && s != []
    ensures Scan(s + rest, Between, [], false) == Scan(rest, InWord, s, false)
  {
    assert (s + rest)[1..] == s[1..] + rest;
    ScanPlain(s[1..], rest, [s[0]], false);
    assert [s[0]] + s[1..] == s;
  }

  lemma ScanAssignment(target: string, value: string)
    requires AllPlain(target) && target != []
    ensures Scan(target + Quote(value), Between, [], false) == Some([target + value])
  {
    ScanWord(target, Quote(value));
    ScanQuoted(value, target);
  }

  lemma {:induction false} ScanInQuotes(s: string, rest: string, word: string)
    requires AllPlain(s)
    ensures Scan(s + rest, InQuote('"'), word, true) == Scan(rest, InQuote('"'), word + s, true)
  {
    if s == [] {
      assert s + rest == rest && word + s == word;
    } else {
      assert (s + rest)[1..] == s[1..] + rest;
      assert word + [s[0]] + s[1..] == word + s;
      ScanInQuotes(s[1..], rest, word + [s[0]]);
    }
  }

  /** The shell does not tell an assignment in double quotes from one without. */
  lemma DoubleQuotedExportReads(text: string)
    requires AllPlain(text) && text != []
    ensures Split("export \"" + text + "\"") == Some(["export", text])
  {
    var tail := "\"" + text + "\"";
    assert "export \"" + text + "\"" == "export" + (" " + tail);
    ScanWord("export", " " + tail);
    assert (" " + tail)[1..] == tail;
    assert tail[1..] == text + "\"";
    ScanInQuotes(text, "\"", "");
    assert "" + text == text && "\""[1..] == "";
    assert ["export"] + [text] == ["export", text];
  }

  lemma {:induction false} EscapeIsNoShorter(s: string)
    ensures |Escape(s)| >= |s|
  {
    if s != [] {
      EscapeIsNoShorter(s[1..]);
    }
  }

  /** A text is left without quotes exactly when it is made of letters, digits and ten other characters (by their codes). */
  lemma UnquotedExactly(s: string)
    ensures Quote(s) == s <==>
            s != "" && forall i :: 0 <= i < |s| ==>
              || 48 <= s[i] as int <= 57 || 65 <= s[i] as int <= 90 || 97 <= s[i] as int <= 122
              || s[i] as int in [95, 64, 37, 43, 61, 58, 44, 46, 47, 45]
  {
    EscapeIsNoShorter(s);
    SafeCodes(s);
  }

  lemma SafeCodes(s: string)
    ensures AllSafe(s) <==> forall i :: 0 <= i < |s| ==>
              || 48 <= s[i] as int <= 57 || 65 <= s[i] as int <= 90 || 97 <= s[i] as int <= 122
              || s[i] as int in [95, 64, 37, 43, 61, 58, 44, 46, 47, 45]
  {
    forall i | 0 <= i < |s|
      ensures IsSafe(s[i]) <==>
              || 48 <= s[i] as int <= 57 || 65 <= s[i] as int <= 90 || 97 <= s[i] as int <= 122
              || s[i] as int in [95, 64, 37, 43, 61, 58, 44, 46, 47, 45]
    {
      SafeCode(s[i]);
    }
  }

  lemma SafeCode(c: char)
    ensures IsSafe(c) <==>
            || 48 <= c as int <= 57 || 65 <= c as int <= 90 || 97 <= c as int <= 122
            || c as int in [95, 64, 37, 43, 61, 58, 44, 46, 47, 45]
  {
  }

  /** A text for double quotes: a backslash in front of each double quote and each backslash. */
  function Backslashed(s: string): string {
    if s == [] then "" else (if s[0] == '"' || s[0] == '\\' then ['\\', s[0]] else [s[0]]) + Backslashed(s[1..])
  }

  lemma TwoTaken(a: char, b: char, rest: string)
    ensures ([a, b] + rest)[0] == a && ([a, b] + rest)[1..] == [b] + rest && ([b] + rest)[1..] == rest
  {
    assert ([a, b] + rest)[1..] == [b] + rest;
  }

  /** Between double quotes a backslash stays in front of every other character; outside of quotes it never stays. */
  lemma BackslashIn(c: char, rest: string, word: string)
    ensures
      Scan(['\\', c] + rest, InQuote('"'), word, true) ==
      Scan(rest, InQuote('"'), if c == '"' || c == '\\' then word + [c] else word + ['\\', c], true)
    ensures Scan(['\\', c] + rest, InWord, word, true) == Scan(rest, InWord, word + [c], true)
  {
    var s := ['\\', c] + rest;
    TwoTaken('\\', c, rest);
    assert Scan(s, InQuote('"'), word, true) == Scan([c] + rest, Escaping(InQuote('"')), word, true);
    assert Scan(s, InWord, word, true) == Scan([c] + rest, Escaping(InWord), word, true);
    assert word + "" + [c] == word + [c] && word + "\\" + [c] == word + ['\\', c];
  }

  lemma {:induction false} ScanBackslashed(s: string, rest: string, word: string)
    ensures Scan(Backslashed(s) + ("\"" + rest), InQuote('"'), word, true) == Scan(rest, InWord, word + s, true)
  {
    if s == [] {
      assert Backslashed(s) + ("\"" + rest) == ['"'] + rest && (['"'] + rest)[1..] == rest && word + s == word;
    } else {
      var tail := Backslashed(s[1..]) + ("\"" + rest);
      assert word + [s[0]] + s[1..] == word + s;
      ScanBackslashed(s[1..], rest, word + [s[0]]);
      BackslashedFirst(s, "\"" + rest, tail);
      if s[0] == '"' || s[0] == '\\' {
        BackslashIn(s[0], tail, word);
      } else {
        assert ([s[0]] + tail)[1..] == tail;
      }
    }
  }

  lemma BackslashedFirst(s: string, behind: string, tail: string)
    requires s != "" && tail == Backslashed(s[1..]) + behind
    ensures Backslashed(s) + behind == (if s[0] == '"' || s[0] == '\\' then ['\\', s[0]] else [s[0]]) + tail
  {
  }

  /** Any text is read back from double quotes in which it was written so. */
  lemma DoubleQuotedReadsBack(s: string)
    ensures Split("\"" + Backslashed(s) + "\"") == Some([s])
  {
    var line := "\"" + Backslashed(s) + "\"";
    assert line[1..] == Backslashed(s) + ("\"" + "");
    ScanBackslashed(s, "", "");
    assert "" + s == s;
  }
}
