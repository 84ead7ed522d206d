/** Python's str.splitlines(keepends=True), and what it makes of lines that are joined again. */
module PythonLines {

  predicate IsBreak(c: char) {
    '\n' <= c <= '\r' || '\U{1c}' <= c <= '\U{1e}' || c in {'\U{85}', '\U{2028}', '\U{2029}'}
  }

  /** Where the first line of the text ends; a carriage return and a line feed end a line together. */
  function LineEnd(text: string): (n: nat)
    requires text != []
    ensures 0 < n <= |text|
  {
    if IsBreak(text[0]) then if text[0] == '\r' && 2 <= |text| && text[1] == '\n' then 2 else 1
    else if |text| == 1 then 1
    else 1 + LineEnd(text[1..])
  }

  function SplitLines(text: string): seq<string> {
    if text == [] then []
    else
      var n := LineEnd(text);
      [text[..n]] + SplitLines(text[n..])
  }

  function JoinLines(lines: seq<string>): string {
    if lines == [] then "" else lines[0] + JoinLines(lines[1..])
  }

  lemma {:induction false} JoinSplit(text: string)
    ensures JoinLines(SplitLines(text)) == text
  {
    if text != [] {
      JoinSplit(text[LineEnd(text)..]);
    }
  }

  lemma {:induction false} JoinBoth(a: seq<string>, b: seq<string>)
    ensures JoinLines(a + b) == JoinLines(a) + JoinLines(b)
  {
    if a == [] {
      assert a + b == b;
    } else {
      assert (a + b)[1..] == a[1..] + b;
      JoinBoth(a[1..], b);
      assert a[0] + (JoinLines(a[1..]) + JoinLines(b)) == a[0] + JoinLines(a[1..]) + JoinLines(b);
    }
  }

  predicate Unbroken(s: string) {
    forall i :: 0 <= i < |s| ==> !IsBreak(s[i])
  }

  /** One line: its first line is all of it. */
  predicate OneLine(line: string) {
    line != [] && LineEnd(line) == |line|
  }

  /** It has its line end. */
  predicate Ended(line: string) {
    line != [] && IsBreak(line[|line| - 1])
  }

  predicate AllOneLine(lines: seq<string>) {
    forall line :: line in lines ==> OneLine(line)
  }

  predicate AllEnded(lines: seq<string>) {
    forall line :: line in lines ==> Ended(line)
  }

  /** Only the last line may lack its end. */
  predicate WholeLines(lines: seq<string>) {
    AllOneLine(lines) && (lines != [] ==> AllEnded(lines[..|lines| - 1]))
  }

  /** Two lines that are one when they stand behind each other. */
  predicate Pair(a: string, b: string) {
    a != [] && a[|a| - 1] == '\r' && b == "\n"
  }

  predicate NoPairs(lines: seq<string>) {
    forall i, j :: 0 <= i < |lines| && j == i + 1 < |lines| ==> !Pair(lines[i], lines[j])
  }

  /** The lines with all pairs made one. */
  function Mend(lines: seq<string>): seq<string> {
    if |lines| < 2 then lines
    else if Pair(lines[0], lines[1]) then [lines[0] + "\n"] + Mend(lines[2..])
    else [lines[0]] + Mend(lines[1..])
  }

  lemma {:induction false} LineReadBack(line: string, rest: string)
    requires OneLine(line) && (Ended(line) || rest == [])
    ensures LineEnd(line + rest) ==
            if line[|line| - 1] == '\r' && rest != [] && rest[0] == '\n' then |line| + 1 else |line|
  {
    var text := line + rest;
    if rest == [] {
      assert text == line;
    } else if !IsBreak(line[0]) && 1 < |line| {
      assert text[1..] == line[1..] + rest;
      assert line[1..][|line[1..]| - 1] == line[|line| - 1];
      LineReadBack(line[1..], rest);
    }
  }

  lemma FirstOfOne(line: string)
    requires OneLine(line) && line[0] == '\n'
    ensures line == "\n"
  {
  }

  /** Joined and split again, lines come back but for the pairs among them. */
  lemma {:induction false} SplitJoin(lines: seq<string>)
    requires WholeLines(lines)
    ensures SplitLines(JoinLines(lines)) == Mend(lines)
    decreases |lines|
  {
    if lines != [] {
      WholeTail(lines, 1);
      if 2 <= |lines| {
        assert lines[..|lines| - 1][0] == lines[0] && lines[0] in lines && lines[1] in lines;
        JoinTwo(lines);
        if Pair(lines[0], lines[1]) {
          WholeTail(lines, 2);
          SplitFirst(lines[0], "\n" + JoinLines(lines[2..]), lines[0] + "\n", JoinLines(lines[2..]));
          SplitJoin(lines[2..]);
        } else {
          FirstOfSecond(lines);
          SplitFirst(lines[0], JoinLines(lines[1..]), lines[0], JoinLines(lines[1..]));
          SplitJoin(lines[1..]);
        }
      } else {
        assert lines[0] + "" == lines[0];
        SplitFirst(lines[0], "", lines[0], "");
        assert JoinLines(lines[1..]) == "";
      }
    }
  }

  lemma WholeTail(lines: seq<string>, k: nat)
    requires WholeLines(lines) && k <= |lines|
    ensures WholeLines(lines[k..])
  {
    if k < |lines| {
      assert lines[k..][..|lines| - k - 1] == lines[..|lines| - 1][k..];
    }
  }

  lemma JoinTwo(lines: seq<string>)
    requires 2 <= |lines|
    ensures JoinLines(lines) == lines[0] + JoinLines(lines[1..])
    ensures JoinLines(lines[1..]) == lines[1] + JoinLines(lines[2..])
  {
    assert lines[1..][1..] == lines[2..];
  }

  lemma FirstOfSecond(lines: seq<string>)
    requires 2 <= |lines| && OneLine(lines[1]) && !Pair(lines[0], lines[1]) && lines[0] != []
    ensures
      var rest := JoinLines(lines[1..]);
      !(lines[0][|lines[0]| - 1] == '\r' && rest != [] && rest[0] == '\n')
  {
    assert JoinLines(lines[1..])[0] == lines[1][0];
    if lines[1][0] == '\n' {
      FirstOfOne(lines[1]);
    }
  }

  lemma SplitFirst(line: string, rest: string, first: string, behind: string)
    requires OneLine(line) && (Ended(line) || rest == []) && line + rest == first + behind
    requires |first| == if line[|line| - 1] == '\r' && rest != [] && rest[0] == '\n' then |line| + 1 else |line|
    ensures SplitLines(line + rest) == [first] + SplitLines(behind)
  {
    LineReadBack(line, rest);
    var text := line + rest;
    assert text[..|first|] == first && text[|first|..] == behind;
  }

  lemma {:induction false} FirstLineIsOne(text: string)
    requires text != []
    ensures
      var n := LineEnd(text);
      && OneLine(text[..n]) && (n < |text| ==> Ended(text[..n]))
      && (n < |text| && text[n - 1] == '\r' ==> text[n] != '\n')
  {
    var n := LineEnd(text);
    if !IsBreak(text[0]) && 1 < |text| {
      FirstLineIsOne(text[1..]);
      var tail := text[1..][..n - 1];
      assert text[..n] == [text[0]] + tail;
      assert text[..n][1..] == tail;
    }
  }

  /** What splitting gives: whole lines without a pair among them. */
  lemma {:induction false} SplitIsWhole(text: string)
    ensures WholeLines(SplitLines(text)) && NoPairs(SplitLines(text))
    ensures text != [] ==> SplitLines(text) != [] && SplitLines(text)[0] != [] && SplitLines(text)[0][0] == text[0]
  {
    if text != [] {
      var n := LineEnd(text);
      FirstLineIsOne(text);
      SplitIsWhole(text[n..]);
      OneMoreWhole(text[..n], SplitLines(text[n..]));
    }
  }

  lemma OneMoreWhole(line: string, rest: seq<string>)
    requires OneLine(line) && WholeLines(rest) && NoPairs(rest)
    requires rest != [] ==> Ended(line) && rest[0] != [] && (line[|line| - 1] == '\r' ==> rest[0][0] != '\n')
    ensures WholeLines([line] + rest) && NoPairs([line] + rest)
  {
    var all := [line] + rest;
    if rest != [] {
      assert all[..|all| - 1] == [line] + rest[..|rest| - 1];
    } else {
      assert all[..|all| - 1] == [];
    }
  }

  lemma {:induction false} NothingToMend(lines: seq<string>)
    requires NoPairs(lines)
    ensures Mend(lines) == lines
  {
    if 2 <= |lines| {
      assert !Pair(lines[0], lines[1]);
      NothingToMend(lines[1..]);
    }
  }

  /** Pieces can be mended one by one when no pair stands at the cut. */
  lemma {:induction false} MendJoin(a: seq<string>, b: seq<string>)
    requires a != [] && b != [] ==> !Pair(a[|a| - 1], b[0])
    ensures Mend(a + b) == Mend(a) + Mend(b)
    decreases |a|
  {
    if a == [] {
      assert a + b == b;
    } else if b == [] {
      assert a + b == a;
    } else if |a| == 1 {
      assert (a + b)[1..] == b;
    } else {
      var k := if Pair(a[0], a[1]) then 2 else 1;
      MendJoin(a[k..], b);
      MendAhead(a, k);
      TailOfBoth(a, b, k);
      MendAhead(a + b, k);
      Associative([if k == 2 then a[0] + "\n" else a[0]], Mend(a[k..]), Mend(b));
    }
  }

  /** One step of mending. */
  lemma MendAhead(lines: seq<string>, k: nat)
    requires 2 <= |lines| && k == if Pair(lines[0], lines[1]) then 2 else 1
    ensures Mend(lines) == [if k == 2 then lines[0] + "\n" else lines[0]] + Mend(lines[k..])
  {
  }

  lemma TailOfBoth(a: seq<string>, b: seq<string>, k: nat)
    requires k <= |a| && 2 <= |a|
    ensures (a + b)[k..] == a[k..] + b && (a + b)[0] == a[0] && (a + b)[1] == a[1]
  {
  }

  lemma Associative(a: seq<string>, b: seq<string>, c: seq<string>)
    ensures a + (b + c) == a + b + c
  {
  }

  lemma {:induction false} UnbrokenLine(s: string)
    requires Unbroken(s)
    ensures OneLine(s + "\n") && Ended(s + "\n")
  {
    if s != [] {
      assert (s + "\n")[1..] == s[1..] + "\n";
      UnbrokenLine(s[1..]);
    }
  }

  /** A line without an end of its own gets one; a carriage return at its end is completed. */
  lemma {:induction false} LineCompleted(line: string)
    requires OneLine(line) && (Ended(line) ==> line[|line| - 1] == '\r')
    ensures OneLine(line + "\n") && Ended(line + "\n")
  {
    if !IsBreak(line[0]) && 1 < |line| {
      assert (line + "\n")[1..] == line[1..] + "\n";
      LineCompleted(line[1..]);
    } else if !IsBreak(line[0]) {
      UnbrokenLine(line);
    }
  }

  /** What ends a line, by its code points. */
  lemma BreakCodes(c: char)
    ensures IsBreak(c) <==> 10 <= c as int <= 13 || 28 <= c as int <= 30 || c as int in [133, 8232, 8233]
  {
  }
}
