/** The few operations on Python strings that several modules need. */
module Text {

  /** Python's str.isspace for one character, which is also the class \s of its str patterns. */
  predicate IsSpace(c: char) {
    || '\t' <= c <= '\r'
    || '\U{1c}' <= c <= ' '
    || c in {'\U{85}', '\U{a0}', '\U{1680}', '\U{2028}', '\U{2029}', '\U{202f}', '\U{205f}', '\U{3000}'}
    || '\U{2000}' <= c <= '\U{200a}'
  }

  /** str.lstrip */
  function LStrip(s: string): (r: string)
    ensures r == [] || !IsSpace(r[0])
  {
    if s != [] && IsSpace(s[0]) then LStrip(s[1..]) else s
  }

  /** str.rstrip */
  function RStrip(s: string): (r: string)
    ensures r <= s
    ensures r == [] || !IsSpace(r[|r| - 1])
  {
    if s != [] && IsSpace(s[|s| - 1]) then RStrip(s[..|s| - 1]) else s
  }

  /** str.strip */
  function Strip(s: string): (r: string) {
    RStrip(LStrip(s))
  }

  /** `sub in s` */
  predicate Contains(s: string, sub: string) {
    sub <= s || (s != [] && Contains(s[1..], sub))
  }

  /** The text before the first occurrence of `sub`, all of it when there is none: `s.split(sub)[0]`. */
  function Before(s: string, sub: string): (r: string)
    requires sub != []
    ensures r <= s
    ensures !Contains(r, sub)
    ensures !Contains(s, sub) ==> r == s
    ensures Contains(s, sub) ==> |r| + |sub| <= |s| && s[|r|..|r| + |sub|] == sub
  {
    if s == [] || sub <= s then []
    else
      var rest := Before(s[1..], sub);
      var r := [s[0]] + rest;
      NotInGrown(s, rest, sub, r);
      TailHolds(s, s[1..], sub);
      FoundBehind(s, s[1..], rest, r, sub);
      r
  }

  /** What stands in the tail behind `rest` stands in the text behind `r`. */
  lemma FoundBehind(s: string, tail: string, rest: string, r: string, sub: string)
    requires s != [] && tail == s[1..] && r == [s[0]] + rest
    ensures |rest| + |sub| <= |tail| && tail[|rest|..|rest| + |sub|] == sub ==>
              |r| + |sub| <= |s| && s[|r|..|r| + |sub|] == sub
    ensures rest == tail ==> r == s
  {
    if |rest| + |sub| <= |tail| {
      TailSlice(s, |rest|, |rest| + |sub|, |r|, |r| + |sub|);
    }
  }

  lemma TailHolds(s: string, tail: string, sub: string)
    requires s != [] && !(sub <= s) && tail == s[1..]
    ensures Contains(s, sub) <==> Contains(tail, sub)
  {
  }

  lemma NotInGrown(s: string, rest: string, sub: string, grown: string)
    requires s != [] && !(sub <= s) && rest <= s[1..] && !Contains(rest, sub) && grown == [s[0]] + rest
    ensures grown <= s && !Contains(grown, sub)
  {
    assert grown[1..] == rest;
    PrefixOfPrefix(sub, grown, s);
  }

  lemma PrefixOfPrefix(a: string, b: string, c: string)
    requires b <= c
    ensures a <= b ==> a <= c
  {
  }

  /** A slice of the tail is a slice. */
  lemma TailSlice(s: string, lo: nat, hi: nat, l: nat, h: nat)
    requires s != [] && lo <= hi <= |s| - 1 && l == lo + 1 && h == hi + 1
    ensures s[1..][lo..hi] == s[l..h]
  {
  }

  lemma SliceTail(s: string, hi: nat, h: nat)
    requires 0 < hi <= |s| && h == hi - 1
    ensures s[..hi][1..] == s[1..][..h]
  {
  }

  /** A piece of a string holds no more than the string. */
  lemma {:induction false} PieceHoldsNoMore(s: string, lo: nat, hi: nat, sub: string)
    requires lo <= hi <= |s| && Contains(s[lo..hi], sub)
    ensures Contains(s, sub)
    decreases hi, hi - lo
  {
    if lo > 0 {
      var l, h := lo - 1, hi - 1;
      TailSlice(s, l, h, lo, hi);
      PieceHoldsNoMore(s[1..], l, h, sub);
    } else {
      assert s[0..hi] == s[..hi];
      HeadHoldsNoMore(s, hi, sub);
    }
  }

  lemma {:induction false} HeadHoldsNoMore(s: string, hi: nat, sub: string)
    requires hi <= |s| && Contains(s[..hi], sub)
    ensures Contains(s, sub)
    decreases hi
  {
    if sub <= s[..hi] {
      PrefixOfPrefix(sub, s[..hi], s);
    } else {
      var h := hi - 1;
      SliceTail(s, hi, h);
      HeadHoldsNoMore(s[1..], h, sub);
    }
  }

  lemma {:induction false} LStripPiece(s: string) returns (k: nat)
    ensures k <= |s| && LStrip(s) == s[k..] && AllSpace(s[..k])
  {
    if s != [] && IsSpace(s[0]) {
      var j := LStripPiece(s[1..]);
      k := j + 1;
      assert s[..k] == [s[0]] + s[1..][..j];
    } else {
      k := 0;
    }
  }

  lemma {:induction false} RStripFixed(s: string)
    requires s == [] || !IsSpace(s[|s| - 1])
    ensures RStrip(s) == s
  {
  }

  lemma {:induction false} RStripKeepsHead(s: string)
    requires s == [] || !IsSpace(s[0])
    ensures s != [] ==> RStrip(s) != [] && RStrip(s)[0] == s[0]
  {
    if s != [] && IsSpace(s[|s| - 1]) {
      RStripKeepsHead(s[..|s| - 1]);
    }
  }

  /** strip of a piece is a piece, and strip changes nothing when it is run again. */
  lemma StripFacts(s: string)
    ensures exists lo: nat, hi: nat :: lo <= hi <= |s| && Strip(s) == s[lo..hi]
    ensures Strip(Strip(s)) == Strip(s)
  {
    var k := LStripPiece(s);
    var t := LStrip(s);
    var r := RStrip(t);
    assert r == s[k..k + |r|];
    RStripKeepsHead(t);
    assert r == [] || !IsSpace(r[0]);
    assert LStrip(r) == r;
    RStripFixed(r);
  }

  predicate AllSpace(s: string) {
    forall i :: 0 <= i < |s| ==> IsSpace(s[i])
  }

  /** No white space at either end. */
  predicate Trimmed(s: string) {
    s != [] ==> !IsSpace(s[0]) && !IsSpace(s[|s| - 1])
  }

  lemma {:induction false} LStripSpaces(a: string, s: string)
    requires AllSpace(a)
    ensures LStrip(a + s) == LStrip(s)
  {
    if a == [] {
      assert a + s == s;
    } else {
      assert (a + s)[1..] == a[1..] + s;
      LStripSpaces(a[1..], s);
    }
  }

  lemma {:induction false} RStripSpaces(s: string, b: string)
    requires AllSpace(b)
    ensures RStrip(s + b) == RStrip(s)
  {
    if b == [] {
      assert s + b == s;
    } else {
      assert (s + b)[..|s + b| - 1] == s + b[..|b| - 1];
      RStripSpaces(s, b[..|b| - 1]);
    }
  }

  /** strip takes off white space at the ends and nothing else. */
  lemma StripPadded(a: string, e: string, b: string)
    requires AllSpace(a) && AllSpace(b) && Trimmed(e)
    ensures Strip(a + e + b) == e
  {
    assert a + e + b == a + (e + b);
    LStripSpaces(a, e + b);
    if e == [] {
      assert e + b == b + [];
      LStripSpaces(b, []);
    } else {
      assert LStrip(e + b) == e + b;
      RStripSpaces(e, b);
      RStripFixed(e);
    }
  }

  lemma {:induction false} RStripPiece(s: string)
    ensures AllSpace(s[|RStrip(s)|..])
  {
    if s != [] && IsSpace(s[|s| - 1]) {
      var front := s[..|s| - 1];
      RStripPiece(front);
      assert s[|RStrip(front)|..] == front[|RStrip(front)|..] + [s[|s| - 1]];
    }
  }

  /** What strip took off. */
  lemma StripShape(s: string) returns (a: string, b: string)
    ensures AllSpace(a) && AllSpace(b) && Trimmed(Strip(s)) && s == a + Strip(s) + b
  {
    var k := LStripPiece(s);
    var t := s[k..];
    RStripPiece(t);
    RStripKeepsHead(t);
    a, b := s[..k], t[|RStrip(t)|..];
    assert t == RStrip(t) + b && s == a + t;
  }

  /** `sub in s` finds what stands at any place. */
  lemma {:induction false} ContainsAt(s: string, sub: string, k: nat)
    requires k + |sub| <= |s| && s[k..k + |sub|] == sub
    ensures Contains(s, sub)
  {
    if k > 0 {
      var j: nat := k - 1;
      TailSlice(s, j, j + |sub|, k, k + |sub|);
      ContainsAt(s[1..], sub, j);
    } else {
      assert sub == s[..|sub|];
    }
  }

  /** And it finds nothing that is not there. */
  lemma {:induction false} ContainedWhere(s: string, sub: string) returns (k: nat)
    requires Contains(s, sub)
    ensures k + |sub| <= |s| && s[k..k + |sub|] == sub
  {
    if sub <= s {
      k := 0;
    } else {
      var j := ContainedWhere(s[1..], sub);
      TailSlice(s, j, j + |sub|, j + 1, j + 1 + |sub|);
      k := j + 1;
    }
  }

  /** White space by its code points. */
  lemma SpaceCodes(c: char)
    ensures IsSpace(c) <==>
            || 9 <= c as int <= 13 || 28 <= c as int <= 32 || 8192 <= c as int <= 8202
            || c as int in [133, 160, 5760, 8232, 8233, 8239, 8287, 12288]
  {
  }
}
