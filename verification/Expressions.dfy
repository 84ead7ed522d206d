/**
 * The workflow expression language, as far as an `if` needs it: a lexer, a parser in which `&&` binds
 * tighter than `||`, the printer it inverts, and the evaluator.
 */
module Expressions {
  import opened Wrappers
  import Text

  datatype Op = Or | And | Eq | Ne | Lt | Le | Gt | Ge {
    function Level(): nat {
      match this
      case Or => 0
      case And => 1
      case Eq | Ne => 2
      case Lt | Le | Gt | Ge => 3
    }
  }

  datatype Token =
    | Word(w: string) | Str(literal: string) | Infix(op: Op)
    | LParen | RParen | LBracket | RBracket | Comma | Dot | Star | Bang

  /* ---- lexer ---- */

  predicate IsWordChar(c: char) {
    'a' <= c <= 'z' || 'A' <= c <= 'Z' || '0' <= c <= '9' || c == '_' || c == '-'
  }

  function WordLength(s: string): (n: nat)
    ensures n <= |s|
    ensures forall i :: 0 <= i < n ==> IsWordChar(s[i])
    ensures n < |s| ==> !IsWordChar(s[n])
  {
    if s != [] && IsWordChar(s[0]) then 1 + WordLength(s[1..]) else 0
  }

  /** The end of the literal whose body starts at `s`; a doubled quote stands for one quote. */
  function LiteralEnd(s: string): (n: Option<nat>)
    ensures n.Some? ==> 0 < n.value <= |s|
  {
    if s == [] then None
    else if s[0] != '\'' then After(1, LiteralEnd(s[1..]))
    else if 2 <= |s| && s[1] == '\'' then After(2, LiteralEnd(s[2..]))
    else Some(1)
  }

  function After(k: nat, n: Option<nat>): Option<nat> {
    match n
    case Some(v) => Some(k + v)
    case None => None
  }

  predicate Pair(s: string, a: char, b: char) {
    2 <= |s| && s[0] == a && s[1] == b
  }

  function Symbol(s: string): (t: Option<Token>)
    requires s != []
    ensures t.Some? ==> Spell(t.value) <= s && Spell(t.value) != []
  {
    if Pair(s, '&', '&') then Some(Infix(And))
    else if Pair(s, '|', '|') then Some(Infix(Or))
    else if Pair(s, '=', '=') then Some(Infix(Eq))
    else if Pair(s, '!', '=') then Some(Infix(Ne))
    else if Pair(s, '<', '=') then Some(Infix(Le))
    else if Pair(s, '>', '=') then Some(Infix(Ge))
    else match s[0]
      case '<' => Some(Infix(Lt))
      case '>' => Some(Infix(Gt))
      case '(' => Some(LParen)
      case ')' => Some(RParen)
      case '[' => Some(LBracket)
      case ']' => Some(RBracket)
      case ',' => Some(Comma)
      case '.' => Some(Dot)
      case '*' => Some(Star)
      case '!' => Some(Bang)
      case _ => None
  }

  function Spell(t: Token): string {
    match t
    case Word(w) => w
    case Str(literal) => literal
    case Infix(And) => "&&"
    case Infix(Or) => "||"
    case Infix(Eq) => "=="
    case Infix(Ne) => "!="
    case Infix(Le) => "<="
    case Infix(Ge) => ">="
    case Infix(Lt) => "<"
    case Infix(Gt) => ">"
    case LParen => "("
    case RParen => ")"
    case LBracket => "["
    case RBracket => "]"
    case Comma => ","
    case Dot => "."
    case Star => "*"
    case Bang => "!"
  }

  function SpellAll(ts: seq<Token>): string {
    if ts == [] then "" else Spell(ts[0]) + SpellAll(ts[1..])
  }

  /** The first token of a text that starts with neither the end nor a space. */
  function FirstToken(s: string): (t: Option<Token>)
    requires s != []
    ensures t.Some? ==> Spell(t.value) <= s && Spell(t.value) != []
  {
    if s[0] == '\'' then
      var n := LiteralEnd(s[1..]);
      if n.None? then None else Some(Str(s[..1 + n.value]))
    else if IsWordChar(s[0]) then Some(Word(s[..WordLength(s)]))
    else Symbol(s)
  }

  function Lex(s: string): Option<seq<Token>> {
    if s == [] then Some([])
    else if Text.IsSpace(s[0]) then Lex(s[1..])
    else
      var t := FirstToken(s);
      if t.None? then None else Join(t.value, Lex(s[|Spell(t.value)|..]))
  }

  function Join(t: Token, ts: Option<seq<Token>>): Option<seq<Token>> {
    if ts.None? then None else Some([t] + ts.value)
  }

  /* ---- syntax trees and their spelling ---- */

  datatype Expr =
    | Bin(op: Op, left: Expr, right: Expr)
    | Not(arg: Expr)
    | Paren(inner: Expr)
    | Call(f: string, args: Args)
    | Var(name: string)
    | Lit(literal: string)
    | Field(base: Expr, field: string)
    | AnyField(base: Expr)
    | Index(base: Expr, at: Expr)
    | AnyIndex(base: Expr)

  datatype Args = NoArgs | Arg(head: Expr, rest: Args)

  function Print(e: Expr): (ts: seq<Token>)
    ensures ts != []
  {
    match e
    case Bin(op, l, r) => Print(l) + [Infix(op)] + Print(r)
    case Not(x) => [Bang] + Print(x)
    case Paren(x) => [LParen] + Print(x) + [RParen]
    case Call(f, args) => [Word(f), LParen] + PrintArgs(args) + [RParen]
    case Var(w) => [Word(w)]
    case Lit(text) => [Str(text)]
    case Field(b, w) => Print(b) + [Dot, Word(w)]
    case AnyField(b) => Print(b) + [Dot, Star]
    case Index(b, i) => Print(b) + [LBracket] + Print(i) + [RBracket]
    case AnyIndex(b) => Print(b) + [LBracket, Star, RBracket]
  }

  function PrintArgs(args: Args): seq<Token> {
    match args
    case NoArgs => []
    case Arg(e, NoArgs) => Print(e)
    case Arg(e, rest) => Print(e) + [Comma] + PrintArgs(rest)
  }

  const UNARY: nat := 4
  const POSTFIX: nat := 5

  /** `e` is a tree the grammar gives at level `n`: 0 is `||`, 1 is `&&`, then comparisons, `!` and postfix forms. */
  predicate Fits(n: nat, e: Expr)
    decreases e
  {
    match e
    case Bin(op, l, r) => n <= op.Level() && Fits(op.Level(), l) && Fits(op.Level() + 1, r)
    case Not(x) => n <= UNARY && Fits(UNARY, x)
    case Paren(x) => n <= POSTFIX && Fits(0, x)
    case Call(f, args) => n <= POSTFIX && ArgsFit(args)
    case Var(_) => n <= POSTFIX
    case Lit(_) => n <= POSTFIX
    case Field(b, _) => n <= POSTFIX && Fits(POSTFIX, b)
    case AnyField(b) => n <= POSTFIX && Fits(POSTFIX, b)
    case Index(b, i) => n <= POSTFIX && Fits(POSTFIX, b) && Fits(0, i)
    case AnyIndex(b) => n <= POSTFIX && Fits(POSTFIX, b)
  }

  predicate ArgsFit(args: Args)
    decreases args
  {
    args.Arg? ==> Fits(0, args.head) && ArgsFit(args.rest)
  }

  /* ---- parser ---- */

  datatype Parsed<T> = Parsed(tree: T, rest: seq<Token>)

  predicate Starts(ts: seq<Token>, t: Token) {
    ts != [] && ts[0] == t
  }

  predicate StartsOp(ts: seq<Token>, n: nat) {
    ts != [] && ts[0].Infix? && ts[0].op.Level() == n
  }

  /** Recursive descent: level `n` is a left associative chain over level `n + 1`. */
  function ParseAt(n: nat, ts: seq<Token>): (r: Option<Parsed<Expr>>)
    requires n <= UNARY
    ensures r.Some? ==> ts == Print(r.value.tree) + r.value.rest && Fits(n, r.value.tree)
    decreases |ts|, 1, UNARY - n
  {
    if n < UNARY then
      var l := ParseAt(n + 1, ts);
      if l.None? then None else Chain(n, l.value.tree, l.value.rest)
    else if Starts(ts, Bang) then
      var x := ParseAt(UNARY, ts[1..]);
      if x.None? then None else Some(Parsed(Not(x.value.tree), x.value.rest))
    else
      var p := Primary(ts);
      if p.None? then None else Suffixes(p.value.tree, p.value.rest)
  }

  function Chain(n: nat, l: Expr, ts: seq<Token>): (r: Option<Parsed<Expr>>)
    requires n < UNARY && Fits(n, l)
    ensures r.Some? ==> Print(l) + ts == Print(r.value.tree) + r.value.rest && Fits(n, r.value.tree)
    ensures r.Some? ==> |r.value.rest| <= |ts|
    decreases |ts|, 2
  {
    if !StartsOp(ts, n) then Some(Parsed(l, ts))
    else
      var r := ParseAt(n + 1, ts[1..]);
      if r.None? then None else
        var e := Bin(ts[0].op, l, r.value.tree);
        assert Print(l) + ts == Print(e) + r.value.rest by {
          assert ts == [ts[0]] + ts[1..];
        }
        Chain(n, e, r.value.rest)
  }

  function Primary(ts: seq<Token>): (r: Option<Parsed<Expr>>)
    ensures r.Some? ==> ts == Print(r.value.tree) + r.value.rest && Fits(POSTFIX, r.value.tree)
    decreases |ts|, 0
  {
    if ts == [] then None
    else match ts[0]
      case LParen =>
        var x := ParseAt(0, ts[1..]);
        if x.None? || !Starts(x.value.rest, RParen) then None
        else
          assert ts == [LParen] + Print(x.value.tree) + [RParen] + x.value.rest[1..];
          Some(Parsed(Paren(x.value.tree), x.value.rest[1..]))
      case Str(text) => Some(Parsed(Lit(text), ts[1..]))
      case Word(w) =>
        if !Starts(ts[1..], LParen) then Some(Parsed(Var(w), ts[1..]))
        else if Starts(ts[2..], RParen) then
          assert ts == [Word(w), LParen] + [] + [RParen] + ts[3..];
          Some(Parsed(Call(w, NoArgs), ts[3..]))
        else
          var args := ArgList(ts[2..]);
          if args.None? || !Starts(args.value.rest, RParen) then None
          else
            assert ts == [Word(w), LParen] + PrintArgs(args.value.tree) + [RParen] + args.value.rest[1..];
            Some(Parsed(Call(w, args.value.tree), args.value.rest[1..]))
      case _ => None
  }

  function ArgList(ts: seq<Token>): (r: Option<Parsed<Args>>)
    ensures r.Some? ==> ts == PrintArgs(r.value.tree) + r.value.rest && ArgsFit(r.value.tree) && r.value.tree.Arg?
    decreases |ts|, 2
  {
    var x := ParseAt(0, ts);
    if x.None? then None
    else if !Starts(x.value.rest, Comma) then Some(Parsed(Arg(x.value.tree, NoArgs), x.value.rest))
    else
      var more := ArgList(x.value.rest[1..]);
      if more.None? then None
      else
        assert ts == Print(x.value.tree) + [Comma] + PrintArgs(more.value.tree) + more.value.rest;
        Some(Parsed(Arg(x.value.tree, more.value.tree), more.value.rest))
  }

  function Suffixes(b: Expr, ts: seq<Token>): (r: Option<Parsed<Expr>>)
    requires Fits(POSTFIX, b)
    ensures r.Some? ==> Print(b) + ts == Print(r.value.tree) + r.value.rest && Fits(POSTFIX, r.value.tree)
    decreases |ts|, 0
  {
    if Starts(ts, Dot) && 2 <= |ts| && ts[1].Word? then
      assert Print(b) + ts == Print(Field(b, ts[1].w)) + ts[2..];
      Suffixes(Field(b, ts[1].w), ts[2..])
    else if [Dot, Star] <= ts then
      assert Print(b) + ts == Print(AnyField(b)) + ts[2..];
      Suffixes(AnyField(b), ts[2..])
    else if [LBracket, Star, RBracket] <= ts then
      assert Print(b) + ts == Print(AnyIndex(b)) + ts[3..];
      Suffixes(AnyIndex(b), ts[3..])
    else if Starts(ts, LBracket) then
      var i := ParseAt(0, ts[1..]);
      if i.None? || !Starts(i.value.rest, RBracket) then None
      else
        assert Print(b) + ts == Print(Index(b, i.value.tree)) + i.value.rest[1..];
        Suffixes(Index(b, i.value.tree), i.value.rest[1..])
    else Some(Parsed(b, ts))
  }

  function Parse(ts: seq<Token>): (r: Option<Expr>)
    ensures r.Some? ==> ts == Print(r.value) && Fits(0, r.value)
  {
    var r := ParseAt(0, ts);
    if r.Some? && r.value.rest == [] then Some(r.value.tree) else None
  }

  /* ---- the parser inverts the printer ---- */

  /** What may follow a tree of level `n` without becoming part of it. */
  predicate Stops(n: nat, rest: seq<Token>) {
    || rest == []
    || rest[0] in {RParen, RBracket, Comma}
    || (rest[0].Infix? && rest[0].op.Level() <= n)
  }

  lemma PrintedBin(e: Expr, rest: seq<Token>)
    requires e.Bin?
    ensures
      var tail := [Infix(e.op)] + (Print(e.right) + rest);
      Print(e) + rest == Print(e.left) + tail && tail[1..] == Print(e.right) + rest
  {}

  lemma {:induction false} PrintedTreeParses(n: nat, e: Expr, rest: seq<Token>)
    requires n < UNARY && Fits(n, e) && Stops(n, rest)
    ensures ParseAt(n, Print(e) + rest) == Chain(n, e, rest)
    decreases e, UNARY - n, 1
  {
    if e.Bin? && e.op.Level() == n {
      var tail := [Infix(e.op)] + (Print(e.right) + rest);
      PrintedBin(e, rest);
      PrintedTreeParses(n, e.left, tail);
      PrintedOperandParses(n + 1, e.right, rest);
    } else {
      PrintedOperandParses(n + 1, e, rest);
    }
  }

  /** A tree of level `n` before something that is no operator of level `n` or tighter. */
  lemma {:induction false} PrintedOperandParses(n: nat, e: Expr, rest: seq<Token>)
    requires 1 <= n <= UNARY && Fits(n, e) && Stops(n - 1, rest)
    ensures ParseAt(n, Print(e) + rest) == Some(Parsed(e, rest))
    decreases e, UNARY - n, 2
  {
    if n < UNARY {
      PrintedTreeParses(n, e, rest);
    } else if e.Not? {
      assert (Print(e) + rest)[1..] == Print(e.arg) + rest;
      PrintedOperandParses(UNARY, e.arg, rest);
    } else {
      PrintedPostfixParses(e, rest);
    }
  }

  function Operand(ts: seq<Token>): Option<Parsed<Expr>> {
    var p := Primary(ts);
    if p.None? then None else Suffixes(p.value.tree, p.value.rest)
  }

  lemma {:induction false} PrintedPostfixParses(e: Expr, rest: seq<Token>)
    requires Fits(POSTFIX, e) && !Starts(rest, LParen)
    ensures Operand(Print(e) + rest) == Suffixes(e, rest)
    ensures !Starts(Print(e) + rest, Bang)
    decreases e, 0, 0
  {
    match e
    case Paren(x) => PrintedParenParses(x, rest);
    case Call(f, args) => PrintedCallParses(f, args, rest);
    case Var(_) =>
      assert (Print(e) + rest)[1..] == rest;
    case Lit(_) =>
      assert (Print(e) + rest)[1..] == rest;
    case Field(b, w) =>
      SuffixPrinted(e, b, [Dot, Word(w)], rest);
      PrintedPostfixParses(b, [Dot, Word(w)] + rest);
    case AnyField(b) =>
      SuffixPrinted(e, b, [Dot, Star], rest);
      PrintedPostfixParses(b, [Dot, Star] + rest);
    case AnyIndex(b) =>
      SuffixPrinted(e, b, [LBracket, Star, RBracket], rest);
      PrintedPostfixParses(b, [LBracket, Star, RBracket] + rest);
    case Index(b, i) =>
      var suffix := [LBracket] + Print(i) + [RBracket];
      SuffixPrinted(e, b, suffix, rest);
      PrintedPostfixParses(b, suffix + rest);
      PrintedIndexParses(b, i, rest);
  }

  lemma SuffixPrinted(e: Expr, b: Expr, suffix: seq<Token>, rest: seq<Token>)
    requires Print(e) == Print(b) + suffix
    ensures Print(e) + rest == Print(b) + (suffix + rest)
    ensures (suffix + rest)[|suffix|..] == rest
  {
  }

  lemma {:induction false} PrintedParenParses(x: Expr, rest: seq<Token>)
    requires Fits(0, x)
    ensures Primary(Print(Paren(x)) + rest) == Some(Parsed(Paren(x), rest))
    decreases x, UNARY, 2
  {
    assert (Print(Paren(x)) + rest)[1..] == Print(x) + ([RParen] + rest);
    PrintedTreeParses(0, x, [RParen] + rest);
  }

  lemma {:induction false} PrintedCallParses(f: string, args: Args, rest: seq<Token>)
    requires ArgsFit(args)
    ensures Primary(Print(Call(f, args)) + rest) == Some(Parsed(Call(f, args), rest))
    decreases args, UNARY, 2
  {
    var ts := Print(Call(f, args)) + rest;
    assert ts[1..] == [LParen] + PrintArgs(args) + [RParen] + rest;
    assert ts[2..] == PrintArgs(args) + ([RParen] + rest);
    if args.Arg? {
      PrintedArgsParse(args, rest);
      PrintStart(args.head);
      assert PrintArgs(args)[0] == Print(args.head)[0];
    } else {
      assert ts[3..] == rest;
    }
  }

  lemma {:induction false} PrintedIndexParses(b: Expr, i: Expr, rest: seq<Token>)
    requires Fits(POSTFIX, b) && Fits(0, i)
    ensures Suffixes(b, [LBracket] + Print(i) + [RBracket] + rest) == Suffixes(Index(b, i), rest)
    decreases i, UNARY, 2
  {
    var tail := [LBracket] + Print(i) + [RBracket] + rest;
    assert tail[1..] == Print(i) + ([RBracket] + rest);
    PrintedTreeParses(0, i, [RBracket] + rest);
    PrintStart(i);
    assert tail[1] == Print(i)[0];
    assert ([RBracket] + rest)[1..] == rest;
  }

  /** No tree is printed with a closing bracket, a dot or a star in front. */
  lemma {:induction false} PrintStart(e: Expr)
    ensures Print(e)[0] !in {RParen, RBracket, Comma, Dot, Star, LBracket} && !Print(e)[0].Infix?
  {
    match e
    case Bin(_, l, _) => PrintStart(l);
    case Field(b, _) => PrintStart(b);
    case AnyField(b) => PrintStart(b);
    case Index(b, _) => PrintStart(b);
    case AnyIndex(b) => PrintStart(b);
    case _ =>
  }

  lemma {:induction false} PrintedArgsParse(args: Args, rest: seq<Token>)
    requires args.Arg? && ArgsFit(args)
    ensures ArgList(PrintArgs(args) + ([RParen] + rest)) == Some(Parsed(args, [RParen] + rest))
    decreases args, 0
  {
    var tail := [RParen] + rest;
    if args.rest.NoArgs? {
      PrintedTreeParses(0, args.head, tail);
    } else {
      var more := [Comma] + PrintArgs(args.rest) + tail;
      assert PrintArgs(args) + tail == Print(args.head) + more;
      PrintedTreeParses(0, args.head, more);
      assert more[1..] == PrintArgs(args.rest) + tail;
      PrintedArgsParse(args.rest, rest);
    }
  }

  /** Printing and parsing are inverse on the trees of the grammar. */
  lemma ParsePrint(e: Expr)
    requires Fits(0, e)
    ensures Parse(Print(e)) == Some(e)
  {
    PrintedTreeParses(0, e, []);
    assert Print(e) + [] == Print(e);
  }

  /**
   * `||` binds loosest, then `&&`, then the two equalities, then the four orderings; what binds tighter goes together on
   * either side, and what binds alike goes together from the left.
   */
  lemma Precedence(low: Op, high: Op, a: string, b: string, c: string)
    requires
      || (low == Or && high != Or) || (low == And && high !in {Or, And})
      || (low in {Eq, Ne} && high in {Lt, Le, Gt, Ge})
    ensures Parse([Word(a), Infix(low), Word(b), Infix(high), Word(c)]) == Some(Bin(low, Var(a), Bin(high, Var(b), Var(c))))
    ensures Parse([Word(a), Infix(high), Word(b), Infix(low), Word(c)]) == Some(Bin(low, Bin(high, Var(a), Var(b)), Var(c)))
    ensures Parse([Word(a), Infix(low), Word(b), Infix(low), Word(c)]) == Some(Bin(low, Bin(low, Var(a), Var(b)), Var(c)))
  {
    ThreePrinted(low, high, a, b, c);
    ThreePrinted(high, low, a, b, c);
    ThreePrinted(low, low, a, b, c);
    ParsePrint(Bin(low, Var(a), Bin(high, Var(b), Var(c))));
    ParsePrint(Bin(low, Bin(high, Var(a), Var(b)), Var(c)));
    ParsePrint(Bin(low, Bin(low, Var(a), Var(b)), Var(c)));
  }

  lemma ThreePrinted(o: Op, p: Op, a: string, b: string, c: string)
    ensures Print(Bin(p, Bin(o, Var(a), Var(b)), Var(c))) == [Word(a), Infix(o), Word(b), Infix(p), Word(c)]
    ensures Print(Bin(o, Var(a), Bin(p, Var(b), Var(c)))) == [Word(a), Infix(o), Word(b), Infix(p), Word(c)]
  {
    assert Print(Bin(o, Var(a), Var(b))) == [Word(a), Infix(o), Word(b)];
    assert Print(Bin(p, Var(b), Var(c))) == [Word(b), Infix(p), Word(c)];
  }

  /* ---- the lexer inverts spelling, where neighbouring tokens do not run together ---- */

  predicate IsLiteral(s: string) {
    s != [] && s[0] == '\'' && LiteralEnd(s[1..]) == Some(|s| - 1)
  }

  predicate ValidToken(t: Token) {
    match t
    case Word(w) => w != [] && forall i :: 0 <= i < |w| ==> IsWordChar(w[i])
    case Str(text) => IsLiteral(text)
    case _ => true
  }

  /** Put before `next`, the token is read back as itself. */
  predicate Apart(t: Token, next: string) {
    next == [] || match t
      case Word(_) => !IsWordChar(next[0])
      case Str(_) => next[0] != '\''
      case Infix(Lt) | Infix(Gt) | Bang => next[0] != '='
      case _ => true
  }

  predicate AllApart(ts: seq<Token>, next: string) {
    ts == [] || (ValidToken(ts[0]) && Apart(ts[0], SpellAll(ts[1..]) + next) && AllApart(ts[1..], next))
  }

  lemma {:induction false} LiteralReadBack(body: string, next: string)
    requires LiteralEnd(body) == Some(|body|) && (next == [] || next[0] != '\'')
    ensures LiteralEnd(body + next) == Some(|body|)
  {
    if body[0] != '\'' {
      assert (body + next)[1..] == body[1..] + next;
      LiteralReadBack(body[1..], next);
    } else if 2 <= |body| && body[1] == '\'' {
      assert (body + next)[2..] == body[2..] + next;
      LiteralReadBack(body[2..], next);
    }
  }

  lemma {:induction false} WordReadBack(w: string, next: string)
    requires forall i :: 0 <= i < |w| ==> IsWordChar(w[i])
    requires next == [] || !IsWordChar(next[0])
    ensures WordLength(w + next) == |w|
  {
    if w != [] {
      assert (w + next)[1..] == w[1..] + next;
      WordReadBack(w[1..], next);
    }
  }

  lemma FirstTokenReadBack(t: Token, next: string)
    requires ValidToken(t) && Apart(t, next)
    ensures Spell(t) != [] && !Text.IsSpace(Spell(t)[0])
    ensures FirstToken(Spell(t) + next) == Some(t)
  {
    var s := Spell(t) + next;
    match t
    case Word(w) =>
      WordReadBack(w, next);
      assert s[..|w|] == w;
    case Str(text) =>
      assert s[1..] == text[1..] + next;
      LiteralReadBack(text[1..], next);
      assert s[..|text|] == text;
    case _ =>
      SymbolReadBack(t, next);
  }

  lemma SymbolReadBack(t: Token, next: string)
    requires !t.Word? && !t.Str? && Apart(t, next)
    ensures !Text.IsSpace(Spell(t)[0]) && FirstToken(Spell(t) + next) == Some(t)
  {
    var s := Spell(t) + next;
    assert s[0] == Spell(t)[0];
    if |Spell(t)| == 2 {
      assert s[1] == Spell(t)[1];
    } else if next != [] {
      assert s[1] == next[0];
    }
  }

  function Prepend(ts: seq<Token>, more: Option<seq<Token>>): Option<seq<Token>> {
    if more.None? then None else Some(ts + more.value)
  }

  /** Lexing spelled tokens gives the tokens back, whatever text follows them at a safe distance. */
  lemma {:induction false} LexSpelled(ts: seq<Token>, next: string)
    requires AllApart(ts, next)
    ensures Lex(SpellAll(ts) + next) == Prepend(ts, Lex(next))
  {
    if ts == [] {
      assert SpellAll(ts) + next == next;
      assert Lex(next).Some? ==> [] + Lex(next).value == Lex(next).value;
    } else {
      var t, rest := ts[0], ts[1..];
      var tail := SpellAll(rest) + next;
      assert SpellAll(ts) + next == Spell(t) + tail;
      LexSpelled(rest, next);
      LexOne(t, tail);
      JoinPrepend(ts, Lex(next));
    }
  }

  lemma JoinPrepend(ts: seq<Token>, more: Option<seq<Token>>)
    requires ts != []
    ensures Join(ts[0], Prepend(ts[1..], more)) == Prepend(ts, more)
  {
    if more.Some? {
      assert ts + more.value == [ts[0]] + (ts[1..] + more.value);
    }
  }

  lemma LexOne(t: Token, tail: string)
    requires ValidToken(t) && Apart(t, tail)
    ensures Lex(Spell(t) + tail) == Join(t, Lex(tail))
  {
    FirstTokenReadBack(t, tail);
    assert (Spell(t) + tail)[|Spell(t)|..] == tail;
  }

  lemma {:induction false} LiteralIsWhole(s: string)
    requires LiteralEnd(s).Some?
    ensures LiteralEnd(s[..LiteralEnd(s).value]) == LiteralEnd(s)
  {
    var n := LiteralEnd(s).value;
    if s[0] != '\'' {
      assert s[..n][1..] == s[1..][..n - 1];
      LiteralIsWhole(s[1..]);
    } else if 2 <= |s| && s[1] == '\'' {
      assert s[..n][2..] == s[2..][..n - 2];
      LiteralIsWhole(s[2..]);
    }
  }

  lemma FirstTokenIsValid(s: string)
    requires s != [] && FirstToken(s).Some?
    ensures ValidToken(FirstToken(s).value)
  {
    var t := FirstToken(s).value;
    if t.Str? {
      LiteralIsWhole(s[1..]);
      assert t.literal[1..] == s[1..][..LiteralEnd(s[1..]).value];
    }
  }

  lemma {:induction false} LexedTokensAreValid(s: string)
    requires Lex(s).Some?
    ensures forall t :: t in Lex(s).value ==> ValidToken(t)
  {
    if s != [] {
      if Text.IsSpace(s[0]) {
        LexedTokensAreValid(s[1..]);
      } else {
        FirstTokenIsValid(s);
        LexedTokensAreValid(s[|Spell(FirstToken(s).value)|..]);
      }
    }
  }

  /* ---- the grammar never puts two tokens together that would run together ---- */

  predicate Side(t: Token, u: Token) {
    match t
    case Word(_) => !u.Word?
    case Str(_) => !u.Str?
    case Infix(Lt) | Infix(Gt) | Bang => u != Infix(Eq)
    case _ => true
  }

  predicate Sides(ts: seq<Token>) {
    forall i :: 0 <= i < |ts| - 1 ==> Side(ts[i], ts[i + 1])
  }

  predicate EndsOperand(t: Token) {
    t in {RParen, RBracket, Star} || t.Word? || t.Str?
  }

  predicate StartsOperand(t: Token) {
    t in {LParen, Bang} || t.Word? || t.Str?
  }

  lemma SidesJoin(a: seq<Token>, b: seq<Token>)
    requires Sides(a) && Sides(b) && (a != [] && b != [] ==> Side(a[|a| - 1], b[0]))
    ensures Sides(a + b)
  {
    forall i | 0 <= i < |a + b| - 1
      ensures Side((a + b)[i], (a + b)[i + 1])
    {
      if i < |a| - 1 {
        assert Side(a[i], a[i + 1]);
      } else if |a| <= i {
        assert Side(b[i - |a|], b[i - |a| + 1]);
      }
    }
  }

  ghost predicate OperandTokens(ts: seq<Token>) {
    ts != [] && Sides(ts) && StartsOperand(ts[0]) && EndsOperand(ts[|ts| - 1])
  }

  lemma {:induction false} PrintedSides(e: Expr)
    ensures OperandTokens(Print(e))
    decreases e
  {
    match e
    case Bin(op, l, r) =>
      PrintedSides(l);
      PrintedSides(r);
      SidesJoin(Print(l), [Infix(op)]);
      SidesJoin(Print(l) + [Infix(op)], Print(r));
    case Not(x) =>
      PrintedSides(x);
      SidesJoin([Bang], Print(x));
    case Paren(x) =>
      PrintedSides(x);
      SidesJoin([LParen], Print(x));
      SidesJoin([LParen] + Print(x), [RParen]);
    case Call(f, args) =>
      PrintedArgSides(args);
      SidesJoin([Word(f), LParen], PrintArgs(args));
      SidesJoin([Word(f), LParen] + PrintArgs(args), [RParen]);
    case Var(_) =>
    case Lit(_) =>
    case Field(b, w) =>
      PrintedSides(b);
      SidesJoin(Print(b), [Dot, Word(w)]);
    case AnyField(b) =>
      PrintedSides(b);
      SidesJoin(Print(b), [Dot, Star]);
    case AnyIndex(b) =>
      PrintedSides(b);
      SidesJoin(Print(b), [LBracket, Star, RBracket]);
    case Index(b, i) =>
      PrintedIndexSides(b, i);
  }

  lemma {:induction false} PrintedIndexSides(b: Expr, i: Expr)
    ensures OperandTokens(Print(Index(b, i)))
    decreases Index(b, i), 0
  {
    PrintedSides(b);
    PrintedSides(i);
    SidesJoin(Print(b), [LBracket]);
    SidesJoin(Print(b) + [LBracket], Print(i));
    SidesJoin(Print(b) + [LBracket] + Print(i), [RBracket]);
  }

  lemma {:induction false} PrintedArgSides(args: Args)
    ensures args.Arg? ==> OperandTokens(PrintArgs(args))
    decreases args
  {
    if args.Arg? {
      PrintedSides(args.head);
      if args.rest.Arg? {
        PrintedArgSides(args.rest);
        SidesJoin(Print(args.head), [Comma]);
        SidesJoin(Print(args.head) + [Comma], PrintArgs(args.rest));
      }
    }
  }

  lemma {:induction false} SidesAreApart(ts: seq<Token>, next: string)
    requires Sides(ts) && forall t :: t in ts ==> ValidToken(t)
    requires ts != [] ==> Apart(ts[|ts| - 1], next)
    ensures AllApart(ts, next)
  {
    if ts != [] {
      forall i | 0 <= i < |ts[1..]| - 1
        ensures Side(ts[1..][i], ts[1..][i + 1])
      {
        assert Side(ts[i + 1], ts[i + 1 + 1]);
      }
      SidesAreApart(ts[1..], next);
      if 1 < |ts| {
        assert Side(ts[0], ts[0 + 1]);
        assert Spell(ts[1]) != [] && (SpellAll(ts[1..]) + next)[0] == Spell(ts[1])[0];
      }
    }
  }

  /* ---- evaluation ---- */

  datatype Value = Null | Bool(b: bool) | Number(n: int) | Text(s: string) | Object(id: int)

  /** What a run supplies: its contexts, its functions and the language's loose comparison. */
  datatype Context = Context(
    var_: string -> Value,
    field: (Value, string) -> Value,
    fields: Value -> Value,
    index: (Value, Value) -> Value,
    call: (string, seq<Value>) -> Value,
    compare: (Op, Value, Value) -> bool)

  predicate Truthy(v: Value) {
    match v
    case Null => false
    case Bool(b) => b
    case Number(n) => n != 0
    case Text(s) => s != ""
    case Object(_) => true
  }

  /** The text of a literal: the outer quotes go and a doubled quote becomes one. */
  function Unquoted(body: string): string {
    if |body| <= 1 then []
    else if body[0] == '\'' then [body[0]] + Unquoted(body[2..])
    else [body[0]] + Unquoted(body[1..])
  }

  /** `&&` and `||` give one of their operands, as the language does. */
  function Eval(c: Context, e: Expr): Value
    decreases e
  {
    match e
    case Bin(Or, l, r) => if Truthy(Eval(c, l)) then Eval(c, l) else Eval(c, r)
    case Bin(And, l, r) => if Truthy(Eval(c, l)) then Eval(c, r) else Eval(c, l)
    case Bin(op, l, r) => Bool(c.compare(op, Eval(c, l), Eval(c, r)))
    case Not(x) => Bool(!Truthy(Eval(c, x)))
    case Paren(x) => Eval(c, x)
    case Call(f, args) => c.call(f, EvalArgs(c, args))
    case Var(w) => c.var_(w)
    case Lit(text) => Text(if text == [] then [] else Unquoted(text[1..]))
    case Field(b, w) => c.field(Eval(c, b), w)
    case AnyField(b) => c.fields(Eval(c, b))
    case AnyIndex(b) => c.fields(Eval(c, b))
    case Index(b, i) => c.index(Eval(c, b), Eval(c, i))
  }

  function EvalArgs(c: Context, args: Args): seq<Value>
    decreases args
  {
    match args
    case NoArgs => []
    case Arg(e, rest) => [Eval(c, e)] + EvalArgs(c, rest)
  }

  /** Four values count as false and no other. */
  lemma FalseValues(v: Value)
    ensures !Truthy(v) <==> v in [Null, Bool(false), Number(0), Text("")]
  {
  }

  /** A literal stands for the text between its quotes. */
  lemma {:induction false} PlainLiteralText(body: string)
    requires '\'' !in body
    ensures Unquoted(body + "'") == body
  {
    if body != "" {
      assert (body + "'")[1..] == body[1..] + "'" && (body + "'")[0] == body[0];
      PlainLiteralText(body[1..]);
    }
  }

  lemma NegationHolds(c: Context, e: Expr)
    ensures Truthy(Eval(c, Not(e))) <==> !Truthy(Eval(c, e))
  {
  }
}
