/**
 * scripts/ci_runner_trust.py accepts a job's `if` by comparing compacted text. `AcceptedImpliesGuard` is
 * what that has to mean: whatever the accepted text, read as the language reads it, is true only when the
 * guard is.
 */
module RunnerTrust {
  import opened Wrappers
  import opened Expressions
  import opened GuardText
  import Text

  const LOADER := "the-cloud-clockwork/agentihooks/.github/workflows/runner-trust.yml@dev"
  const TRUST_JOB := "runner-trust"

  /* ---- the check on text ---- */

  function Unwrap(condition: string): string {
    var s := Text.Strip(condition);
    if |s| >= 5 && s[..3] == "${{" && s[|s| - 2..] == "}}" then Text.Strip(s[3..|s| - 2]) else s
  }

  /** Depth after the text, with literals skipped; None once it went below zero. */
  function DepthAfter(s: string, depth: nat): Option<nat> {
    if s == [] then Some(depth)
    else if s[0] == '\'' && PatternEnd(s[1..]).Some? then DepthAfter(s[1 + PatternEnd(s[1..]).value..], depth)
    else if s[0] == '(' then DepthAfter(s[1..], depth + 1)
    else if s[0] == ')' then if depth == 0 then None else DepthAfter(s[1..], depth - 1)
    else DepthAfter(s[1..], depth)
  }

  predicate ExtraAllowed(extra: string) {
    && extra != []
    && !Text.Contains(extra, "||")
    && '?' !in extra && '}' !in extra && '{' !in extra && '"' !in extra
    && DepthAfter(extra, 0) == Some(0)
  }

  predicate Accepts(guard: Expr, condition: string) {
    AcceptsText(TextOf(guard), Compact(Unwrap(condition)))
  }

  predicate AcceptsText(guard: string, text: string) {
    text == guard || (guard + "&&" <= text && ExtraAllowed(text[|guard| + 2..]))
  }

  method Balanced(extra: string) returns (ok: bool)
    ensures ok <==> DepthAfter(extra, 0) == Some(0)
  {
    var depth: nat, at := 0, 0;
    while at < |extra|
      invariant 0 <= at <= |extra|
      invariant DepthAfter(extra, 0) == DepthAfter(extra[at..], depth)
    {
      var end := if extra[at] == '\'' then PatternEnd(extra[at + 1..]) else None;
      TailOfTail(extra, at, 1, at + 1);
      if end.Some? {
        TailOfTail(extra, at, 1 + end.value, at + 1 + end.value);
        at := at + 1 + end.value;
      } else {
        if extra[at] == '(' {
          depth := depth + 1;
        } else if extra[at] == ')' {
          if depth == 0 {
            return false;
          }
          depth := depth - 1;
        }
        at := at + 1;
      }
    }
    return depth == 0;
  }

  lemma TailOfTail(s: string, at: nat, n: nat, next: nat)
    requires next == at + n <= |s|
    ensures s[at..][n..] == s[next..] && (at < |s| ==> s[at..] != [] && s[at..][0] == s[at])
  {
  }

  datatype Needs = NoNeeds | OneNeed(job: string) | Needs(jobs: seq<string>)

  datatype Job = Job(needs: Needs, condition: Option<string>, otherKeys: map<string, string>)

  const LOADER_JOB := Job(NoNeeds, None, map["uses" := LOADER])

  /** The text half of `_guarded`. */
  method TextAccepted(guard: string, text: string) returns (ok: bool)
    ensures ok <==> AcceptsText(guard, text)
  {
    if text == guard {
      return true;
    }
    if !(guard + "&&" <= text) {
      return false;
    }
    var extra := text[|guard| + 2..];
    if extra == [] || Text.Contains(extra, "||") || '?' in extra || '}' in extra || '{' in extra || '"' in extra {
      return false;
    }
    ok := Balanced(extra);
  }

  /** `_guarded` */
  method Guarded(job: Job, jobs: map<string, Job>) returns (ok: bool)
    ensures ok <==>
      && (job.needs == OneNeed("runner-trust") || (job.needs.Needs? && "runner-trust" in job.needs.jobs))
      && "runner-trust" in jobs && jobs["runner-trust"].needs.NoNeeds? && jobs["runner-trust"].condition.None?
      && jobs["runner-trust"].otherKeys ==
         map["uses" := "the-cloud-clockwork/agentihooks/.github/workflows/runner-trust.yml@dev"]
      && Accepts(Guard(), job.condition.GetOr(""))
  {
    var needs := match job.needs case NoNeeds => [] case OneNeed(n) => [n] case Needs(ns) => ns;
    if TRUST_JOB !in needs || TRUST_JOB !in jobs || jobs[TRUST_JOB] != LOADER_JOB {
      return false;
    }
    GuardIsItsText();
    ok := TextAccepted(Compact(GUARD), Compact(Unwrap(job.condition.GetOr(""))));
  }

  /* ---- compacting keeps what the lexer sees ---- */

  /** Compacting a text the lexer can read leaves exactly its tokens. */
  lemma {:induction false} CompactIsSpelling(s: string)
    requires Lex(s).Some?
    ensures Compact(s) == SpellAll(Lex(s).value)
  {
    if s != [] {
      if Text.IsSpace(s[0]) {
        CompactIsSpelling(s[1..]);
      } else {
        var t := FirstToken(s).value;
        var rest := s[|Spell(t)|..];
        CompactIsSpelling(rest);
        if s[0] == '\'' {
          PatternTakesLiteral(s[1..]);
        } else {
          TokenIsPlain(s);
          assert s == Spell(t) + rest;
          CompactKeeps(Spell(t), rest);
        }
      }
    }
  }

  lemma TokenIsPlain(s: string)
    requires s != [] && s[0] != '\'' && !Text.IsSpace(s[0]) && FirstToken(s).Some?
    ensures forall i :: 0 <= i < |Spell(FirstToken(s).value)| ==>
              Spell(FirstToken(s).value)[i] != '\'' && !Text.IsSpace(Spell(FirstToken(s).value)[i])
  {
  }

  lemma {:induction false} NoOrToken(s: string)
    requires Lex(s).Some? && !Text.Contains(s, "||")
    ensures Infix(Or) !in Lex(s).value
  {
    if s != [] {
      if Text.IsSpace(s[0]) {
        NoOrToken(s[1..]);
      } else {
        var t := FirstToken(s).value;
        var rest := s[|Spell(t)|..];
        assert s[|Spell(t)|..|s|] == rest;
        if Text.Contains(rest, "||") {
          Text.PieceHoldsNoMore(s, |Spell(t)|, |s|, "||");
        }
        NoOrToken(rest);
      }
    }
  }

  /* ---- the guard is a well formed conjunction ---- */

  lemma {:induction false} PrintedTokensAreValid(e: Expr)
    requires ValidLeaves(e)
    ensures forall t :: t in Print(e) ==> CleanToken(t)
    decreases e
  {
    match e
    case Bin(_, l, r) =>
      PrintedTokensAreValid(l);
      PrintedTokensAreValid(r);
    case Not(x) => PrintedTokensAreValid(x);
    case Paren(x) => PrintedTokensAreValid(x);
    case Call(f, args) => PrintedArgsAreValid(args);
    case Var(_) =>
    case Lit(_) =>
    case Field(b, _) => PrintedTokensAreValid(b);
    case AnyField(b) => PrintedTokensAreValid(b);
    case AnyIndex(b) => PrintedTokensAreValid(b);
    case Index(b, i) =>
      PrintedTokensAreValid(b);
      PrintedTokensAreValid(i);
  }

  lemma {:induction false} PrintedArgsAreValid(args: Args)
    requires ValidArgs(args)
    ensures forall t :: t in PrintArgs(args) ==> CleanToken(t)
    decreases args
  {
    if args.Arg? {
      PrintedTokensAreValid(args.head);
      PrintedArgsAreValid(args.rest);
    }
  }

  lemma {:induction false} PlainLiteral(body: string)
    requires forall i :: 0 <= i < |body| ==> body[i] != '\''
    ensures LiteralEnd(body + "'") == Some(|body| + 1)
  {
    if body != [] {
      assert (body + "'")[1..] == body[1..] + "'";
      PlainLiteral(body[1..]);
    }
  }

  lemma QuotedIsLiteral(body: string)
    requires (forall i :: 0 <= i < |body| ==> body[i] != '\'') && Braceless(body)
    ensures ValidLeaves(Quoted(body))
  {
    PlainLiteral(body);
    assert ("'" + body + "'")[1..] == body + "'";
  }

  /** A tree that can stand beside `&&`, with leaves the lexer reads back. */
  predicate Conjunct(e: Expr) {
    Fits(2, e) && ValidLeaves(e)
  }

  predicate Conjunction(e: Expr) {
    Fits(1, e) && ValidLeaves(e)
  }

  lemma {:induction false} AndAllIsConjunction(l: Expr, rs: seq<Expr>)
    requires Conjunction(l) && forall e :: e in rs ==> Conjunct(e)
    ensures Conjunction(AndAll(l, rs))
  {
    if rs != [] {
      assert rs[|rs| - 1] in rs;
      AndAllIsConjunction(l, rs[..|rs| - 1]);
    }
  }

  lemma EventIsConjunct(op: Op, name: string)
    requires op.Eq? || op.Ne?
    requires (forall i :: 0 <= i < |name| ==> name[i] != '\'') && Braceless(name)
    ensures Conjunct(Event(op, name)) && Conjunction(Event(op, name))
  {
    QuotedIsLiteral(name);
  }

  predicate PlainRef(body: string) {
    (forall i :: 0 <= i < |body| ==> body[i] != '\'') && Braceless(body)
  }

  lemma PushToIsConjunct(ref: string)
    requires PlainRef(ref)
    ensures Conjunct(PushTo(ref))
  {
    EventIsConjunct(Eq, "push");
    QuotedIsLiteral(ref);
    EqualityIsConjunct(GitHub("ref"), Quoted(ref));
    BothAreConjunct(Event(Eq, "push"), Bin(Eq, GitHub("ref"), Quoted(ref)));
  }

  lemma BothAreConjunct(a: Expr, b: Expr)
    requires Conjunction(a) && Conjunct(b)
    ensures Conjunct(Paren(Bin(And, a, b)))
  {
    assert Fits(0, Bin(And, a, b)) && ValidLeaves(Bin(And, a, b));
  }

  lemma FitsLooser(m: nat, n: nat, e: Expr)
    requires m <= n <= POSTFIX && Fits(n, e)
    ensures Fits(m, e)
  {
  }

  lemma OrIsConjunct(a: Expr, b: Expr)
    requires Fits(0, a) && ValidLeaves(a) && Conjunct(b)
    ensures Fits(0, Bin(Or, a, b)) && ValidLeaves(Bin(Or, a, b))
    ensures Conjunct(Paren(Bin(Or, a, b)))
  {
    FitsLooser(1, 2, b);
    assert Fits(0, Bin(Or, a, b)) && ValidLeaves(Bin(Or, a, b));
  }

  lemma OutputIsOperand(name: string)
    requires ValidWord(name)
    ensures Fits(POSTFIX, Output(name)) && ValidLeaves(Output(name))
    ensures Fits(POSTFIX, FromJson(Output(name))) && ValidLeaves(FromJson(Output(name)))
  {
    var needs := Field(Var("needs"), "runner-trust");
    assert Fits(POSTFIX, needs) && ValidLeaves(needs);
    assert Fits(POSTFIX, Field(needs, "outputs")) && ValidLeaves(Field(needs, "outputs"));
    assert Fits(POSTFIX, Output(name)) && ValidLeaves(Output(name));
    FitsLooser(0, POSTFIX, Output(name));
    assert ArgsFit(Arg(Output(name), NoArgs)) && ValidArgs(Arg(Output(name), NoArgs));
  }

  lemma QueueActorIsConjunct(identity: string)
    requires ValidWord(identity)
    ensures Conjunct(NotQueueActor(identity))
  {
    OutputIsOperand("queue_actor");
    FitsLooser(2, POSTFIX, GitHub(identity));
    FitsLooser(3, POSTFIX, FromJson(Output("queue_actor")));
    assert ValidLeaves(Var("github")) && ValidLeaves(GitHub(identity));
    assert ValidLeaves(NotQueueActor(identity));
  }

  lemma EitherIsConjunct(a: Expr, b: Expr, c: Expr)
    requires Conjunct(a) && Conjunct(b) && Conjunct(c)
    ensures Conjunct(EitherOf(a, b, c))
  {
    FitsLooser(0, 2, a);
    OrIsConjunct(a, b);
    OrIsConjunct(Bin(Or, a, b), c);
  }

  lemma MergeGroupIsConjunct()
    ensures Conjunct(Event(Eq, "merge_group"))
  {
    EventIsConjunct(Eq, "merge_group");
  }

  lemma PushToDevIsConjunct()
    ensures Conjunct(PushTo("refs/heads/dev"))
  {
    PushToIsConjunct("refs/heads/dev");
  }

  lemma QueueScopeIsConjunct(identity: string)
    requires ValidWord(identity)
    ensures Conjunct(QueueScope(identity))
  {
    MergeGroupIsConjunct();
    PushToDevIsConjunct();
    QueueActorIsConjunct(identity);
    EitherIsConjunct(NotQueueActor(identity), Event(Eq, "merge_group"), PushTo("refs/heads/dev"));
  }

  lemma FieldIsOperand(b: Expr, w: string)
    requires Fits(POSTFIX, b) && ValidLeaves(b) && ValidWord(w)
    ensures Fits(POSTFIX, Field(b, w)) && ValidLeaves(Field(b, w))
  {
  }

  lemma HeadRepositoryIsOperand()
    ensures Fits(POSTFIX, HeadRepository()) && ValidLeaves(HeadRepository())
  {
    var pull := Field(GitHub("event"), "pull_request");
    FieldIsOperand(GitHub("event"), "pull_request");
    FieldIsOperand(pull, "head");
    FieldIsOperand(Field(pull, "head"), "repo");
    FieldIsOperand(Field(Field(pull, "head"), "repo"), "full_name");
  }

  lemma EqualityIsConjunct(a: Expr, b: Expr)
    requires Fits(POSTFIX, a) && ValidLeaves(a) && Fits(POSTFIX, b) && ValidLeaves(b)
    ensures Conjunct(Bin(Eq, a, b)) && Conjunct(Bin(Ne, a, b))
  {
    FitsLooser(2, POSTFIX, a);
    FitsLooser(3, POSTFIX, b);
  }

  lemma SameRepositoryIsConjunct()
    ensures Conjunct(SameRepository())
  {
    EventIsConjunct(Ne, "pull_request");
    HeadRepositoryIsOperand();
    EqualityIsConjunct(HeadRepository(), GitHub("repository"));
    FitsLooser(0, 2, Event(Ne, "pull_request"));
    OrIsConjunct(Event(Ne, "pull_request"), Bin(Eq, HeadRepository(), GitHub("repository")));
  }

  lemma ApprovedIsConjunct(identity: string)
    requires ValidWord(identity)
    ensures Conjunct(Approved(identity))
  {
    OutputIsOperand("actors");
    FitsLooser(0, POSTFIX, FromJson(Output("actors")));
    assert Fits(0, GitHub(identity)) && ValidLeaves(GitHub(identity));
    var rest := Arg(GitHub(identity), NoArgs);
    assert ArgsFit(rest) && ValidArgs(rest);
    assert ArgsFit(Arg(FromJson(Output("actors")), rest)) && ValidArgs(Arg(FromJson(Output("actors")), rest));
  }

  lemma GuardConjunctsAre()
    ensures forall e :: e in GuardConjuncts() ==> Conjunct(e)
  {
    SameRepositoryIsConjunct();
    ApprovedIsConjunct("actor");
    ApprovedIsConjunct("triggering_actor");
    QueueScopeIsConjunct("actor");
    QueueScopeIsConjunct("triggering_actor");
    FiveConjuncts(SameRepository(), Approved("actor"), Approved("triggering_actor"), QueueScope("actor"),
                  QueueScope("triggering_actor"));
  }

  lemma FiveConjuncts(a: Expr, b: Expr, c: Expr, d: Expr, e: Expr)
    requires Conjunct(a) && Conjunct(b) && Conjunct(c) && Conjunct(d) && Conjunct(e)
    ensures forall x :: x in [a, b, c, d, e] ==> Conjunct(x)
  {
  }

  lemma GuardIsConjunction()
    ensures Conjunction(Guard())
  {
    EventIsConjunct(Ne, "pull_request_target");
    GuardConjunctsAre();
    AndAllIsConjunction(Event(Ne, "pull_request_target"), GuardConjuncts());
  }

  /* ---- what acceptance means ---- */

  lemma {:induction false} AndChainImplies(c: Context, l: Expr, ts: seq<Token>)
    requires Fits(1, l) && Chain(1, l, ts).Some?
    ensures Truthy(Eval(c, Chain(1, l, ts).value.tree)) ==> Truthy(Eval(c, l))
    decreases |ts|
  {
    if StartsOp(ts, 1) {
      var r := ParseAt(2, ts[1..]).value;
      AndChainImplies(c, Bin(ts[0].op, l, r.tree), r.rest);
    }
  }

  lemma SuffixOf<T>(a: seq<T>, b: seq<T>, c: seq<T>, d: seq<T>)
    requires a + b == c + d && |d| <= |b|
    ensures d == b[|b| - |d|..]
  {
    assert (a + b)[|a| + |b| - |d|..] == b[|b| - |d|..];
    assert (c + d)[|c|..] == d;
  }

  /** A conjunction followed by `&&` and tokens without `||` parses to something it is a conjunct of. */
  lemma ConjunctionKeepsPrefix(c: Context, g: Expr, more: seq<Token>)
    requires Fits(1, g) && Infix(Or) !in more
    requires Parse(Print(g) + ([Infix(And)] + more)).Some?
    ensures Truthy(Eval(c, Parse(Print(g) + ([Infix(And)] + more)).value)) ==> Truthy(Eval(c, g))
  {
    var tail := [Infix(And)] + more;
    PrintedTreeParses(1, g, tail);
    var l := Chain(1, g, tail).value;
    AndChainImplies(c, g, tail);
    SuffixOf(Print(g), tail, Print(l.tree), l.rest);
    assert Infix(Or) !in l.rest;
    assert !StartsOp(l.rest, 0);
    assert ParseAt(0, Print(g) + tail) == Chain(0, l.tree, l.rest);
    assert Parse(Print(g) + tail) == Some(l.tree);
  }

  lemma LexOfSpelling(ts: seq<Token>)
    requires AllApart(ts, "")
    ensures Lex(SpellAll(ts)) == Some(ts)
  {
    LexSpelled(ts, "");
    assert SpellAll(ts) + "" == SpellAll(ts) && ts + [] == ts;
  }

  /** Tokens that spell the guard's text and `&&` before some text are the guard's tokens, `&&` and that text's. */
  lemma SpellingWithMore(ts: seq<Token>, g: seq<Token>, extra: string) returns (more: seq<Token>)
    requires AllApart(ts, "") && Sides(g) && g != [] && EndsOperand(g[|g| - 1])
    requires forall t :: t in g ==> ValidToken(t)
    requires SpellAll(ts) == SpellAll(g) + "&&" + extra
    ensures Lex(extra) == Some(more) && ts == g + ([Infix(And)] + more)
  {
    LexOfSpelling(ts);
    GuardThenMore(g, extra);
    assert Prepend(g + [Infix(And)], Lex(extra)) == Some(ts);
    more := TakeMore(g, Infix(And), Lex(extra), ts);
  }

  lemma TakeMore(g: seq<Token>, t: Token, found: Option<seq<Token>>, ts: seq<Token>) returns (more: seq<Token>)
    requires Prepend(g + [t], found) == Some(ts)
    ensures found == Some(more) && ts == g + ([t] + more)
  {
    more := found.value;
  }

  lemma GuardThenMore(g: seq<Token>, extra: string)
    requires Sides(g) && g != [] && EndsOperand(g[|g| - 1])
    requires forall t :: t in g ==> ValidToken(t)
    ensures Lex(SpellAll(g) + "&&" + extra) == Prepend(g + [Infix(And)], Lex(extra))
  {
    var gs := g + [Infix(And)];
    SidesJoin(g, [Infix(And)]);
    SidesAreApart(gs, extra);
    LexSpelled(gs, extra);
    SpellAppend(g, Infix(And));
  }

  lemma {:induction false} SpellAppend(ts: seq<Token>, t: Token)
    ensures SpellAll(ts + [t]) == SpellAll(ts) + Spell(t)
  {
    if ts == [] {
      assert ts + [t] == [t];
    } else {
      assert (ts + [t])[1..] == ts[1..] + [t];
      SpellAppend(ts[1..], t);
    }
  }

  lemma AcceptedMoreTokens(g: Expr, ts: seq<Token>, extra: string) returns (more: seq<Token>)
    requires AllApart(ts, "") && ValidLeaves(g) && SpellAll(ts) == TextOf(g) + "&&" + extra
    requires !Text.Contains(extra, "||")
    ensures ts == Print(g) + ([Infix(And)] + more) && Infix(Or) !in more
  {
    PrintedTokensAreValid(g);
    PrintedSides(g);
    more := SpellingWithMore(ts, Print(g), extra);
    NoOrToken(extra);
  }

  /** The tokens of an accepted text are the guard's, alone or followed by `&&` and no `||`. */
  lemma AcceptedTokens(g: Expr, ts: seq<Token>) returns (more: Option<seq<Token>>)
    requires AllApart(ts, "") && ValidLeaves(g) && AcceptsText(TextOf(g), SpellAll(ts))
    ensures ts == Print(g) + if more.Some? then [Infix(And)] + more.value else []
    ensures more.Some? ==> Infix(Or) !in more.value
  {
    PrintedTokensAreValid(g);
    PrintedSides(g);
    if SpellAll(ts) == TextOf(g) {
      SidesAreApart(Print(g), "");
      LexOfSpelling(ts);
      LexOfSpelling(Print(g));
      more := None;
    } else {
      var extra := SpellAll(ts)[|TextOf(g)| + 2..];
      assert SpellAll(ts) == TextOf(g) + "&&" + extra;
      var found := AcceptedMoreTokens(g, ts, extra);
      more := Some(found);
    }
  }

  /** For any guard that is a conjunction. */
  lemma AcceptedImplies(g: Expr, condition: string, c: Context)
    requires Accepts(g, condition) && Conjunction(g)
    requires Lex(Unwrap(condition)).Some? && Parse(Lex(Unwrap(condition)).value).Some?
    requires Truthy(Eval(c, Parse(Lex(Unwrap(condition)).value).value))
    ensures Truthy(Eval(c, g))
  {
    var ts := Lex(Unwrap(condition)).value;
    PrintedSides(Parse(ts).value);
    LexedTokensAreValid(Unwrap(condition));
    SidesAreApart(ts, "");
    CompactIsSpelling(Unwrap(condition));
    var more := AcceptedTokens(g, ts);
    if more.None? {
      assert ts == Print(g);
      FitsBelow(g);
      ParsePrint(g);
    } else {
      ConjunctionKeepsPrefix(c, g, more.value);
    }
  }

  lemma FitsBelow(e: Expr)
    requires Fits(1, e)
    ensures Fits(0, e)
  {
  }

  /**
   * An accepted condition that is this expression, bare or in a wrapper, is true only in runs in which the guard
   * is: the expression is read by the language's own lexer and grammar. `ConditionShape` says that each condition
   * is of one of the two forms, and `AcceptedIsOneExpression` that an accepted one holds no brace inside.
   */
  lemma AcceptedImpliesGuard(condition: string, e: string, a: string, b: string, c: string, d: string, context: Context)
    requires Text.AllSpace(a) && Text.AllSpace(b) && Text.AllSpace(c) && Text.AllSpace(d)
    requires Text.Trimmed(e) && '{' !in e && '}' !in e
    requires condition == a + e + b || condition == a + "${{" + c + e + d + "}}" + b
    requires Accepts(Guard(), condition)
    requires Lex(e).Some? && Parse(Lex(e).value).Some? && Truthy(Eval(context, Parse(Lex(e).value).value))
    ensures Truthy(Eval(context, Guard()))
  {
    ConditionText(e, a, b, c, d);
    GuardIsConjunction();
    AcceptedImplies(Guard(), condition, context);
  }

  /** The text that conditions are compared with is the spelling of the guard's tree. */
  lemma GuardIsItsText()
    ensures Compact(GUARD) == TextOf(Guard())
  {
    GuardIsConjunction();
    GuardSource();
    WrittenCompactsToSpelling(Guard());
  }

  lemma BracelessToken(t: Token)
    requires CleanToken(t)
    ensures Braceless(Spell(t))
  {
    match t
    case Word(w) => assert forall c :: c in w ==> IsWordChar(c);
    case _ =>
  }

  lemma {:induction false} BracelessSpelling(ts: seq<Token>)
    requires forall t :: t in ts ==> CleanToken(t)
    ensures Braceless(SpellAll(ts))
  {
    if ts != [] {
      BracelessToken(ts[0]);
      BracelessSpelling(ts[1..]);
    }
  }

  lemma {:induction false} CompactKeepsBraces(s: string)
    requires Braceless(Compact(s))
    ensures Braceless(s)
  {
    if s != [] {
      if s[0] == '\'' && PatternEnd(s[1..]).Some? {
        var n := 1 + PatternEnd(s[1..]).value;
        CompactKeepsBraces(s[n..]);
        assert s == s[..n] + s[n..];
      } else {
        CompactKeepsBraces(s[1..]);
      }
    }
  }

  lemma BracelessParts(a: string, b: string)
    requires Braceless(a) && Braceless(b)
    ensures Braceless(a + "&&" + b)
  {
  }

  lemma AcceptedTextIsBraceless(guard: string, text: string)
    requires Braceless(guard) && AcceptsText(guard, text)
    ensures Braceless(text)
  {
    if text != guard {
      var extra := text[|guard| + 2..];
      assert text == guard + "&&" + extra;
      BracelessParts(guard, extra);
    }
  }

  lemma AcceptedIsBraceless(g: Expr, condition: string)
    requires Accepts(g, condition) && ValidLeaves(g)
    ensures Braceless(Unwrap(condition))
  {
    PrintedTokensAreValid(g);
    BracelessSpelling(Print(g));
    AcceptedTextIsBraceless(TextOf(g), Compact(Unwrap(condition)));
    CompactKeepsBraces(Unwrap(condition));
  }

  /**
   * An accepted condition is one expression without a brace, and the wrapper, when there is one, surrounds all of it
   * and not the first and last of several.
   */
  lemma AcceptedIsOneExpression(condition: string) returns (e: string, a: string, b: string, c: string, d: string)
    requires Accepts(Guard(), condition)
    ensures Text.AllSpace(a) && Text.AllSpace(b) && Text.AllSpace(c) && Text.AllSpace(d)
    ensures Text.Trimmed(e) && '{' !in e && '}' !in e
    ensures condition == a + e + b || condition == a + "${{" + c + e + d + "}}" + b
  {
    GuardIsConjunction();
    AcceptedIsBraceless(Guard(), condition);
    e := Unwrap(condition);
    a, b, c, d := ConditionShape(condition);
  }

  /* ---- the condition and its text ---- */

  /** What is compared is the expression: the wrapper and the white space around and in it go, and nothing else. */
  lemma ConditionText(e: string, a: string, b: string, c: string, d: string)
    requires Text.AllSpace(a) && Text.AllSpace(b) && Text.AllSpace(c) && Text.AllSpace(d)
    requires Text.Trimmed(e) && '{' !in e && '}' !in e
    ensures Unwrap(a + e + b) == e
    ensures Unwrap(a + "${{" + c + e + d + "}}" + b) == e
  {
    Text.StripPadded(a, e, b);
    Text.StripPadded(c, e, d);
    WrapperPeels("${{", c + e + d, "}}", a, b);
    SevenStrings(a, "${{", c, e, d, "}}", b);
  }

  lemma SevenStrings(a: string, open: string, c: string, e: string, d: string, close: string, b: string)
    ensures a + (open + (c + e + d) + close) + b == a + open + c + e + d + close + b
  {
  }

  lemma WrapperPeels(open: string, inner: string, close: string, a: string, b: string)
    requires open == "${{" && close == "}}" && Text.AllSpace(a) && Text.AllSpace(b)
    ensures Unwrap(a + (open + inner + close) + b) == Text.Strip(inner)
  {
    var whole := open + inner + close;
    assert whole[0] == '$' && whole[|whole| - 1] == '}';
    Text.StripPadded(a, whole, b);
    assert whole[..3] == open && whole[|whole| - 2..] == close && whole[3..|whole| - 2] == inner;
  }

  /** And every condition is what is compared, in white space, or in a wrapper that may hold more of it. */
  lemma ConditionShape(condition: string) returns (a: string, b: string, c: string, d: string)
    ensures Text.AllSpace(a) && Text.AllSpace(b) && Text.AllSpace(c) && Text.AllSpace(d)
    ensures Text.Trimmed(Unwrap(condition))
    ensures condition == a + Unwrap(condition) + b || condition == a + "${{" + c + Unwrap(condition) + d + "}}" + b
  {
    a, b := Text.StripShape(condition);
    c, d := "", "";
    var s := Text.Strip(condition);
    if |s| >= 5 && s[..3] == "${{" && s[|s| - 2..] == "}}" {
      var inner := s[3..|s| - 2];
      c, d := Text.StripShape(inner);
      assert s == "${{" + inner + "}}";
      SevenStrings(a, "${{", c, Text.Strip(inner), d, "}}", b);
    }
  }

  /** A guard as it is written, and its tree. */
  predicate IsWritten(g: Expr, guard: string) {
    ValidLeaves(g) && guard == Source(g) && guard != "" && Text.Trimmed(guard) && guard[0] != '$'
  }

  lemma ConditionBehindGuard(guard: string, more: string)
    requires guard != "" && Text.Trimmed(guard) && guard[0] != '$' && more != "" && !Text.IsSpace(more[|more| - 1])
    ensures Unwrap(guard + more) == guard + more
  {
    var condition := guard + more;
    assert condition[0] == guard[0] && condition[|condition| - 1] == more[|more| - 1];
    Text.StripPadded("", condition, "");
    assert "" + condition + "" == condition;
  }

  /** What is compared with the guard when a sign and another expression stand behind it. */
  lemma JoinedText(g: Expr, guard: string, sign: string, x: string, more: string)
    requires IsWritten(g, guard) && Text.Trimmed(x) && x != "" && (sign == "&&" || sign == "||")
    requires more == " " + (sign + (" " + x))
    ensures Compact(Unwrap(guard + more)) == TextOf(g) + (sign + Compact(x))
  {
    ConditionBehindGuard(guard, more);
    SourceCompacts(g, more);
    SignCompacts(sign, x);
  }

  lemma SignCompacts(sign: string, x: string)
    requires sign == "&&" || sign == "||"
    ensures Compact(" " + (sign + (" " + x))) == sign + Compact(x)
  {
    SpaceCompacts(sign + (" " + x));
    CompactKeeps(sign, " " + x);
    SpaceCompacts(x);
  }

  lemma ConjunctionIsWritten(g: Expr, guard: string)
    requires Conjunction(g) && Source(g) == guard && guard != "" && guard[0] == 'g' && guard[|guard| - 1] == ')'
    ensures IsWritten(g, guard)
  {
  }

  /** The guard of the workflows is one such. */
  lemma GuardIsWritten()
    ensures IsWritten(Guard(), GUARD)
  {
    GuardIsConjunction();
    GuardSource();
    GuardEnds();
    ConjunctionIsWritten(Guard(), GUARD);
  }

  /** A job that also runs when something else holds is never guarded. */
  lemma OrBehindGuardIsRejected(g: Expr, guard: string, x: string)
    requires IsWritten(g, guard) && Text.Trimmed(x) && x != ""
    ensures !Accepts(g, guard + (" || " + x))
  {
    var or := "||";
    assert " " + (or + (" " + x)) == " || " + x;
    JoinedText(g, guard, or, x, " || " + x);
    NotTheSign(TextOf(g), or, Compact(x));
  }

  lemma NotTheSign(guard: string, sign: string, rest: string)
    requires sign == "||"
    ensures !(guard + "&&" <= guard + (sign + rest)) && guard + (sign + rest) != guard
  {
    var text := guard + (sign + rest);
    assert text[|guard|] == '|' && (guard + "&&")[|guard|] == '&';
  }

  /** How many more parentheses open in the text than close. */
  function Rise(s: string): int {
    if s == "" then 0 else (if s[0] == '(' then 1 else if s[0] == ')' then -1 else 0) + Rise(s[1..])
  }

  lemma {:induction false} DepthCounts(s: string, depth: nat)
    requires '\'' !in s
    ensures DepthAfter(s, depth).Some? <==> forall k :: 0 <= k <= |s| ==> 0 <= depth + Rise(s[..k])
    ensures DepthAfter(s, depth).Some? ==> DepthAfter(s, depth).value == depth + Rise(s)
  {
    if s != "" {
      var step := if s[0] == '(' then 1 else if s[0] == ')' then -1 else 0;
      if depth + step >= 0 {
        DepthCounts(s[1..], depth + step);
      }
      RisesBehind(s, depth, step);
    }
  }

  /** What stands in a literal is not counted. */
  lemma LiteralIsSkipped(text: string, s: string, depth: nat)
    requires IsLiteral(text) && Behind(s)
    ensures DepthAfter(text + s, depth) == DepthAfter(s, depth)
  {
    var body := text[1..];
    LiteralReadBack(body, s);
    PatternTakesLiteral(body + s);
    assert (text + s)[1..] == body + s && (text + s)[|text|..] == s;
  }

  lemma RisesBehind(s: string, depth: nat, step: int)
    requires s != "" && step == if s[0] == '(' then 1 else if s[0] == ')' then -1 else 0
    ensures
      (forall k :: 0 <= k <= |s| ==> 0 <= depth + Rise(s[..k])) <==>
      (forall k :: 0 <= k <= |s[1..]| ==> 0 <= depth + step + Rise(s[1..][..k]))
    ensures (forall k :: 0 <= k <= |s| ==> 0 <= depth + Rise(s[..k])) ==> depth + step >= 0
  {
    forall k | 1 <= k <= |s|
      ensures Rise(s[..k]) == step + Rise(s[1..][..k - 1])
    {
      assert s[..k][1..] == s[1..][..k - 1];
    }
    assert s[1..][..0] == "" == s[..0];
    forall k | 0 <= k <= |s[1..]|
      ensures Rise(s[..k + 1]) == step + Rise(s[1..][..k])
    {}
  }

  /**
   * What may stand behind the guard and its conjunction sign, said of a text without literal and white space: no
   * alternative, no character of the four, and every parenthesis closed behind where it opens.
   */
  lemma AndBehindGuardExactly(g: Expr, guard: string, x: string)
    requires IsWritten(g, guard)
    requires x != "" && forall i :: 0 <= i < |x| ==> x[i] != '\'' && !Text.IsSpace(x[i])
    ensures Accepts(g, guard + (" && " + x)) <==>
      && !Text.Contains(x, "||") && (forall c :: c in x ==> c !in ['?', '{', '}', '"'])
      && Rise(x) == 0 && forall k :: 0 <= k <= |x| ==> 0 <= Rise(x[..k])
  {
    AndIsAccepted(g, guard, x);
    AllowedExactly(x);
  }

  lemma AllowedExactly(x: string)
    requires x != "" && '\'' !in x
    ensures ExtraAllowed(x) <==>
      && !Text.Contains(x, "||") && (forall c :: c in x ==> c !in ['?', '{', '}', '"'])
      && Rise(x) == 0 && forall k :: 0 <= k <= |x| ==> 0 <= Rise(x[..k])
  {
    DepthCounts(x, 0);
  }

  lemma AndIsAccepted(g: Expr, guard: string, x: string)
    requires IsWritten(g, guard)
    requires x != "" && forall i :: 0 <= i < |x| ==> x[i] != '\'' && !Text.IsSpace(x[i])
    ensures Accepts(g, guard + (" && " + x)) <==> ExtraAllowed(x)
  {
    var and := "&&";
    assert " " + (and + (" " + x)) == " && " + x;
    JoinedText(g, guard, and, x, " && " + x);
    CompactKeeps(x, "");
    assert x + "" == x;
    BehindSign(TextOf(g), and, x);
  }

  lemma BehindSign(guard: string, sign: string, x: string)
    requires sign == "&&" && x != ""
    ensures AcceptsText(guard, guard + (sign + x)) <==> ExtraAllowed(x)
  {
    var text := guard + (sign + x);
    assert text == guard + sign + x && text[|guard| + 2..] == x;
    assert |text| > |guard|;
  }

  /** The guard alone is accepted, bare and in its wrapper, however either is spaced. */
  lemma GuardIsAccepted(g: Expr, guard: string, a: string, b: string, c: string, d: string)
    requires IsWritten(g, guard)
    requires Text.AllSpace(a) && Text.AllSpace(b) && Text.AllSpace(c) && Text.AllSpace(d)
    ensures Accepts(g, a + guard + b) && Accepts(g, a + "${{" + c + guard + d + "}}" + b)
  {
    WrittenCompactsToSpelling(g);
    PrintedTokensAreValid(g);
    BracelessSpelling(Print(g));
    CompactKeepsBraces(guard);
    ConditionText(guard, a, b, c, d);
  }

  lemma GuardEnds()
    ensures GUARD != "" && GUARD[0] == 'g' && GUARD[|GUARD| - 1] == ')'
  {
    var queue := QueueText("triggering_actor", QUEUE_ACTOR, MERGE_GROUP, PUSH_TO_DEV);
    GuardOfEnds(
      NOT_TARGET, NO_PULL_REQUEST, SAME_REPOSITORY,
      ApprovedText(ACTORS, "actor"), ApprovedText(ACTORS, "triggering_actor"),
      QueueText("actor", QUEUE_ACTOR, MERGE_GROUP, PUSH_TO_DEV), queue);
    assert NOT_TARGET[0] == 'g' && queue[|queue| - 1] == ')';
  }

  lemma GuardOfEnds(
    notTarget: string, noPull: string, same: string, approved: string, approvedTrigger: string, queue: string,
    queueTrigger: string)
    requires notTarget != "" && queueTrigger != ""
    ensures
      var guard := GuardOf(notTarget, noPull, same, approved, approvedTrigger, queue, queueTrigger);
      guard != "" && guard[0] == notTarget[0] && guard[|guard| - 1] == queueTrigger[|queueTrigger| - 1]
  {
  }

  /* ---- what the guard says ---- */

  function GitHubValue(c: Context, field: string): Value {
    c.field(c.var_("github"), field)
  }

  function TrustOutput(c: Context, name: string): Value {
    c.call("fromJSON", [c.field(c.field(c.field(c.var_("needs"), "runner-trust"), "outputs"), name)])
  }

  lemma QuotedValue(c: Context, body: string)
    requires '\'' !in body
    ensures Eval(c, Quoted(body)) == Value.Text(body)
  {
    PlainLiteralText(body);
    assert ("'" + body + "'")[1..] == body + "'";
  }

  lemma {:induction false} AllHold(c: Context, l: Expr, rs: seq<Expr>)
    ensures Truthy(Eval(c, AndAll(l, rs))) <==> Truthy(Eval(c, l)) && forall e :: e in rs ==> Truthy(Eval(c, e))
  {
    if rs != [] {
      var front, last := rs[..|rs| - 1], rs[|rs| - 1];
      AllHold(c, l, front);
      BothHold(c, AndAll(l, front), last);
      assert rs == front + [last];
    }
  }

  lemma BothHold(c: Context, l: Expr, r: Expr)
    ensures Truthy(Eval(c, Bin(And, l, r))) <==> Truthy(Eval(c, l)) && Truthy(Eval(c, r))
    ensures Eval(c, Paren(Bin(And, l, r))) == Eval(c, Bin(And, l, r))
  {
  }

  lemma OneHolds(c: Context, l: Expr, r: Expr)
    ensures Truthy(Eval(c, Bin(Or, l, r))) <==> Truthy(Eval(c, l)) || Truthy(Eval(c, r))
    ensures Eval(c, Paren(Bin(Or, l, r))) == Eval(c, Bin(Or, l, r))
  {
  }

  lemma ComparisonHolds(c: Context, op: Op, l: Expr, r: Expr)
    requires op == Eq || op == Ne
    ensures Truthy(Eval(c, Bin(op, l, r))) <==> c.compare(op, Eval(c, l), Eval(c, r))
  {
  }

  lemma GitHubIs(c: Context, field: string)
    ensures Eval(c, GitHub(field)) == GitHubValue(c, field)
  {
  }

  /** The event is, or is not, of this name. */
  lemma EventHolds(c: Context, op: Op, name: string)
    requires (op == Eq || op == Ne) && '\'' !in name
    ensures Truthy(Eval(c, Event(op, name))) <==> c.compare(op, GitHubValue(c, "event_name"), Value.Text(name))
  {
    QuotedValue(c, name);
    GitHubIs(c, "event_name");
    ComparisonHolds(c, op, GitHub("event_name"), Quoted(name));
  }

  /** The identity is an approved one. */
  predicate IsApproved(c: Context, identity: string) {
    Truthy(c.call("contains", [TrustOutput(c, "actors"), GitHubValue(c, identity)]))
  }

  /** The queue's own identity comes only with a merge group or a push to dev. */
  predicate InQueueScope(c: Context, identity: string) {
    var event := GitHubValue(c, "event_name");
    || c.compare(Ne, GitHubValue(c, identity), TrustOutput(c, "queue_actor"))
    || c.compare(Eq, event, Value.Text("merge_group"))
    || (c.compare(Eq, event, Value.Text("push")) && c.compare(Eq, GitHubValue(c, "ref"), Value.Text("refs/heads/dev")))
  }

  /** A pull request comes from the repository itself. */
  predicate FromOwnRepository(c: Context) {
    var head := c.field(c.field(c.field(GitHubValue(c, "event"), "pull_request"), "head"), "repo");
    || c.compare(Ne, GitHubValue(c, "event_name"), Value.Text("pull_request"))
    || c.compare(Eq, c.field(head, "full_name"), GitHubValue(c, "repository"))
  }

  lemma OneArg(c: Context, f: string, e: Expr)
    ensures Eval(c, Call(f, Arg(e, NoArgs))) == c.call(f, [Eval(c, e)])
  {
    assert EvalArgs(c, NoArgs) == [];
    assert EvalArgs(c, Arg(e, NoArgs)) == [Eval(c, e)];
  }

  lemma TwoArgs(c: Context, f: string, d: Expr, e: Expr)
    ensures Eval(c, Call(f, Arg(d, Arg(e, NoArgs)))) == c.call(f, [Eval(c, d), Eval(c, e)])
  {
    assert EvalArgs(c, Arg(e, NoArgs)) == [Eval(c, e)];
    assert EvalArgs(c, Arg(d, Arg(e, NoArgs))) == [Eval(c, d), Eval(c, e)];
  }

  lemma OutputValue(c: Context, name: string)
    ensures Eval(c, FromJson(Output(name))) == TrustOutput(c, name)
  {
    OneArg(c, "fromJSON", Output(name));
  }

  lemma ApprovedHolds(c: Context, identity: string)
    ensures Truthy(Eval(c, Approved(identity))) <==> IsApproved(c, identity)
  {
    OutputValue(c, "actors");
    TwoArgs(c, "contains", FromJson(Output("actors")), GitHub(identity));
  }

  lemma PushHolds(c: Context, ref: string)
    requires '\'' !in ref
    ensures Truthy(Eval(c, PushTo(ref))) <==>
            && c.compare(Eq, GitHubValue(c, "event_name"), Value.Text("push"))
            && c.compare(Eq, GitHubValue(c, "ref"), Value.Text(ref))
  {
    EventHolds(c, Eq, "push");
    QuotedValue(c, ref);
    GitHubIs(c, "ref");
    ComparisonHolds(c, Eq, GitHub("ref"), Quoted(ref));
    BothHold(c, Event(Eq, "push"), Bin(Eq, GitHub("ref"), Quoted(ref)));
  }

  lemma EitherHolds(c: Context, x: Expr, y: Expr, z: Expr)
    ensures Truthy(Eval(c, EitherOf(x, y, z))) <==> Truthy(Eval(c, x)) || Truthy(Eval(c, y)) || Truthy(Eval(c, z))
  {
    OneHolds(c, Bin(Or, x, y), z);
    OneHolds(c, x, y);
  }

  lemma ScopeHolds(c: Context, identity: string)
    ensures Truthy(Eval(c, QueueScope(identity))) <==> InQueueScope(c, identity)
  {
    OutputValue(c, "queue_actor");
    EventHolds(c, Eq, "merge_group");
    PushHolds(c, "refs/heads/dev");
    EitherHolds(c, NotQueueActor(identity), Event(Eq, "merge_group"), PushTo("refs/heads/dev"));
    GitHubIs(c, identity);
    ComparisonHolds(c, Ne, GitHub(identity), FromJson(Output("queue_actor")));
  }

  lemma RepositoryHolds(c: Context)
    ensures Truthy(Eval(c, SameRepository())) <==> FromOwnRepository(c)
  {
    EventHolds(c, Ne, "pull_request");
    GitHubIs(c, "repository");
    GitHubIs(c, "event");
    HeadIs(c, GitHub("event"));
    ComparisonHolds(c, Eq, HeadRepository(), GitHub("repository"));
    OneHolds(c, Event(Ne, "pull_request"), Bin(Eq, HeadRepository(), GitHub("repository")));
  }

  lemma FieldIs(c: Context, b: Expr, w: string)
    ensures Eval(c, Field(b, w)) == c.field(Eval(c, b), w)
  {
  }

  lemma HeadIs(c: Context, event: Expr)
    requires event == GitHub("event")
    ensures Eval(c, HeadRepository()) ==
            c.field(c.field(c.field(c.field(Eval(c, event), "pull_request"), "head"), "repo"), "full_name")
  {
    var pull := Field(event, "pull_request");
    FieldIs(c, event, "pull_request");
    FieldIs(c, pull, "head");
    FieldIs(c, Field(pull, "head"), "repo");
    FieldIs(c, Field(Field(pull, "head"), "repo"), "full_name");
  }

  /**
   * The guard is true exactly in runs that are no pull_request_target, come from the repository itself when they are a
   * pull request, and are started and triggered by approved identities, the queue's own only in its scope.
   */
  lemma GuardHoldsExactly(c: Context)
    ensures Truthy(Eval(c, Guard())) <==>
            && c.compare(Ne, GitHubValue(c, "event_name"), Value.Text("pull_request_target")) && FromOwnRepository(c)
            && IsApproved(c, "actor") && IsApproved(c, "triggering_actor")
            && InQueueScope(c, "actor") && InQueueScope(c, "triggering_actor")
  {
    EventHolds(c, Ne, "pull_request_target");
    RepositoryHolds(c);
    ApprovedHolds(c, "actor");
    ApprovedHolds(c, "triggering_actor");
    ScopeHolds(c, "actor");
    ScopeHolds(c, "triggering_actor");
    AllHold(c, Event(Ne, "pull_request_target"), GuardConjuncts());
    FiveHold(
      e => Truthy(Eval(c, e)), SameRepository(), Approved("actor"), Approved("triggering_actor"), QueueScope("actor"),
      QueueScope("triggering_actor"));
  }

  lemma FiveHold(holds: Expr -> bool, p: Expr, q: Expr, r: Expr, s: Expr, t: Expr)
    ensures (forall e :: e in [p, q, r, s, t] ==> holds(e)) <==> holds(p) && holds(q) && holds(r) && holds(s) && holds(t)
  {
    assert p in [p, q, r, s, t];
  }
}
