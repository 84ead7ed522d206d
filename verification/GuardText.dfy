/**
 * The guard of scripts/ci_runner_trust.py, as the text that the script compares with and as the tree that the text
 * means. `GuardSource` ties them: the text is the tree as it is written, and `WrittenCompactsToSpelling` says
 * that a written tree compacts to the spelling of its tokens.
 */
module GuardText {
  import opened Wrappers
  import opened Expressions
  import Text

  /* ---- the guard ---- */

  function Quoted(body: string): Expr {
    Lit("'" + body + "'")
  }

  function GitHub(field: string): Expr {
    Field(Var("github"), field)
  }

  function Output(name: string): Expr {
    Field(Field(Field(Var("needs"), "runner-trust"), "outputs"), name)
  }

  function FromJson(e: Expr): Expr {
    Call("fromJSON", Arg(e, NoArgs))
  }

  function Approved(identity: string): Expr {
    Call("contains", Arg(FromJson(Output("actors")), Arg(GitHub(identity), NoArgs)))
  }

  function Event(op: Op, name: string): Expr {
    Bin(op, GitHub("event_name"), Quoted(name))
  }

  function PushTo(ref: string): Expr {
    Paren(Bin(And, Event(Eq, "push"), Bin(Eq, GitHub("ref"), Quoted(ref))))
  }

  function EitherOf(a: Expr, b: Expr, c: Expr): Expr {
    Paren(Bin(Or, Bin(Or, a, b), c))
  }

  function NotQueueActor(identity: string): Expr {
    Bin(Ne, GitHub(identity), FromJson(Output("queue_actor")))
  }

  /** The queue identity may act only for a merge group or a push to dev. */
  function QueueScope(identity: string): Expr {
    EitherOf(NotQueueActor(identity), Event(Eq, "merge_group"), PushTo("refs/heads/dev"))
  }

  function HeadRepository(): Expr {
    Field(Field(Field(Field(GitHub("event"), "pull_request"), "head"), "repo"), "full_name")
  }

  function SameRepository(): Expr {
    Paren(Bin(Or, Event(Ne, "pull_request"), Bin(Eq, HeadRepository(), GitHub("repository"))))
  }

  function GuardConjuncts(): seq<Expr> {
    [SameRepository(), Approved("actor"), Approved("triggering_actor"), QueueScope("actor"),
     QueueScope("triggering_actor")]
  }

  /** The conjunction of all, associated to the left as `&&` is. */
  function AndAll(l: Expr, rs: seq<Expr>): Expr {
    if rs == [] then l else Bin(And, AndAll(l, rs[..|rs| - 1]), rs[|rs| - 1])
  }

  function Guard(): Expr {
    AndAll(Event(Ne, "pull_request_target"), GuardConjuncts())
  }

  /** What compacting a guard's text leaves, however it is spaced (`CompactIsSpelling`). */
  function TextOf(guard: Expr): string {
    SpellAll(Print(guard))
  }

  /* ---- compacting ---- */

  /** Where the pattern '(?:''|[^'])*' stops, with its backtracking on an unclosed doubled quote. */
  function PatternEnd(s: string): (n: Option<nat>)
    ensures n.Some? ==> 0 < n.value <= |s|
  {
    if s == [] then None
    else if s[0] != '\'' then After(1, PatternEnd(s[1..]))
    else if 2 <= |s| && s[1] == '\'' then
      var n := PatternEnd(s[2..]);
      if n.Some? then After(2, n) else Some(1)
    else Some(1)
  }

  /** `_compact`: spaces go, string literals stay whole. */
  function Compact(s: string): string {
    if s == [] then []
    else if s[0] == '\'' && PatternEnd(s[1..]).Some? then
      var n := 1 + PatternEnd(s[1..]).value;
      s[..n] + Compact(s[n..])
    else if Text.IsSpace(s[0]) then Compact(s[1..])
    else [s[0]] + Compact(s[1..])
  }

  lemma {:induction false} PatternTakesLiteral(s: string)
    requires LiteralEnd(s).Some?
    ensures PatternEnd(s) == LiteralEnd(s)
  {
    if s[0] != '\'' {
      PatternTakesLiteral(s[1..]);
    } else if 2 <= |s| && s[1] == '\'' {
      PatternTakesLiteral(s[2..]);
    }
  }

  lemma {:induction false} CompactKeeps(plain: string, s: string)
    requires forall i :: 0 <= i < |plain| ==> plain[i] != '\'' && !Text.IsSpace(plain[i])
    ensures Compact(plain + s) == plain + Compact(s)
  {
    if plain == [] {
      assert plain + s == s;
    } else {
      assert (plain + s)[1..] == plain[1..] + s;
      CompactKeeps(plain[1..], s);
    }
  }

  /* ---- leaves the lexer reads back ---- */

  predicate Braceless(s: string) {
    '{' !in s && '}' !in s
  }

  predicate CleanToken(t: Token) {
    ValidToken(t) && (t.Str? ==> Braceless(t.literal))
  }

  predicate ValidWord(w: string) {
    w != [] && forall i :: 0 <= i < |w| ==> IsWordChar(w[i])
  }

  predicate ValidLeaves(e: Expr)
    decreases e
  {
    match e
    case Bin(_, l, r) => ValidLeaves(l) && ValidLeaves(r)
    case Not(x) => ValidLeaves(x)
    case Paren(x) => ValidLeaves(x)
    case Call(f, args) => ValidWord(f) && ValidArgs(args)
    case Var(w) => ValidWord(w)
    case Lit(text) => CleanToken(Str(text))
    case Field(b, w) => ValidLeaves(b) && ValidWord(w)
    case AnyField(b) => ValidLeaves(b)
    case Index(b, i) => ValidLeaves(b) && ValidLeaves(i)
    case AnyIndex(b) => ValidLeaves(b)
  }

  predicate ValidArgs(args: Args)
    decreases args
  {
    args.Arg? ==> ValidLeaves(args.head) && ValidArgs(args.rest)
  }

  /* ---- a tree as it is written ---- */

  /** The text of a tree, with spaces around operators and behind commas. */
  function Source(e: Expr): string {
    match e
    case Bin(op, l, r) => Source(l) + " " + Spell(Infix(op)) + " " + Source(r)
    case Not(x) => "!" + Source(x)
    case Paren(x) => "(" + Source(x) + ")"
    case Call(f, args) => f + "(" + SourceArgs(args) + ")"
    case Var(w) => w
    case Lit(text) => text
    case Field(b, w) => Source(b) + "." + w
    case AnyField(b) => Source(b) + ".*"
    case Index(b, i) => Source(b) + "[" + Source(i) + "]"
    case AnyIndex(b) => Source(b) + "[*]"
  }

  function SourceArgs(args: Args): string {
    match args
    case NoArgs => ""
    case Arg(e, NoArgs) => Source(e)
    case Arg(e, rest) => Source(e) + ", " + SourceArgs(rest)
  }

  lemma {:induction false} SpellJoin(a: seq<Token>, b: seq<Token>)
    ensures SpellAll(a + b) == SpellAll(a) + SpellAll(b)
  {
    if a == [] {
      assert a + b == b;
    } else {
      assert (a + b)[1..] == a[1..] + b;
      SpellJoin(a[1..], b);
    }
  }

  lemma SpellOne(t: Token)
    ensures SpellAll([t]) == Spell(t)
  {
    assert [t][1..] == [];
  }

  /** What may stand behind an expression: no quote that would double one of its own. */
  predicate Behind(s: string) {
    s == "" || s[0] != '\''
  }

  /** The text compacts to the tokens, and what stands behind it compacts on its own. */
  predicate CompactsTo(text: string, ts: seq<Token>, s: string) {
    Compact(text + s) == SpellAll(ts) + Compact(s)
  }

  predicate PlainText(p: string) {
    forall i :: 0 <= i < |p| ==> p[i] != '\'' && !Text.IsSpace(p[i])
  }

  lemma TokenCompacts(t: Token, s: string)
    requires PlainText(Spell(t))
    ensures CompactsTo(Spell(t), [t], s)
  {
    SpellOne(t);
    CompactKeeps(Spell(t), s);
  }

  lemma SpaceCompacts(s: string)
    ensures Compact(" " + s) == Compact(s)
  {
    assert (" " + s)[1..] == s;
  }

  lemma SpacesAround(a: string, ts: seq<Token>, s: string)
    requires CompactsTo(a, ts, " " + s)
    ensures CompactsTo(" " + a + " ", ts, s)
  {
    SpaceCompacts(s);
    SpaceCompacts(a + (" " + s));
    assert " " + a + " " + s == " " + (a + (" " + s));
  }

  lemma SpaceBehind(a: string, ts: seq<Token>, s: string)
    requires CompactsTo(a, ts, " " + s)
    ensures CompactsTo(a + " ", ts, s)
  {
    SpaceCompacts(s);
    assert a + " " + s == a + (" " + s);
  }

  lemma CompactsJoin(a: string, ts: seq<Token>, b: string, us: seq<Token>, s: string)
    requires CompactsTo(a, ts, b + s) && CompactsTo(b, us, s)
    ensures CompactsTo(a + b, ts + us, s)
  {
    SpellJoin(ts, us);
    ThreeStrings(a, b, s);
    ThreeStrings(SpellAll(ts), SpellAll(us), Compact(s));
  }

  lemma ThreeStrings(a: string, b: string, c: string)
    ensures a + b + c == a + (b + c)
  {
  }

  lemma WordIsPlain(w: string)
    requires ValidWord(w)
    ensures PlainText(w) && w[0] != '\''
  {
  }

  lemma LiteralCompacts(text: string, s: string)
    requires IsLiteral(text) && Behind(s)
    ensures CompactsTo(text, [Str(text)], s)
  {
    var body := text[1..];
    LiteralReadBack(body, s);
    assert (text + s)[1..] == body + s;
    PatternTakesLiteral(body + s);
    assert (text + s)[..|text|] == text && (text + s)[|text|..] == s;
    SpellOne(Str(text));
  }

  lemma OperatorsArePlain(op: Op)
    ensures PlainText(Spell(Infix(op)))
  {
  }

  lemma ThreeCompact(a: string, ts: seq<Token>, b: string, us: seq<Token>, c: string, vs: seq<Token>, s: string)
    requires CompactsTo(a, ts, b + (c + s)) && CompactsTo(b, us, c + s) && CompactsTo(c, vs, s)
    ensures CompactsTo(a + b + c, ts + us + vs, s)
  {
    CompactsJoin(a, ts, b, us, c + s);
    CompactsJoin(a + b, ts + us, c, vs, s);
  }

  lemma BinCompacts(op: Op, l: string, ls: seq<Token>, r: string, rs: seq<Token>, s: string)
    requires CompactsTo(l, ls, " " + Spell(Infix(op)) + " " + (r + s)) && CompactsTo(r, rs, s)
    ensures CompactsTo(l + " " + Spell(Infix(op)) + " " + r, ls + [Infix(op)] + rs, s)
  {
    var o := " " + Spell(Infix(op)) + " ";
    OperatorCompacts(op, r + s);
    ThreeCompact(l, ls, o, [Infix(op)], r, rs, s);
    FourStrings(l, " ", Spell(Infix(op)), " ", r);
  }

  lemma OperatorCompacts(op: Op, s: string)
    ensures CompactsTo(" " + Spell(Infix(op)) + " ", [Infix(op)], s)
  {
    OperatorsArePlain(op);
    TokenCompacts(Infix(op), " " + s);
    SpacesAround(Spell(Infix(op)), [Infix(op)], s);
  }

  lemma FourStrings(a: string, b: string, c: string, d: string, e: string)
    ensures a + (b + c + d) + e == a + b + c + d + e
  {
  }

  lemma WrappedCompacts(a: Token, x: string, xs: seq<Token>, b: Token, s: string)
    requires PlainText(Spell(a)) && PlainText(Spell(b)) && CompactsTo(x, xs, Spell(b) + s)
    ensures CompactsTo(Spell(a) + x + Spell(b), [a] + xs + [b], s)
  {
    TokenCompacts(b, s);
    TokenCompacts(a, x + (Spell(b) + s));
    ThreeCompact(Spell(a), [a], x, xs, Spell(b), [b], s);
  }

  lemma PairCompacts(x: string, xs: seq<Token>, a: Token, b: Token, s: string)
    requires PlainText(Spell(a)) && PlainText(Spell(b)) && CompactsTo(x, xs, Spell(a) + (Spell(b) + s))
    ensures CompactsTo(x + Spell(a) + Spell(b), xs + [a, b], s)
  {
    TokenCompacts(b, s);
    TokenCompacts(a, Spell(b) + s);
    ThreeCompact(x, xs, Spell(a), [a], Spell(b), [b], s);
    assert xs + [a] + [b] == xs + [a, b];
  }

  lemma IndexCompacts(x: string, xs: seq<Token>, i: string, ns: seq<Token>, s: string)
    requires CompactsTo(x, xs, "[" + i + "]" + s) && CompactsTo(i, ns, "]" + s)
    ensures CompactsTo(x + "[" + i + "]", xs + [LBracket] + ns + [RBracket], s)
  {
    WrappedCompacts(LBracket, i, ns, RBracket, s);
    CompactsJoin(x, xs, "[" + i + "]", [LBracket] + ns + [RBracket], s);
    assert x + ("[" + i + "]") == x + "[" + i + "]";
    assert xs + ([LBracket] + ns + [RBracket]) == xs + [LBracket] + ns + [RBracket];
  }

  lemma CallCompacts(f: string, args: string, ts: seq<Token>, s: string)
    requires ValidWord(f) && CompactsTo(args, ts, ")" + s)
    ensures CompactsTo(f + "(" + args + ")", [Word(f), LParen] + ts + [RParen], s)
  {
    WordIsPlain(f);
    WrappedCompacts(LParen, args, ts, RParen, s);
    TokenCompacts(Word(f), "(" + args + ")" + s);
    CompactsJoin(f, [Word(f)], "(" + args + ")", [LParen] + ts + [RParen], s);
    assert f + ("(" + args + ")") == f + "(" + args + ")";
    assert [Word(f)] + ([LParen] + ts + [RParen]) == [Word(f), LParen] + ts + [RParen];
  }

  /** A written tree compacts to its tokens, whatever stands behind it. */
  lemma {:induction false} SourceCompacts(e: Expr, s: string)
    requires ValidLeaves(e) && Behind(s)
    ensures CompactsTo(Source(e), Print(e), s)
    decreases e, 1
  {
    match e
    case Bin(op, l, r) =>
      SourceCompacts(r, s);
      SourceCompacts(l, " " + Spell(Infix(op)) + " " + (Source(r) + s));
      BinCompacts(op, Source(l), Print(l), Source(r), Print(r), s);
    case Not(x) =>
      SourceCompacts(x, s);
      TokenCompacts(Bang, Source(x) + s);
      CompactsJoin("!", [Bang], Source(x), Print(x), s);
    case Paren(x) =>
      SourceCompacts(x, ")" + s);
      WrappedCompacts(LParen, Source(x), Print(x), RParen, s);
    case Call(f, args) =>
      ArgsCompact(args, ")" + s);
      CallCompacts(f, SourceArgs(args), PrintArgs(args), s);
    case Var(w) =>
      WordIsPlain(w);
      TokenCompacts(Word(w), s);
    case Lit(text) => LiteralCompacts(text, s);
    case _ => PostfixCompacts(e, s);
  }

  lemma AnyFieldCompacts(x: string, xs: seq<Token>, s: string)
    requires CompactsTo(x, xs, ".*" + s)
    ensures CompactsTo(x + ".*", xs + [Dot, Star], s)
  {
    assert "." + ("*" + s) == ".*" + s;
    PairCompacts(x, xs, Dot, Star, s);
    assert x + "." + "*" == x + ".*";
  }

  lemma AnyIndexCompacts(x: string, xs: seq<Token>, s: string)
    requires CompactsTo(x, xs, "[*]" + s)
    ensures CompactsTo(x + "[*]", xs + [LBracket, Star, RBracket], s)
  {
    TokenCompacts(Star, "]" + s);
    assert "[" + "*" + "]" == "[*]";
    IndexCompacts(x, xs, "*", [Star], s);
    assert x + "[" + "*" + "]" == x + "[*]";
    assert xs + [LBracket] + [Star] + [RBracket] == xs + [LBracket, Star, RBracket];
  }

  lemma {:induction false} PostfixCompacts(e: Expr, s: string)
    requires (e.Field? || e.AnyField? || e.Index? || e.AnyIndex?) && ValidLeaves(e) && Behind(s)
    ensures CompactsTo(Source(e), Print(e), s)
    decreases e, 0
  {
    match e
    case Field(b, w) =>
      WordIsPlain(w);
      SourceCompacts(b, "." + (w + s));
      PairCompacts(Source(b), Print(b), Dot, Word(w), s);
    case AnyField(b) =>
      SourceCompacts(b, ".*" + s);
      AnyFieldCompacts(Source(b), Print(b), s);
    case Index(b, i) =>
      SourceCompacts(i, "]" + s);
      SourceCompacts(b, "[" + Source(i) + "]" + s);
      IndexCompacts(Source(b), Print(b), Source(i), Print(i), s);
    case AnyIndex(b) =>
      SourceCompacts(b, "[*]" + s);
      AnyIndexCompacts(Source(b), Print(b), s);
  }

  lemma {:induction false} ArgsCompact(args: Args, s: string)
    requires ValidArgs(args) && Behind(s)
    ensures CompactsTo(SourceArgs(args), PrintArgs(args), s)
    decreases args, 1
  {
    match args
    case NoArgs => assert "" + s == s;
    case Arg(e, NoArgs) => SourceCompacts(e, s);
    case Arg(e, rest) =>
      ArgsCompact(rest, s);
      TokenCompacts(Comma, " " + (SourceArgs(rest) + s));
      SpaceBehind(",", [Comma], SourceArgs(rest) + s);
      SourceCompacts(e, ", " + (SourceArgs(rest) + s));
      assert "," + " " == ", ";
      ThreeCompact(Source(e), Print(e), ", ", [Comma], SourceArgs(rest), PrintArgs(rest), s);
  }

  /** So a written tree compacts to the spelling of the tree. */
  lemma WrittenCompactsToSpelling(e: Expr)
    requires ValidLeaves(e)
    ensures Compact(Source(e)) == TextOf(e)
  {
    SourceCompacts(e, "");
    assert Source(e) + "" == Source(e) && Compact("") == "" && TextOf(e) + "" == TextOf(e);
  }

  /* ---- the guard's own text ---- */

  const NOT_TARGET := "github.event_name != 'pull_request_target'"
  const NO_PULL_REQUEST := "github.event_name != 'pull_request'"
  const MERGE_GROUP := "github.event_name == 'merge_group'"
  const PUSHED := "github.event_name == 'push'"
  const TO_DEV := "github.ref == 'refs/heads/dev'"
  const HEAD := "github.event.pull_request.head.repo.full_name"
  const OUTPUTS := "needs.runner-trust.outputs"

  const SAME_REPOSITORY := HEAD + " == " + "github.repository"
  const ACTORS := "fromJSON(" + (OUTPUTS + ".actors") + ")"
  const QUEUE_ACTOR := "fromJSON(" + (OUTPUTS + ".queue_actor") + ")"
  const PUSH_TO_DEV := "(" + (PUSHED + " && " + TO_DEV) + ")"
  const EVENT_NAME := "github.event_name"

  function ApprovedText(actors: string, identity: string): string {
    "contains(" + actors + ", github." + identity + ")"
  }

  function QueueText(identity: string, queueActor: string, mergeGroup: string, push: string): string {
    "(github." + identity + " != " + queueActor + " || " + mergeGroup + " || " + push + ")"
  }

  /** The guard, from its parts. */
  function GuardOf(
    notTarget: string, noPull: string, same: string, approved: string, approvedTrigger: string, queue: string,
    queueTrigger: string): string
  {
    notTarget + " && " + ("(" + (noPull + " || " + same) + ")") + " && " + approved + " && " + approvedTrigger
    + " && " + queue + " && " + queueTrigger
  }

  const GUARD := GuardOf(
    NOT_TARGET, NO_PULL_REQUEST, SAME_REPOSITORY,
    ApprovedText(ACTORS, "actor"), ApprovedText(ACTORS, "triggering_actor"),
    QueueText("actor", QUEUE_ACTOR, MERGE_GROUP, PUSH_TO_DEV),
    QueueText("triggering_actor", QUEUE_ACTOR, MERGE_GROUP, PUSH_TO_DEV))

  lemma FieldSource(b: Expr, w: string, text: string)
    requires Source(b) + ("." + w) == text
    ensures Source(Field(b, w)) == text
  {
  }

  lemma BinSource(op: Op, l: Expr, r: Expr)
    ensures Source(Bin(op, l, r)) == Source(l) + " " + Spell(Infix(op)) + " " + Source(r)
  {
  }

  lemma AndSource(l: Expr, r: Expr)
    ensures Source(Bin(And, l, r)) == Source(l) + " && " + Source(r)
  {
    BinSource(And, l, r);
    assert " " + "&&" + " " == " && ";
    assert Source(l) + " " + "&&" + " " + Source(r) == Source(l) + (" " + "&&" + " ") + Source(r);
  }

  lemma OrSource(l: Expr, r: Expr)
    ensures Source(Bin(Or, l, r)) == Source(l) + " || " + Source(r)
  {
    BinSource(Or, l, r);
    assert " " + "||" + " " == " || ";
    assert Source(l) + " " + "||" + " " + Source(r) == Source(l) + (" " + "||" + " ") + Source(r);
  }

  lemma GitHubSource(field: string)
    ensures Source(GitHub(field)) == "github." + field
  {
    assert "github" + ("." + field) == "github." + field;
    FieldSource(Var("github"), field, "github." + field);
  }

  lemma OutputsSource()
    ensures Source(Field(Field(Var("needs"), "runner-trust"), "outputs")) == OUTPUTS
  {
    FieldSource(Var("needs"), "runner-trust", "needs.runner-trust");
    FieldSource(Field(Var("needs"), "runner-trust"), "outputs", "needs.runner-trust.outputs");
  }

  lemma OutputSource(name: string, outputs: string, text: string)
    requires outputs == OUTPUTS && text == "fromJSON" + "(" + (outputs + ("." + name)) + ")"
    ensures Source(FromJson(Output(name))) == text
  {
    OutputsSource();
    FieldSource(Field(Field(Var("needs"), "runner-trust"), "outputs"), name, outputs + ("." + name));
    OneArgSource("fromJSON", Output(name));
  }

  lemma OneArgSource(f: string, e: Expr)
    ensures Source(Call(f, Arg(e, NoArgs))) == f + "(" + Source(e) + ")"
  {
    assert SourceArgs(Arg(e, NoArgs)) == Source(e);
  }

  lemma TwoArgSource(f: string, d: Expr, e: Expr)
    ensures Source(Call(f, Arg(d, Arg(e, NoArgs)))) == f + "(" + (Source(d) + ", " + Source(e)) + ")"
  {
    assert SourceArgs(Arg(e, NoArgs)) == Source(e);
  }

  lemma ActorText(outputs: string)
    ensures "fromJSON" + "(" + (outputs + ("." + "actors")) + ")" == "fromJSON(" + (outputs + ".actors") + ")"
    ensures "fromJSON" + "(" + (outputs + ("." + "queue_actor")) + ")" == "fromJSON(" + (outputs + ".queue_actor") + ")"
  {
    assert "fromJSON" + "(" == "fromJSON(" && "." + "actors" == ".actors" && "." + "queue_actor" == ".queue_actor";
  }

  lemma ActorSources()
    ensures Source(FromJson(Output("actors"))) == ACTORS
    ensures Source(FromJson(Output("queue_actor"))) == QUEUE_ACTOR
  {
    ActorText(OUTPUTS);
    OutputSource("actors", OUTPUTS, ACTORS);
    OutputSource("queue_actor", OUTPUTS, QUEUE_ACTOR);
  }

  lemma ApprovedSource(identity: string, actors: string)
    requires Source(FromJson(Output("actors"))) == actors
    ensures Source(Approved(identity)) == ApprovedText(actors, identity)
  {
    GitHubSource(identity);
    TwoArgSource("contains", FromJson(Output("actors")), GitHub(identity));
    ContainsText(actors, identity);
  }

  lemma ContainsText(actors: string, identity: string)
    ensures "contains" + "(" + (actors + ", " + ("github." + identity)) + ")" == ApprovedText(actors, identity)
  {
    assert "contains" + "(" == "contains(" && ", " + "github." == ", github.";
    assert actors + ", " + ("github." + identity) == actors + (", " + "github.") + identity;
  }

  lemma EventSource(op: Op, name: string, eventName: string, text: string)
    requires eventName == EVENT_NAME && text == eventName + " " + Spell(Infix(op)) + " " + ("'" + name + "'")
    ensures Source(Event(op, name)) == text
  {
    GitHubSource("event_name");
    assert "github." + "event_name" == eventName;
    BinSource(op, GitHub("event_name"), Quoted(name));
  }

  lemma NotTargetText()
    ensures NOT_TARGET == EVENT_NAME + " " + "!=" + " " + ("'" + "pull_request_target" + "'")
  {
  }

  lemma NoPullText()
    ensures NO_PULL_REQUEST == EVENT_NAME + " " + "!=" + " " + ("'" + "pull_request" + "'")
  {
  }

  lemma MergeGroupText()
    ensures MERGE_GROUP == EVENT_NAME + " " + "==" + " " + ("'" + "merge_group" + "'")
  {
  }

  lemma PushedText()
    ensures PUSHED == EVENT_NAME + " " + "==" + " " + ("'" + "push" + "'")
  {
  }

  lemma EventSources()
    ensures Source(Event(Ne, "pull_request_target")) == NOT_TARGET
    ensures Source(Event(Ne, "pull_request")) == NO_PULL_REQUEST
    ensures Source(Event(Eq, "merge_group")) == MERGE_GROUP
    ensures Source(Event(Eq, "push")) == PUSHED
  {
    NotTargetText();
    NoPullText();
    MergeGroupText();
    PushedText();
    EventSource(Ne, "pull_request_target", EVENT_NAME, NOT_TARGET);
    EventSource(Ne, "pull_request", EVENT_NAME, NO_PULL_REQUEST);
    EventSource(Eq, "merge_group", EVENT_NAME, MERGE_GROUP);
    EventSource(Eq, "push", EVENT_NAME, PUSHED);
  }

  lemma RefText()
    ensures "github." + "ref" + " " + "==" + " " + ("'" + "refs/heads/dev" + "'") == TO_DEV
  {
  }

  lemma RefSource(right: Expr)
    requires right == Bin(Eq, GitHub("ref"), Quoted("refs/heads/dev"))
    ensures Source(right) == TO_DEV
  {
    GitHubSource("ref");
    BinSource(Eq, GitHub("ref"), Quoted("refs/heads/dev"));
    RefText();
  }

  lemma PushSource()
    ensures Source(PushTo("refs/heads/dev")) == PUSH_TO_DEV
  {
    var right := Bin(Eq, GitHub("ref"), Quoted("refs/heads/dev"));
    EventSources();
    RefSource(right);
    AndSource(Event(Eq, "push"), right);
  }

  lemma QueueSource(identity: string, queueActor: string, mergeGroup: string, push: string)
    requires Source(FromJson(Output("queue_actor"))) == queueActor
    requires Source(Event(Eq, "merge_group")) == mergeGroup && Source(PushTo("refs/heads/dev")) == push
    ensures Source(QueueScope(identity)) == QueueText(identity, queueActor, mergeGroup, push)
  {
    var a, b, c := NotQueueActor(identity), Event(Eq, "merge_group"), PushTo("refs/heads/dev");
    GitHubSource(identity);
    BinSource(Ne, GitHub(identity), FromJson(Output("queue_actor")));
    OrSource(a, b);
    OrSource(Bin(Or, a, b), c);
    QueueGlue(identity, queueActor, mergeGroup, push);
  }

  lemma QueueGlue(identity: string, queueActor: string, mergeGroup: string, push: string)
    ensures "(" + ("github." + identity + " " + "!=" + " " + queueActor + " || " + mergeGroup + " || " + push) + ")" ==
            QueueText(identity, queueActor, mergeGroup, push)
  {
    assert "(" + "github." == "(github." && " " + "!=" + " " == " != ";
    assert "github." + identity + " " + "!=" + " " + queueActor == "github." + identity + (" " + "!=" + " ") + queueActor;
  }

  lemma HeadSource()
    ensures Source(HeadRepository()) == HEAD
  {
    var e := GitHub("event");
    var p := Field(e, "pull_request");
    GitHubSource("event");
    FieldSource(e, "pull_request", "github.event.pull_request");
    FieldSource(p, "head", "github.event.pull_request.head");
    FieldSource(Field(p, "head"), "repo", "github.event.pull_request.head.repo");
    FieldSource(Field(Field(p, "head"), "repo"), "full_name", "github.event.pull_request.head.repo.full_name");
  }

  lemma RepositoryText(head: string)
    ensures head + " " + "==" + " " + ("github." + "repository") == head + " == " + "github.repository"
  {
    assert " " + "==" + " " == " == " && "github." + "repository" == "github.repository";
    assert head + " " + "==" + " " == head + (" " + "==" + " ");
  }

  lemma RepositorySource()
    ensures Source(Bin(Eq, HeadRepository(), GitHub("repository"))) == SAME_REPOSITORY
  {
    HeadSource();
    GitHubSource("repository");
    BinSource(Eq, HeadRepository(), GitHub("repository"));
    RepositoryText(HEAD);
  }

  lemma SameRepositorySource(noPull: string, same: string)
    requires Source(Event(Ne, "pull_request")) == noPull
    requires Source(Bin(Eq, HeadRepository(), GitHub("repository"))) == same
    ensures Source(SameRepository()) == "(" + (noPull + " || " + same) + ")"
  {
    OrSource(Event(Ne, "pull_request"), Bin(Eq, HeadRepository(), GitHub("repository")));
  }

  lemma AndAllLast(l: Expr, rs: seq<Expr>, r: Expr)
    ensures AndAll(l, rs + [r]) == Bin(And, AndAll(l, rs), r)
  {
    assert (rs + [r])[..|rs|] == rs;
  }

  lemma FiveConjuncts(l: Expr, a: Expr, b: Expr, c: Expr, d: Expr, e: Expr)
    ensures Source(AndAll(l, [a, b, c, d, e])) ==
            Source(l) + " && " + Source(a) + " && " + Source(b) + " && " + Source(c) + " && " + Source(d) + " && " + Source(e)
  {
    AndAllLast(l, [], a);
    AndAllLast(l, [a], b);
    AndAllLast(l, [a, b], c);
    AndAllLast(l, [a, b, c], d);
    AndAllLast(l, [a, b, c, d], e);
    assert [] + [a] == [a] && [a] + [b] == [a, b] && [a, b] + [c] == [a, b, c];
    assert [a, b, c] + [d] == [a, b, c, d] && [a, b, c, d] + [e] == [a, b, c, d, e];
    AndSource(l, a);
    AndSource(AndAll(l, [a]), b);
    AndSource(AndAll(l, [a, b]), c);
    AndSource(AndAll(l, [a, b, c]), d);
    AndSource(AndAll(l, [a, b, c, d]), e);
  }

  lemma GuardSource()
    ensures Source(Guard()) == GUARD
  {
    ActorSources();
    EventSources();
    PushSource();
    RepositorySource();
    SameRepositorySource(NO_PULL_REQUEST, SAME_REPOSITORY);
    ApprovedSource("actor", ACTORS);
    ApprovedSource("triggering_actor", ACTORS);
    QueueSource("actor", QUEUE_ACTOR, MERGE_GROUP, PUSH_TO_DEV);
    QueueSource("triggering_actor", QUEUE_ACTOR, MERGE_GROUP, PUSH_TO_DEV);
    FiveConjuncts(
      Event(Ne, "pull_request_target"), SameRepository(), Approved("actor"), Approved("triggering_actor"),
      QueueScope("actor"), QueueScope("triggering_actor"));
  }
}
