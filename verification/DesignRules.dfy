/** scripts/design_rules.py: two searches over an inheritance graph that may be cyclic. */
module DesignRules {
  // Base classes are resolved through imports. Both searches carry the classes of the current path, not all that were
  // visited.

  import opened Wrappers

  /** A module's name and a class's name in it. */
  type ClassId = (string, string)

  /** The expressions the rules look into; `Other` carries what ast.unparse gives for any other one. */
  datatype Expr =
    | Name(id: string)
    | Attribute(value: Expr, attr: string)
    | Subscript(value: Expr)
    | Call(func: Expr)
    | Other(text: string)

  /** A base class as it is written: the expression and its whole text. */
  datatype Base = Base(expr: Expr, text: string)

  datatype Keyword = Keyword(arg: Option<string>, value: Expr)

  /** A class: its decorators, keywords and bases, and the decorators of each of its methods. */
  datatype ClassDef = ClassDef(
    decorators: seq<Expr>, keywords: seq<Keyword>, bases: seq<Base>, methods: seq<seq<Expr>>)

  /** `import a.b` binds a module; `from a import b` binds a name of one. */
  datatype Import = Import(source: string, name: Option<string>)

  datatype Module = Module(classes: map<string, ClassDef>, imports: map<string, Import>)

  /** The index, with the names that the builtins module binds to exception classes. */
  datatype Index = Index(modules: map<string, Module>, exceptions: set<string>)

  const ROOTS := {"ABC", "Protocol", "NamedTuple", "TypedDict", "Generic", "Enum", "IntEnum", "StrEnum", "Flag", "IntFlag"}

  function Classes(index: Index): set<ClassId> {
    set m, c | m in index.modules && c in index.modules[m].classes :: (m, c)
  }

  function NodeOf(index: Index, c: ClassId): ClassDef
    requires c in Classes(index)
  {
    index.modules[c.0].classes[c.1]
  }

  /* ---- from a base as written to a class ---- */

  /** Where a re-exported name leads in one step; nothing for a class and for a name that is not imported. */
  function Hop(index: Index, at: ClassId): Option<ClassId> {
    if at.0 !in index.modules || at in Classes(index) || at.1 !in index.modules[at.0].imports then None
    else
      var source := index.modules[at.0].imports[at.1];
      if source.name.Some? then Some((source.source, source.name.value)) else None
  }

  function Hops(index: Index, at: ClassId, count: nat): Option<ClassId>
    decreases count
  {
    if count == 0 then Some(at)
    else
      var next := Hop(index, at);
      if next.Some? then Hops(index, next.value, count - 1) else None
  }

  function Lookup(index: Index, m: string, name: string, depth: nat := 0): (found: Option<ClassId>)
    ensures found.Some? ==> found.value in Classes(index)
    decreases 6 - depth
  {
    if m !in index.modules || depth > 5 then None
    else if name in index.modules[m].classes then Some((m, name))
    else if name in index.modules[m].imports then
      var source := index.modules[m].imports[name];
      if source.name.Some? then Lookup(index, source.source, source.name.value, depth + 1) else None
    else None
  }

  /** `at` leads to the class `c` in exactly `count` steps. */
  predicate LeadsIn(index: Index, at: ClassId, count: nat, c: ClassId) {
    c in Classes(index) && Hops(index, at, count) == Some(c)
  }

  /** A name resolves to a class exactly when at most five re-exports lead to it, on cyclic imports too. */
  lemma {:induction false} LookupFollowsReExports(index: Index, m: string, name: string, depth: nat, c: ClassId)
    requires depth <= 6
    ensures Lookup(index, m, name, depth) == Some(c) <==>
            exists k: nat :: k <= 5 - depth && LeadsIn(index, (m, name), k, c)
    decreases 6 - depth
  {
    var at := (m, name);
    if depth <= 5 {
      var next := Hop(index, at);
      assert at == c && at in Classes(index) ==> LeadsIn(index, at, 0, c);
      if next.Some? {
        LookupFollowsReExports(index, next.value.0, next.value.1, depth + 1, c);
        forall k: nat
          ensures LeadsIn(index, at, k + 1, c) == LeadsIn(index, next.value, k, c)
        {}
        if k: nat :| k <= 5 - depth && LeadsIn(index, at, k, c) {
          assert LeadsIn(index, next.value, k - 1, c);
        }
      }
    }
  }

  /** The attributes of a dotted name, outermost last, and what they hang on. */
  function Dotted(e: Expr): (parts: (seq<string>, Expr))
    ensures !parts.1.Attribute?
  {
    if e.Attribute? then
      var (chain, root) := Dotted(e.value);
      (chain + [e.attr], root)
    else ([], e)
  }

  function Join(parts: seq<string>): string {
    if parts == [] then "" else if |parts| == 1 then parts[0] else parts[0] + "." + Join(parts[1..])
  }

  /** The class a base stands for, if it is one of the project's. */
  function Resolve(index: Index, m: string, base: Expr): (found: Option<ClassId>)
    requires m in index.modules
    ensures found.Some? ==> found.value in Classes(index)
  {
    match base
    case Subscript(value) => Resolve(index, m, value)
    case Name(id) => Lookup(index, m, id)
    case _ =>
      var (chain, root) := Dotted(base);
      if chain == [] || !root.Name? || root.id !in index.modules[m].imports then None
      else
        var source := index.modules[m].imports[root.id];
        var prefix := if source.name.None? then source.source else source.source + "." + source.name.value;
        Lookup(index, Join([prefix] + chain[..|chain| - 1]), chain[|chain| - 1])
  }

  /** `resolve`, with the loop that walks down a dotted name. */
  method ResolveBase(index: Index, m: string, base: Expr) returns (found: Option<ClassId>)
    requires m in index.modules
    ensures found == Resolve(index, m, base)
  {
    if base.Subscript? {
      found := ResolveBase(index, m, base.value);
      return;
    }
    if base.Name? {
      return Lookup(index, m, base.id);
    }
    var chain: seq<string>, root := [], base;
    assert Dotted(base).0 + chain == Dotted(base).0;
    while root.Attribute?
      invariant Dotted(base) == (Dotted(root).0 + chain, Dotted(root).1)
      decreases root
    {
      ghost var inner := Dotted(root.value).0;
      assert (inner + [root.attr]) + chain == inner + ([root.attr] + chain);
      chain, root := [root.attr] + chain, root.value;
    }
    assert [] + chain == chain;
    if chain == [] || !root.Name? || root.id !in index.modules[m].imports {
      return None;
    }
    var source := index.modules[m].imports[root.id];
    var prefix := if source.name.None? then source.source else source.source + "." + source.name.value;
    return Lookup(index, Join([prefix] + chain[..|chain| - 1]), chain[|chain| - 1]);
  }

  /** `_terminal`: the last name of an expression. */
  function Terminal(e: Expr): string {
    match e
    case Subscript(value) => Terminal(value)
    case Call(func) => Terminal(func)
    case Attribute(_, attr) => attr
    case Name(id) => id
    case Other(text) => text
  }

  predicate DeclaredFree(node: ClassDef) {
    || (exists d :: d in node.decorators && Terminal(d) == "dataclass")
    || (exists k :: k in node.keywords && k.arg == Some("metaclass") && Terminal(k.value) == "ABCMeta")
    || (exists method_ :: method_ in node.methods && exists d :: d in method_ && Terminal(d) == "abstractmethod")
  }

  /* ---- shareable ---- */

  predicate RootBase(index: Index, m: string, base: Base)
    requires m in index.modules
  {
    Resolve(index, m, base.expr).None? &&
    (Terminal(base.expr) in ROOTS || Terminal(base.expr) in index.exceptions)
  }

  /** What makes a class shareable without a look at the project's other classes. */
  predicate FreeHere(index: Index, c: ClassId)
    requires c in Classes(index)
  {
    var node := NodeOf(index, c);
    DeclaredFree(node) || exists base :: base in node.bases && RootBase(index, c.0, base)
  }

  /** The project classes a class inherits from directly. */
  function Parents(index: Index, m: string, node: ClassDef): (parents: set<ClassId>)
    requires m in index.modules
    ensures parents <= Classes(index)
  {
    set base | base in node.bases && Resolve(index, m, base.expr).Some? :: Resolve(index, m, base.expr).value
  }

  function ParentsOf(index: Index, c: ClassId): (parents: set<ClassId>)
    requires c in Classes(index)
    ensures parents <= Classes(index)
  {
    Parents(index, c.0, NodeOf(index, c))
  }

  predicate Shareable(index: Index, target: ClassId, seen: set<ClassId>)
    requires target in Classes(index)
    decreases Classes(index) - seen
  {
    && target !in seen
    && (var node := NodeOf(index, target);
        || DeclaredFree(node)
        || (exists base | base in node.bases ::
              || RootBase(index, target.0, base)
              || (var project := Resolve(index, target.0, base.expr);
                  project.Some? && Shareable(index, project.value, seen + {target}))))
  }

  /** `line` runs from class to parent class. */
  predicate IsLine(index: Index, line: seq<ClassId>) {
    && line != []
    && line[0] in Classes(index)
    && (|line| > 1 ==> line[1] in ParentsOf(index, line[0]) && IsLine(index, line[1..]))
  }

  lemma {:induction false} LineStays(index: Index, line: seq<ClassId>, k: nat)
    requires IsLine(index, line) && k < |line|
    ensures line[k] in Classes(index) && IsLine(index, line[k..])
  {
    if k > 0 {
      LineStays(index, line[1..], k - 1);
      assert line[1..][k - 1..] == line[k..];
    }
  }

  /** A line of classes outside `seen` that runs from `target` to a class that is free by itself. */
  ghost predicate FreeLine(index: Index, target: ClassId, seen: set<ClassId>, line: seq<ClassId>) {
    && IsLine(index, line) && line[0] == target
    && (forall c :: c in line ==> c !in seen)
    && line[|line| - 1] in Classes(index) && FreeHere(index, line[|line| - 1])
  }

  /** Where `c` stands last in a line. */
  lemma {:induction false} LastPlace(line: seq<ClassId>, c: ClassId) returns (k: nat)
    requires c in line
    ensures k < |line| && line[k] == c && c !in line[k + 1..]
  {
    k := |line| - 1;
    while line[k] != c
      invariant k < |line| && c !in line[k + 1..]
      decreases k
    {
      if k == 0 {
        assert false;
      }
      assert line[k..] == [line[k]] + line[k + 1..];
      k := k - 1;
    }
  }

  lemma {:induction false} FreeLineFound(index: Index, target: ClassId, seen: set<ClassId>, line: seq<ClassId>)
    requires target in Classes(index) && FreeLine(index, target, seen, line)
    ensures Shareable(index, target, seen)
    decreases |line|
  {
    var k := LastPlace(line, target);
    LineStays(index, line, k);
    var rest := line[k..];
    if |rest| == 1 {
      assert FreeHere(index, target);
    } else {
      assert rest[1..] == line[k + 1..];
      var next := rest[1];
      assert next in ParentsOf(index, target);
      FreeLineFound(index, next, seen + {target}, rest[1..]);
    }
  }

  lemma {:induction false} ShareableHasLine(index: Index, target: ClassId, seen: set<ClassId>) returns (line: seq<ClassId>)
    requires target in Classes(index) && Shareable(index, target, seen)
    ensures FreeLine(index, target, seen, line)
    decreases Classes(index) - seen
  {
    var node := NodeOf(index, target);
    if FreeHere(index, target) {
      line := [target];
    } else {
      var base :| base in node.bases && Resolve(index, target.0, base.expr).Some? &&
                  Shareable(index, Resolve(index, target.0, base.expr).value, seen + {target});
      var next := Resolve(index, target.0, base.expr).value;
      assert next in ParentsOf(index, target);
      var rest := ShareableHasLine(index, next, seen + {target});
      line := [target] + rest;
      assert line[1..] == rest;
    }
  }

  /**
   * The search answers yes exactly when some line of resolved bases reaches a class that is free by itself,
   * on cyclic inheritance too; and it ends because every step takes one more class out of reach.
   */
  lemma ShareableIsReachability(index: Index, target: ClassId)
    requires target in Classes(index)
    ensures Shareable(index, target, {}) <==> exists line :: FreeLine(index, target, {}, line)
  {
    if Shareable(index, target, {}) {
      var line := ShareableHasLine(index, target, {});
    }
    if line :| FreeLine(index, target, {}, line) {
      FreeLineFound(index, target, {}, line);
    }
  }

  /* ---- _ancestors ---- */

  /** An ancestor: a class of the project, or the text of a base that is none. */
  datatype Ancestor = Project(id: ClassId) | Outside(text: string)

  const OBJECT := Outside("object")

  function AncestorOf(index: Index, m: string, base: Base): Ancestor
    requires m in index.modules
  {
    var project := Resolve(index, m, base.expr);
    if project.Some? then Project(project.value) else Outside(base.text)
  }

  /** `line` runs from the class, itself not in it, upwards to one that names `x` as a base. */
  predicate Leads(index: Index, m: string, node: ClassDef, line: seq<ClassId>, x: Ancestor)
    requires m in index.modules
    decreases |line|
  {
    if line == [] then exists base :: base in node.bases && AncestorOf(index, m, base) == x
    else line[0] in Parents(index, m, node) && Leads(index, line[0].0, NodeOf(index, line[0]), line[1..], x)
  }

  ghost predicate Inherits(index: Index, m: string, node: ClassDef, seen: set<ClassId>, x: Ancestor)
    requires m in index.modules
  {
    exists line :: Leads(index, m, node, line, x) && forall c :: c in line ==> c !in seen
  }

  lemma {:induction false} LeadsOn(index: Index, m: string, node: ClassDef, line: seq<ClassId>, x: Ancestor, k: nat)
    requires m in index.modules && Leads(index, m, node, line, x) && k < |line|
    ensures line[k] in Classes(index) && Leads(index, line[k].0, NodeOf(index, line[k]), line[k + 1..], x)
    decreases k
  {
    if k > 0 {
      LeadsOn(index, line[0].0, NodeOf(index, line[0]), line[1..], x, k - 1);
      assert line[1..][k..] == line[k + 1..];
    }
  }

  /** What one base adds to the search. */
  ghost predicate Through(index: Index, m: string, base: Base, seen: set<ClassId>, x: Ancestor)
    requires m in index.modules
  {
    var project := Resolve(index, m, base.expr);
    || AncestorOf(index, m, base) == x
    || (project.Some? && project.value !in seen &&
        Inherits(index, project.value.0, NodeOf(index, project.value), seen + {project.value}, x))
  }

  lemma InheritsThroughBases(index: Index, m: string, node: ClassDef, seen: set<ClassId>, x: Ancestor)
    requires m in index.modules
    ensures Inherits(index, m, node, seen, x) <==> exists base :: base in node.bases && Through(index, m, base, seen, x)
  {
    if line :| Leads(index, m, node, line, x) && forall c :: c in line ==> c !in seen {
      if line != [] {
        var first := line[0];
        var base :| base in node.bases && Resolve(index, m, base.expr) == Some(first);
        var k := LastPlace(line, first);
        LeadsOn(index, m, node, line, x, k);
        assert Through(index, m, base, seen, x);
      }
    }
    if base :| base in node.bases && Through(index, m, base, seen, x) {
      if AncestorOf(index, m, base) == x {
        assert Leads(index, m, node, [], x);
      } else {
        var c := Resolve(index, m, base.expr).value;
        var rest :| Leads(index, c.0, NodeOf(index, c), rest, x) && forall d :: d in rest ==> d !in seen + {c};
        var line := [c] + rest;
        assert line[1..] == rest;
        assert Leads(index, m, node, line, x);
      }
    }
  }

  /** `_ancestors`: from an empty `seen`, every ancestor of the class by any line, but `object`. */
  method Ancestors(index: Index, m: string, node: ClassDef, seen: set<ClassId>) returns (found: set<Ancestor>)
    requires m in index.modules
    ensures forall x :: x in found <==> x != Outside("object") && Inherits(index, m, node, seen, x)
    decreases Classes(index) - seen
  {
    found := {};
    for i := 0 to |node.bases|
      invariant forall x :: x != OBJECT ==>
                  (x in found <==> exists base :: base in node.bases[..i] && Through(index, m, base, seen, x))
    {
      var base := node.bases[i];
      ghost var before := found;
      var project := ResolveBase(index, m, base.expr);
      var name := if project.Some? then Project(project.value) else Outside(base.text);
      found := found + {name};
      if project.Some? && project.value !in seen {
        var above := Ancestors(index, project.value.0, NodeOf(index, project.value), seen + {project.value});
        found := found + above;
      }
      assert node.bases[..i + 1] == node.bases[..i] + [base];
      assert forall x :: x != OBJECT ==> (x in found <==> x in before || Through(index, m, base, seen, x));
    }
    assert node.bases[..|node.bases|] == node.bases;
    forall x
      ensures Inherits(index, m, node, seen, x) <==> exists base :: base in node.bases && Through(index, m, base, seen, x)
    {
      InheritsThroughBases(index, m, node, seen, x);
    }
    found := found - {OBJECT};
  }

  /* ---- classes as they are written ---- */

  /** The name, an attribute of that name, or a call of either. */
  predicate Writes(e: Expr, name: string) {
    || e == Name(name)
    || (e.Attribute? && e.attr == name)
    || (e.Call? && (e.func == Name(name) || (e.func.Attribute? && e.func.attr == name)))
    || (e.Subscript? && (e.value == Name(name) || (e.value.Attribute? && e.value.attr == name)))
  }

  lemma WritesTerminal(e: Expr, name: string)
    requires Writes(e, name)
    ensures Terminal(e) == name
  {
    match e
    case Call(func) => assert Terminal(e) == Terminal(func);
    case Subscript(value) => assert Terminal(e) == Terminal(value);
    case _ =>
  }

  /**
   * A dataclass may be shared, with the decorator imported or dotted, called or not; so may a class whose metaclass is
   * ABCMeta, and one with an abstract method.
   */
  lemma DeclaredClassIsShareable(index: Index, c: ClassId, d: Expr, keyword: Keyword, method_: seq<Expr>)
    requires c in Classes(index)
    requires
      var node := index.modules[c.0].classes[c.1];
      || (d in node.decorators && Writes(d, "dataclass"))
      || (keyword in node.keywords && keyword.arg == Some("metaclass") && Writes(keyword.value, "ABCMeta"))
      || (method_ in node.methods && d in method_ && Writes(d, "abstractmethod"))
    ensures Shareable(index, c, {})
  {
    var node := NodeOf(index, c);
    if d in node.decorators && Writes(d, "dataclass") {
      WritesTerminal(d, "dataclass");
    } else if keyword in node.keywords && keyword.arg == Some("metaclass") && Writes(keyword.value, "ABCMeta") {
      WritesTerminal(keyword.value, "ABCMeta");
    } else {
      WritesTerminal(d, "abstractmethod");
    }
    assert DeclaredFree(node);
  }

  /** So may one that inherits from a class of the standard library that is no class of the project. */
  lemma RootedClassIsShareable(index: Index, c: ClassId, base: Base, name: string)
    requires c in Classes(index) && base in index.modules[c.0].classes[c.1].bases
    requires Writes(base.expr, name) && Resolve(index, c.0, base.expr).None?
    requires
      || name in index.exceptions
      || name in ["ABC", "Protocol", "NamedTuple", "TypedDict", "Generic", "Enum", "IntEnum", "StrEnum", "Flag", "IntFlag"]
    ensures Shareable(index, c, {})
  {
    WritesTerminal(base.expr, name);
    assert RootBase(index, c.0, base);
  }

  /** A class that declares nothing of the kind and inherits from nothing may not. */
  lemma BareClassIsNot(index: Index, c: ClassId)
    requires c in Classes(index)
    requires
      var node := index.modules[c.0].classes[c.1];
      node.decorators == [] && node.keywords == [] && node.bases == [] && forall m :: m in node.methods ==> m == []
    ensures !Shareable(index, c, {})
  {
    assert !DeclaredFree(NodeOf(index, c));
  }

  /** `a.b.C`: the names behind the first, as an expression. */
  function DottedName(root: string, names: seq<string>): Expr {
    if names == [] then Name(root) else Attribute(DottedName(root, names[..|names| - 1]), names[|names| - 1])
  }

  lemma {:induction false} DottedParts(root: string, names: seq<string>)
    ensures Dotted(DottedName(root, names)) == (names, Name(root))
  {
    if names != [] {
      DottedParts(root, names[..|names| - 1]);
      assert names[..|names| - 1] + [names[|names| - 1]] == names;
    }
  }

  /** The module that a dotted name names below an imported one. */
  function Below(name: string, names: seq<string>): string {
    if names == [] then name else Below(name, names[..|names| - 1]) + "." + names[|names| - 1]
  }

  lemma JoinOneMore(parts: seq<string>, last: string)
    requires parts != []
    ensures Join(parts + [last]) == Join(parts) + "." + last
    decreases |parts|
  {
    if |parts| == 1 {
      assert parts + [last] == [parts[0], last];
      assert [parts[0], last][1..] == [last];
    } else {
      assert (parts + [last])[1..] == parts[1..] + [last];
      JoinOneMore(parts[1..], last);
      assert parts[0] + "." + (Join(parts[1..]) + "." + last) == parts[0] + "." + Join(parts[1..]) + "." + last;
    }
  }

  lemma {:induction false} JoinIsBelow(name: string, names: seq<string>)
    ensures Join([name] + names) == Below(name, names)
  {
    if names == [] {
      assert [name] + names == [name];
    } else {
      var less, last := names[..|names| - 1], names[|names| - 1];
      assert [name] + names == ([name] + less) + [last];
      JoinIsBelow(name, less);
      JoinOneMore([name] + less, last);
    }
  }

  /**
   * `import a` and `from p import a`: the class C that is written a.x.C is C of the module a.x or p.a.x, for any number
   * of names between, and a subscript behind it changes nothing.
   */
  lemma DottedBaseResolves(index: Index, m: string, root: string, between: seq<string>, name: string)
    requires m in index.modules && root in index.modules[m].imports
    requires
      var source := index.modules[m].imports[root];
      var at := Below(if source.name.Some? then source.source + "." + source.name.value else source.source, between);
      (at, name) in Classes(index)
    ensures
      var source := index.modules[m].imports[root];
      var at := Below(if source.name.Some? then source.source + "." + source.name.value else source.source, between);
      var written := Attribute(DottedName(root, between), name);
      && Resolve(index, m, written) == Some((at, name)) && Resolve(index, m, Subscript(written)) == Some((at, name))
  {
    var source := index.modules[m].imports[root];
    var prefix := if source.name.Some? then source.source + "." + source.name.value else source.source;
    DottedParts(root, between);
    JoinIsBelow(prefix, between);
    var chain := between + [name];
    assert chain[..|chain| - 1] == between && chain[|chain| - 1] == name;
    assert Dotted(Attribute(DottedName(root, between), name)) == (chain, Name(root));
  }

  /** A plain name is a class of its own module before it is an imported one. */
  lemma PlainBaseResolves(index: Index, m: string, name: string, source: Import)
    requires m in index.modules
    ensures name in index.modules[m].classes ==> Resolve(index, m, Name(name)) == Some((m, name))
    ensures
      && name !in index.modules[m].classes && name in index.modules[m].imports
      && index.modules[m].imports[name] == source && source.name.Some?
      && (source.source, source.name.value) in Classes(index)
      ==> Resolve(index, m, Name(name)) == Some((source.source, source.name.value))
  {
  }
}
