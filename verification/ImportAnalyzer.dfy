/** The analyzer itself: collects the alias tables of a file, then reports the package modules
    that its import statements and its calls of import APIs name. */
module ImportAnalyzer {
  import opened Common
  import opened PythonSyntax
  import opened AliasAnalysis

  // ----- what the file's nodes say, independently of the order they are visited in -----

  ghost predicate SeedsModule(nodes: set<Node>, name: string, m: ApiModule) {
    || (ApiModuleNamed(name) == Some(m))
    || exists n, alias | n in nodes && n.Import? && alias in n.names ::
         ApiModuleNamed(alias.name) == Some(m) && alias.Bound() == name
  }

  /** The tracked function that one name of a `from` import brings in. */
  function ImportedFunction(n: Node, alias: Alias): Option<ApiFunction>
    requires n.ImportFrom?
  {
    if n.level == 0 && n.origin.Some? && ApiModuleNamed(n.origin.value).Some?
    then ApiFunctionNamed(ApiModuleNamed(n.origin.value).value, alias.name)
    else None
  }

  ghost predicate SeedsFunction(nodes: set<Node>, name: string, f: ApiFunction) {
    || (name == "__import__" && f == BuiltinsImport)
    || exists n, alias | n in nodes && n.ImportFrom? && alias in n.names ::
         ImportedFunction(n, alias) == Some(f) && alias.Bound() == name
  }

  /** The tables hold exactly the built-in names and what the import statements bind. */
  ghost predicate IsSeeds(a: Aliases, nodes: set<Node>) {
    && ProperAliases(a)
    && (forall name, m :: m in Lookup(a.modules, name) <==> SeedsModule(nodes, name, m))
    && (forall name, f :: f in Lookup(a.functions, name) <==> SeedsFunction(nodes, name, f))
  }

  function NodeAssignments(n: Node): seq<Assignment> {
    match n
    case Assign(targets, value) => seq(|targets|, i requires 0 <= i < |targets| => (targets[i], value))
    case AnnAssign(target, _, init) => if init.Some? then [(target, init.value)] else []
    case NamedExpr(target, value) => [(target, value)]
    case _ => []
  }

  ghost function AssignmentsOf(nodes: set<Node>): set<Assignment> {
    set n, p | n in nodes && p in NodeAssignments(n) :: p
  }

  /** The solution of the analysis for a set of nodes: least above the seeds. */
  ghost predicate IsSolution(a: Aliases, nodes: set<Node>) {
    exists seeds :: IsSeeds(seeds, nodes) && IsLeast(a, seeds, AssignmentsOf(nodes))
  }

  lemma SeedsAreUnique(s: Aliases, t: Aliases, nodes: set<Node>)
    requires IsSeeds(s, nodes) && IsSeeds(t, nodes)
    ensures s == t
  {
    forall name ensures Lookup(s.modules, name) == Lookup(t.modules, name)
                     && Lookup(s.functions, name) == Lookup(t.functions, name) {
      assert forall m :: m in Lookup(s.modules, name) <==> SeedsModule(nodes, name, m);
      assert forall f :: f in Lookup(s.functions, name) <==> SeedsFunction(nodes, name, f);
    }
    LeqAntisymmetric(s, t);
  }

  /** The tables depend on the set of nodes only: neither on the order of the walk nor on the
      order in which assignments are retried. */
  lemma SolutionIsUnique(a: Aliases, b: Aliases, nodes: set<Node>)
    requires IsSolution(a, nodes) && IsSolution(b, nodes)
    ensures a == b
  {
    var s :| IsSeeds(s, nodes) && IsLeast(a, s, AssignmentsOf(nodes));
    var t :| IsSeeds(t, nodes) && IsLeast(b, t, AssignmentsOf(nodes));
    SeedsAreUnique(s, t, nodes);
    LeastIsUnique(a, b, s, AssignmentsOf(nodes));
  }

  lemma SeedsModuleStep(done: set<Node>, names: seq<Alias>, i: nat, name: string, m: ApiModule)
    requires i < |names|
    ensures SeedsModule(done + {Import(names[..i + 1])}, name, m)
       <==> SeedsModule(done + {Import(names[..i])}, name, m)
            || (ApiModuleNamed(names[i].name) == Some(m) && names[i].Bound() == name)
  {
    var part, next := Import(names[..i]), Import(names[..i + 1]);
    assert names[i] in next.names;
    assert forall alias | alias in part.names :: alias in next.names;
    assert forall alias | alias in next.names :: alias in part.names || alias == names[i];
  }

  /** One of the names of this `from` import binds `name` to `f`. */
  ghost predicate BindsFunction(n: Node, name: string, f: ApiFunction)
    requires n.ImportFrom?
  {
    exists alias | alias in n.names :: ImportedFunction(n, alias) == Some(f) && alias.Bound() == name
  }

  lemma SeedsFunctionWith(done: set<Node>, n: Node, name: string, f: ApiFunction)
    requires n.ImportFrom?
    ensures SeedsFunction(done + {n}, name, f) <==> SeedsFunction(done, name, f) || BindsFunction(n, name, f)
  {
  }

  lemma SeedsFunctionStep(done: set<Node>, n: Node, i: nat, name: string, f: ApiFunction)
    requires n.ImportFrom? && i < |n.names|
    ensures SeedsFunction(done + {n.(names := n.names[..i + 1])}, name, f)
       <==> SeedsFunction(done + {n.(names := n.names[..i])}, name, f)
            || (ImportedFunction(n, n.names[i]) == Some(f) && n.names[i].Bound() == name)
  {
    var part, next := n.(names := n.names[..i]), n.(names := n.names[..i + 1]);
    SeedsFunctionWith(done, part, name, f);
    SeedsFunctionWith(done, next, name, f);
    assert next.names == part.names + [n.names[i]];
    assert forall alias :: alias in next.names <==> alias in part.names || alias == n.names[i];
    assert forall alias :: ImportedFunction(part, alias) == ImportedFunction(n, alias) == ImportedFunction(next, alias);
  }

  lemma OtherNodesSeedNothing(a: Aliases, done: set<Node>, n: Node)
    requires IsSeeds(a, done)
    requires n.Import? ==> n.names == []
    requires n.ImportFrom? ==> forall alias | alias in n.names :: ImportedFunction(n, alias).None?
    ensures IsSeeds(a, done + {n})
  {
    forall name, m ensures SeedsModule(done + {n}, name, m) <==> SeedsModule(done, name, m) {}
    forall name, f ensures SeedsFunction(done + {n}, name, f) <==> SeedsFunction(done, name, f) {}
  }

  /** One more imported name, added to the tables the way the statement binds it. */
  lemma SeedModule(a: Aliases, b: Aliases, done: set<Node>, names: seq<Alias>, i: nat)
    requires i < |names| && IsSeeds(a, done + {Import(names[..i])})
    requires var m := ApiModuleNamed(names[i].name);
      b == a.(modules := AddTo(a.modules, names[i].Bound(), if m.Some? then {m.value} else {}))
    ensures IsSeeds(b, done + {Import(names[..i + 1])})
  {
    forall name, m ensures m in Lookup(b.modules, name) <==> SeedsModule(done + {Import(names[..i + 1])}, name, m) {
      SeedsModuleStep(done, names, i, name, m);
    }
    forall name, f ensures f in Lookup(b.functions, name) <==> SeedsFunction(done + {Import(names[..i + 1])}, name, f) {
      assert SeedsFunction(done + {Import(names[..i])}, name, f) <==> f in Lookup(a.functions, name);
    }
  }

  lemma SeedFunction(a: Aliases, b: Aliases, done: set<Node>, n: Node, i: nat)
    requires n.ImportFrom? && i < |n.names| && IsSeeds(a, done + {n.(names := n.names[..i])})
    requires var f := ImportedFunction(n, n.names[i]);
      b == a.(functions := AddTo(a.functions, n.names[i].Bound(), if f.Some? then {f.value} else {}))
    ensures IsSeeds(b, done + {n.(names := n.names[..i + 1])})
  {
    forall name, f ensures f in Lookup(b.functions, name) <==> SeedsFunction(done + {n.(names := n.names[..i + 1])}, name, f) {
      SeedsFunctionStep(done, n, i, name, f);
    }
    forall name, m ensures m in Lookup(b.modules, name) <==> SeedsModule(done + {n.(names := n.names[..i + 1])}, name, m) {
      assert SeedsModule(done + {n.(names := n.names[..i])}, name, m) <==> m in Lookup(a.modules, name);
    }
  }

  // ----- why the closing loop stops -----

  ghost function TargetNames(target: Node): set<string> {
    match target
    case Name(id) => {id}
    case Display(elts) => set t, name | t in elts && name in TargetNames(t) :: name
    case _ => {}
  }

  ghost function NamesIn(assignments: seq<Assignment>): set<string> {
    set p, name | p in assignments && name in TargetNames(p.0) :: name
  }

  ghost function Keys(a: Aliases): set<string> {
    a.modules.Keys + a.functions.Keys
  }

  lemma {:induction false} BindKeys(a: Aliases, target: Node, value: Node)
    ensures Keys(Bind(a, target, value)) <= Keys(a) + TargetNames(target)
    decreases target, 1
  {
    if Unpacks(target, value) {
      BindEachKeys(a, target.elts, value.elts, TargetNames(target));
    }
  }

  lemma {:induction false} BindEachKeys(a: Aliases, targets: seq<Node>, values: seq<Node>, names: set<string>)
    requires |targets| == |values|
    requires forall t | t in targets :: TargetNames(t) <= names
    ensures Keys(BindEach(a, targets, values)) <= Keys(a) + names
    decreases targets, 0
  {
    if targets != [] {
      var k := |targets| - 1;
      assert targets[k] in targets;
      BindEachKeys(a, targets[..k], values[..k], names);
      BindKeys(BindEach(a, targets[..k], values[..k]), targets[k], values[k]);
    }
  }

  ghost function Facts<T>(table: Table<T>): set<(string, T)> {
    set n, v | n in table && v in table[n] :: (n, v)
  }

  ghost function Cells<T>(names: set<string>, all: set<T>): set<(string, T)> {
    set n, v | n in names && v in all :: (n, v)
  }

  ghost function Room<T>(table: Table<T>, names: set<string>, all: set<T>): nat {
    |Cells(names, all) - Facts(table)|
  }

  lemma FactsGrow<T>(a: Table<T>, b: Table<T>)
    requires TableLeq(a, b)
    ensures Facts(a) <= Facts(b)
  {
    forall p | p in Facts(a) ensures p in Facts(b) {
      assert Lookup(a, p.0) <= Lookup(b, p.0);
    }
  }

  lemma NewFact<T>(a: Table<T>, b: Table<T>) returns (n: string, v: T)
    requires Proper(a) && Proper(b) && TableLeq(a, b) && a != b
    ensures n in b && v in b[n] && (n, v) in Facts(b) && (n, v) !in Facts(a)
  {
    if TableLeq(b, a) {
      TableAntisymmetric(a, b);
    }
    n :| !(Lookup(b, n) <= Lookup(a, n));
    v :| v in Lookup(b, n) && v !in Lookup(a, n);
  }

  lemma RoomShrinks<T>(a: Table<T>, b: Table<T>, names: set<string>, all: set<T>)
    requires Proper(a) && Proper(b) && TableLeq(a, b) && b.Keys <= names && forall v :: v in all
    ensures Room(b, names, all) <= Room(a, names, all)
    ensures a != b ==> Room(b, names, all) < Room(a, names, all)
  {
    var cells := Cells(names, all);
    FactsGrow(a, b);
    SubsetSize(cells - Facts(b), cells - Facts(a));
    if a != b {
      var n, v := NewFact(a, b);
      assert (n, v) in cells;
      SubsetSize(cells - Facts(b), cells - Facts(a) - {(n, v)});
    }
  }

  lemma {:induction false} SubsetSize<T>(a: set<T>, b: set<T>)
    requires a <= b
    ensures |a| <= |b|
  {
    if a != {} {
      var x :| x in a;
      SubsetSize(a - {x}, b - {x});
    }
  }

  const ALL_MODULES: set<ApiModule> := {Builtins, Importlib, Runpy}
  const ALL_FUNCTIONS: set<ApiFunction> := {BuiltinsImport, ImportModule, RunModule}

  /** How many aliases can still be added; every pass that changes something lowers it. */
  ghost function Measure(a: Aliases, names: set<string>): nat {
    Room(a.modules, names, ALL_MODULES) + Room(a.functions, names, ALL_FUNCTIONS)
  }

  lemma MeasureShrinks(a: Aliases, b: Aliases, names: set<string>)
    requires ProperAliases(a) && ProperAliases(b) && Leq(a, b) && Keys(b) <= names
    ensures Measure(b, names) <= Measure(a, names)
    ensures a != b ==> Measure(b, names) < Measure(a, names)
  {
    forall m: ApiModule ensures m in ALL_MODULES {
      match m case Builtins => case Importlib => case Runpy =>
    }
    forall f: ApiFunction ensures f in ALL_FUNCTIONS {
      match f case BuiltinsImport => case ImportModule => case RunModule =>
    }
    RoomShrinks(a.modules, b.modules, names, ALL_MODULES);
    RoomShrinks(a.functions, b.functions, names, ALL_FUNCTIONS);
  }

  method AddAlias<T(==)>(aliases: Table<T>, name: string, values: set<T>) returns (r: Table<T>, changed: bool)
    ensures r == AddTo(aliases, name, values)
    ensures changed <==> values != {} && !(name in aliases && values <= aliases[name])
    ensures changed <==> r != aliases
  {
    if values == {} {
      return aliases, false;
    }
    var existing := Lookup(aliases, name);
    var before := |existing|;
    existing := existing + values;
    r := aliases[name := existing];
    changed := |existing| != before;
    SetGrowth(Lookup(aliases, name), values);
    assert r[name] == existing;
    if name in aliases && values <= aliases[name] {
      assert existing == aliases[name];
      assert r == aliases;
    }
  }

  lemma SetGrowth<T>(s: set<T>, values: set<T>)
    ensures |s + values| == |s| <==> values <= s
  {
    if values <= s {
      assert s + values == s;
    } else {
      var x :| x in values && x !in s;
      SubsetSize(s + {x}, s + values);
      assert |s + {x}| == |s| + 1;
    }
  }

  // ----- what each node asks to import -----

  const PACKAGE := "distributed_runtime"
  const PACKAGE_PREFIX := PACKAGE + "."
  const PACKAGE_INIT := PACKAGE_PREFIX + "__init__"

  datatype AnalysisError =
    | RelativeImportEscapes
    | TargetNotStatic
    | CannotResolveRelative
    | InvalidModuleName

  /** A module a node names, a reason to give up, or nothing of interest. */
  datatype Mention = Absolute(name: string) | Reject(error: AnalysisError) | Ignored

  function Segments(name: string): (r: seq<string>)
    ensures r != []
  {
    if name == "" then [""]
    else
      var rest := Segments(name[1..]);
      if name[0] == '.' then [""] + rest else [[name[0]] + rest[0]] + rest[1..]
  }

  /** What recording a mention adds to the result, or the error it raises. */
  function Recorded(m: Mention, isIdentifier: string -> bool): Result<set<string>, AnalysisError> {
    match m
    case Ignored => Success({})
    case Reject(error) => Failure(error)
    case Absolute(name) =>
      if name == PACKAGE then Success({PACKAGE_INIT})
      else if !(PACKAGE_PREFIX <= name) then Success({})
      else if exists segment | segment in Segments(name) :: !isIdentifier(segment) then Failure(InvalidModuleName)
      else Success({name})
  }

  /** A name imported out of the package itself; `*` stands for the package's own module. */
  function FromPackage(alias: Alias): Mention {
    if alias.name == "*" then Absolute(PACKAGE) else Absolute(PACKAGE_PREFIX + alias.name)
  }

  function Names(n: Node): set<Mention>
    requires n.Import?
  {
    set alias | alias in n.names :: Absolute(alias.name)
  }

  function FromNames(n: Node): set<Mention>
    requires n.ImportFrom?
  {
    if n.level > 1 then {Reject(RelativeImportEscapes)}
    else if n.level == 1 then
      if n.origin.Some? && n.origin.value != "" then {Absolute(PACKAGE_PREFIX + n.origin.value)}
      else set alias | alias in n.names :: FromPackage(alias)
    else if n.origin == Some(PACKAGE) then set alias | alias in n.names :: FromPackage(alias)
    else if n.origin.Some? && PACKAGE_PREFIX <= n.origin.value then {Absolute(n.origin.value)}
    else {}
  }

  /** The value of an expression made of string literals and `+`. */
  function StaticText(e: Node): Option<string> {
    match e
    case Str(text) => Some(text)
    case Add(left, right) =>
      var l, r := StaticText(left), StaticText(right);
      if l.Some? && r.Some? then Some(l.value + r.value) else None
    case _ => None
  }

  function StaticString(e: Option<Node>): Option<string> {
    if e.Some? then StaticText(e.value) else None
  }

  /** The expression passed at a position or under a keyword. */
  function Argument(n: Node, keyword: string, position: nat): Option<Node>
    requires n.Call?
  {
    if position < |n.args| then Some(n.args[position]) else KeywordArgument(n.keywords, keyword)
  }

  function KeywordArgument(keywords: seq<Keyword>, keyword: string): Option<Node> {
    if keywords == [] then None
    else if keywords[0].arg == Some(keyword) then Some(keywords[0].actual)
    else KeywordArgument(keywords[1..], keyword)
  }

  function TargetKeyword(f: ApiFunction): string {
    if f.RunModule? then "mod_name" else "name"
  }

  function StaticPackage(n: Node): Option<string>
    requires n.Call?
  {
    var package := Argument(n, "package", 1);
    if StaticString(package).Some? then StaticString(package)
    else if package == Some(Name("__package__")) then Some(PACKAGE)
    else None
  }

  /** What a call asks to import when the called expression stands for `f`. */
  function CallMention(f: ApiFunction, n: Node): Mention
    requires n.Call?
  {
    var name := StaticString(Argument(n, TargetKeyword(f), 0));
    if name.None? then Reject(TargetNotStatic)
    else if !("." <= name.value) then Absolute(name.value)
    else if !f.ImportModule? then Ignored
    else if StaticPackage(n) != Some(PACKAGE) || ".." <= name.value then Reject(CannotResolveRelative)
    else Absolute(PACKAGE_PREFIX + name.value[1..])
  }

  function CallMentions(functions: set<ApiFunction>, n: Node): set<Mention>
    requires n.Call?
  {
    set f | f in functions :: CallMention(f, n)
  }

  lemma CallMentionsMore(functions: set<ApiFunction>, f: ApiFunction, n: Node)
    requires n.Call?
    ensures CallMentions(functions + {f}, n) == CallMentions(functions, n) + {CallMention(f, n)}
  {
  }

  lemma CallMentionsGrow(some: set<ApiFunction>, all: set<ApiFunction>, n: Node)
    requires n.Call? && some <= all
    ensures CallMentions(some, n) <= CallMentions(all, n)
  {
  }

  function Mentions(n: Node, a: Aliases): set<Mention> {
    match n
    case Import(_) => Names(n)
    case ImportFrom(_, _, _) => FromNames(n)
    case Call(func, _, _) => CallMentions(ResolveFunctions(a, func), n)
    case _ => {}
  }

  ghost function MentionsOf(nodes: set<Node>, a: Aliases): set<Mention> {
    set n, m | n in nodes && m in Mentions(n, a) :: m
  }

  lemma MentionsMore(done: set<Node>, n: Node, a: Aliases)
    ensures MentionsOf(done + {n}, a) == MentionsOf(done, a) + Mentions(n, a)
  {
  }

  ghost function RecordedBy(mentions: set<Mention>, isIdentifier: string -> bool): set<string> {
    set m, x | m in mentions && Recorded(m, isIdentifier).Success? && x in Recorded(m, isIdentifier).value :: x
  }

  /** The result that a set of mentions allows: all of them recorded, or the error of one. */
  ghost predicate Reports(r: Result<set<string>, AnalysisError>, mentions: set<Mention>, isIdentifier: string -> bool) {
    match r
    case Success(modules) =>
      && (forall m | m in mentions :: Recorded(m, isIdentifier).Success?)
      && modules == RecordedBy(mentions, isIdentifier)
    case Failure(error) =>
      exists m :: m in mentions && Recorded(m, isIdentifier) == Failure(error)
  }

  /** What visiting a node does to the collected modules. */
  ghost predicate Visited(before: set<string>, after: set<string>, error: Option<AnalysisError>,
                          mentions: set<Mention>, isIdentifier: string -> bool) {
    match error
    case None =>
      && (forall m | m in mentions :: Recorded(m, isIdentifier).Success?)
      && after == before + RecordedBy(mentions, isIdentifier)
    case Some(e) => exists m :: m in mentions && Recorded(m, isIdentifier) == Failure(e)
  }

  lemma VisitedMore(before: set<string>, middle: set<string>, after: set<string>,
                    error: Option<AnalysisError>, a: set<Mention>, b: set<Mention>, isIdentifier: string -> bool)
    requires Visited(before, middle, None, a, isIdentifier) && Visited(middle, after, error, b, isIdentifier)
    ensures Visited(before, after, error, a + b, isIdentifier)
  {
    assert RecordedBy(a + b, isIdentifier) == RecordedBy(a, isIdentifier) + RecordedBy(b, isIdentifier);
  }

  ghost function AsSet(nodes: seq<Node>): set<Node> {
    set n | n in nodes
  }

  /** All these nodes were visited without error. */
  ghost predicate VisitedAll(nodes: seq<Node>, imports: set<string>, a: Aliases, isIdentifier: string -> bool) {
    Visited({}, imports, None, MentionsOf(AsSet(nodes), a), isIdentifier)
  }

  lemma NothingVisited(a: Aliases, isIdentifier: string -> bool)
    ensures VisitedAll([], {}, a, isIdentifier)
  {
    assert MentionsOf(AsSet([]), a) == {};
  }

  lemma VisitedOneMore(nodes: seq<Node>, i: nat, before: set<string>, after: set<string>, error: Option<AnalysisError>,
                       a: Aliases, isIdentifier: string -> bool)
    requires i < |nodes| && VisitedAll(nodes[..i], before, a, isIdentifier)
    requires Visited(before, after, error, Mentions(nodes[i], a), isIdentifier)
    ensures error.None? ==> VisitedAll(nodes[..i + 1], after, a, isIdentifier)
    ensures error.Some? ==> exists m :: m in MentionsOf(AsSet(nodes), a) && Recorded(m, isIdentifier) == Failure(error.value)
  {
    if error.None? {
      assert AsSet(nodes[..i + 1]) == AsSet(nodes[..i]) + {nodes[i]};
      MentionsMore(AsSet(nodes[..i]), nodes[i], a);
      VisitedMore({}, before, after, error, MentionsOf(AsSet(nodes[..i]), a), Mentions(nodes[i], a), isIdentifier);
    } else {
      var m :| m in Mentions(nodes[i], a) && Recorded(m, isIdentifier) == Failure(error.value);
      assert nodes[i] in AsSet(nodes);
    }
  }

  lemma FailureReports(nodes: seq<Node>, all: set<Node>, error: AnalysisError, a: Aliases, isIdentifier: string -> bool)
    requires forall n :: n in nodes <==> n in all
    requires exists m :: m in MentionsOf(AsSet(nodes), a) && Recorded(m, isIdentifier) == Failure(error)
    ensures Reports(Failure(error), MentionsOf(all, a), isIdentifier)
  {
    assert AsSet(nodes) == all;
  }

  lemma SuccessReports(nodes: seq<Node>, all: set<Node>, imports: set<string>, a: Aliases, isIdentifier: string -> bool)
    requires (forall n :: n in nodes <==> n in all) && VisitedAll(nodes, imports, a, isIdentifier)
    ensures Reports(Success(imports), MentionsOf(all, a), isIdentifier)
  {
    assert AsSet(nodes) == all;
  }

  /** Two analyses of one file agree: both fail, or both succeed with the same modules. */
  lemma ReportIsDetermined(r: Result<set<string>, AnalysisError>, s: Result<set<string>, AnalysisError>,
                           nodes: set<Node>, a: Aliases, b: Aliases, isIdentifier: string -> bool)
    requires IsSolution(a, nodes) && IsSolution(b, nodes)
    requires Reports(r, MentionsOf(nodes, a), isIdentifier) && Reports(s, MentionsOf(nodes, b), isIdentifier)
    ensures r.Success? <==> s.Success?
    ensures r.Success? ==> r == s
  {
    SolutionIsUnique(a, b, nodes);
  }

  class ImportAnalyzer {
    const tree: Node
    const isIdentifier: string -> bool
    var imports: set<string>
    var moduleAliases: Table<ApiModule>
    var functionAliases: Table<ApiFunction>

    ghost function Tables(): Aliases
      reads this
    {
      Aliases(moduleAliases, functionAliases)
    }

    constructor (tree: Node, isIdentifier: string -> bool)
      ensures this.tree == tree && this.isIdentifier == isIdentifier
      ensures imports == {} && IsSolution(Tables(), Nodes(tree))
    {
      this.tree := tree;
      this.isIdentifier := isIdentifier;
      imports := {};
      moduleAliases := map["builtins" := {Builtins}, "importlib" := {Importlib}, "runpy" := {Runpy}];
      functionAliases := map["__import__" := {BuiltinsImport}];
      new;
      CollectApiAliases();
    }

    method CollectApiAliases()
      requires IsSeeds(Tables(), {})
      modifies this`moduleAliases, this`functionAliases
      ensures IsSolution(Tables(), Nodes(tree))
    {
      var nodes := Walk(tree);
      var assignments: seq<Assignment> := [];
      ghost var done: set<Node> := {};
      for i := 0 to |nodes|
        invariant done == set n | n in nodes[..i]
        invariant IsSeeds(Tables(), done)
        invariant forall p :: p in assignments <==> p in AssignmentsOf(done)
      {
        var node := nodes[i];
        CollectNode(node, done);
        assignments := assignments + NodeAssignments(node);
        done := done + {node};
      }
      assert done == Nodes(tree);
      ghost var seeds := Tables();
      CloseUnder(assignments);
      assert (set p | p in assignments) == AssignmentsOf(done);
    }

    /** Adds what one import statement binds. */
    method CollectNode(node: Node, ghost done: set<Node>)
      requires IsSeeds(Tables(), done)
      modifies this`moduleAliases, this`functionAliases
      ensures IsSeeds(Tables(), done + {node})
    {
      var changed;
      if node.Import? {
        OtherNodesSeedNothing(Tables(), done, Import(node.names[..0]));
        for i := 0 to |node.names|
          invariant IsSeeds(Tables(), done + {Import(node.names[..i])})
        {
          ghost var before := Tables();
          var alias := node.names[i];
          var m := ApiModuleNamed(alias.name);
          if m.Some? {
            moduleAliases, changed := AddAlias(moduleAliases, alias.Bound(), {m.value});
          }
          SeedModule(before, Tables(), done, node.names, i);
        }
        assert node == Import(node.names[..|node.names|]);
      } else if node.ImportFrom? && node.level == 0 && node.origin.Some? && ApiModuleNamed(node.origin.value).Some? {
        OtherNodesSeedNothing(Tables(), done, node.(names := node.names[..0]));
        for i := 0 to |node.names|
          invariant IsSeeds(Tables(), done + {node.(names := node.names[..i])})
        {
          ghost var before := Tables();
          var alias := node.names[i];
          var f := ApiFunctionNamed(ApiModuleNamed(node.origin.value).value, alias.name);
          if f.Some? {
            functionAliases, changed := AddAlias(functionAliases, alias.Bound(), {f.value});
          }
          SeedFunction(before, Tables(), done, node, i);
        }
        assert node == node.(names := node.names[..|node.names|]);
      } else {
        OtherNodesSeedNothing(Tables(), done, node);
      }
    }

    /** Repeats all assignments until a whole pass changes nothing. */
    method CloseUnder(assignments: seq<Assignment>)
      requires ProperAliases(Tables())
      modifies this`moduleAliases, this`functionAliases
      ensures IsLeast(Tables(), old(Tables()), set p | p in assignments)
    {
      ghost var pairs := set p | p in assignments;
      ghost var names := Keys(Tables()) + NamesIn(assignments);
      LeqReflexive(Tables());
      var changed := true;
      while changed
        invariant ProperAliases(Tables()) && Keys(Tables()) <= names
        invariant Leq(old(Tables()), Tables())
        invariant BelowClosed(Tables(), old(Tables()), pairs)
        invariant !changed ==> ClosedAll(Tables(), pairs)
        decreases Measure(Tables(), names), changed
      {
        ghost var start := Tables();
        changed := Pass(assignments, old(Tables()), names);
        LeqTransitive(old(Tables()), start, Tables());
        MeasureShrinks(start, Tables(), names);
      }
    }

    /** One pass over all assignments. */
    method Pass(assignments: seq<Assignment>, ghost seeds: Aliases, ghost names: set<string>) returns (changed: bool)
      requires ProperAliases(Tables()) && Keys(Tables()) <= names && NamesIn(assignments) <= names
      requires BelowClosed(Tables(), seeds, set p | p in assignments)
      modifies this`moduleAliases, this`functionAliases
      ensures ProperAliases(Tables()) && Keys(Tables()) <= names
      ensures Leq(old(Tables()), Tables()) && (changed <==> Tables() != old(Tables()))
      ensures BelowClosed(Tables(), seeds, set p | p in assignments)
      ensures !changed ==> ClosedAll(Tables(), set p | p in assignments)
    {
      ghost var pairs := set p | p in assignments;
      LeqReflexive(Tables());
      changed := false;
      for i := 0 to |assignments|
        invariant ProperAliases(Tables()) && Keys(Tables()) <= names
        invariant Leq(old(Tables()), Tables()) && (changed <==> Tables() != old(Tables()))
        invariant BelowClosed(Tables(), seeds, pairs)
        invariant !changed ==> forall j | 0 <= j < i :: Closed(Tables(), assignments[j].0, assignments[j].1)
      {
        ghost var before := Tables();
        var (target, value) := assignments[i];
        assert assignments[i] in pairs;
        assert TargetNames(target) <= names;
        var step := BindAssignment(target, value);
        changed := changed || step;
        BindKeys(before, target, value);
        BindGrows(before, target, value);
        BindFixedIffClosed(before, target, value);
        BelowClosedStep(before, target, value, seeds, pairs);
        NoWayBack(old(Tables()), before, Tables());
      }
    }

    method BindAssignment(target: Node, value: Node) returns (changed: bool)
      requires ProperAliases(Tables())
      modifies this`moduleAliases, this`functionAliases
      ensures Tables() == Bind(old(Tables()), target, value)
      ensures changed <==> Tables() != old(Tables())
      decreases target
    {
      if target.Name? {
        var viaModules, viaFunctions;
        moduleAliases, viaModules := AddAlias(moduleAliases, target.id, ResolveModules(Aliases(moduleAliases, functionAliases), value));
        functionAliases, viaFunctions := AddAlias(functionAliases, target.id, ResolveFunctions(Aliases(moduleAliases, functionAliases), value));
        return viaModules || viaFunctions;
      }
      if target.Display? && value.Display? && |target.elts| == |value.elts| {
        changed := false;
        for i := 0 to |target.elts|
          invariant ProperAliases(Tables())
          invariant Tables() == BindEach(old(Tables()), target.elts[..i], value.elts[..i])
          invariant changed <==> Tables() != old(Tables())
        {
          ghost var before := Tables();
          assert target.elts[i] in target.elts;
          var step := BindAssignment(target.elts[i], value.elts[i]);
          changed := changed || step;
          assert target.elts[..i + 1][..i] == target.elts[..i] && value.elts[..i + 1][..i] == value.elts[..i];
          BindEachGrows(old(Tables()), target.elts[..i], value.elts[..i]);
          BindGrows(before, target.elts[i], value.elts[i]);
          NoWayBack(old(Tables()), before, Tables());
        }
        assert target.elts[..|target.elts|] == target.elts && value.elts[..|target.elts|] == value.elts;
        return changed;
      }
      return false;
    }
  
    /** Visits every node. Whether it succeeds, and with which modules, is fixed by the set of
        nodes alone. */
    method Analyze() returns (r: Result<set<string>, AnalysisError>)
      requires imports == {} && IsSolution(Tables(), Nodes(tree))
      modifies this`imports
      ensures Reports(r, MentionsOf(Nodes(tree), Tables()), isIdentifier)
    {
      ghost var a := Tables();
      var nodes := Walk(tree);
      NothingVisited(a, isIdentifier);
      for i := 0 to |nodes|
        invariant Tables() == a && VisitedAll(nodes[..i], imports, a, isIdentifier)
      {
        ghost var before := imports;
        var error := Visit(nodes[i]);
        VisitedOneMore(nodes, i, before, imports, error, a, isIdentifier);
        if error.Some? {
          FailureReports(nodes, Nodes(tree), error.value, a, isIdentifier);
          return Failure(error.value);
        }
      }
      assert nodes[..|nodes|] == nodes;
      SuccessReports(nodes, Nodes(tree), imports, a, isIdentifier);
      return Success(imports);
    }

    method Visit(node: Node) returns (error: Option<AnalysisError>)
      modifies this`imports
      ensures Visited(old(imports), imports, error, Mentions(node, Tables()), isIdentifier)
    {
      error := None;
      if node.Import? {
        error := VisitImport(node);
      } else if node.ImportFrom? {
        error := VisitImportFrom(node);
      } else if node.Call? {
        error := VisitCall(node);
      }
    }

    method VisitImport(node: Node) returns (error: Option<AnalysisError>)
      requires node.Import?
      modifies this`imports
      ensures Visited(old(imports), imports, error, Names(node), isIdentifier)
    {
      for i := 0 to |node.names|
        invariant Visited(old(imports), imports, None, Names(Import(node.names[..i])), isIdentifier)
      {
        ghost var before := imports;
        error := RecordAbsoluteModule(node.names[i].name);
        VisitedMore(old(imports), before, imports, error,
                    Names(Import(node.names[..i])), {Absolute(node.names[i].name)}, isIdentifier);
        assert Names(Import(node.names[..i + 1])) == Names(Import(node.names[..i])) + {Absolute(node.names[i].name)};
        if error.Some? {
          return error;
        }
      }
      assert node.names[..|node.names|] == node.names;
      return None;
    }

    /** The names taken from the package itself. */
    method VisitPackageNames(names: seq<Alias>) returns (error: Option<AnalysisError>)
      modifies this`imports
      ensures Visited(old(imports), imports, error, (set alias | alias in names :: FromPackage(alias)), isIdentifier)
    {
      ghost var done: set<Mention> := {};
      for i := 0 to |names|
        invariant done == set alias | alias in names[..i] :: FromPackage(alias)
        invariant Visited(old(imports), imports, None, done, isIdentifier)
      {
        ghost var before := imports;
        if names[i].name == "*" {
          imports := imports + {PACKAGE_INIT};
          error := None;
        } else {
          error := RecordAbsoluteModule(PACKAGE_PREFIX + names[i].name);
        }
        VisitedMore(old(imports), before, imports, error, done, {FromPackage(names[i])}, isIdentifier);
        done := done + {FromPackage(names[i])};
        if error.Some? {
          return error;
        }
      }
      assert names[..|names|] == names;
      return None;
    }

    method VisitImportFrom(node: Node) returns (error: Option<AnalysisError>)
      requires node.ImportFrom?
      modifies this`imports
      ensures Visited(old(imports), imports, error, FromNames(node), isIdentifier)
    {
      if node.level > 0 {
        if node.level != 1 {
          assert Recorded(Reject(RelativeImportEscapes), isIdentifier) == Failure(RelativeImportEscapes);
          return Some(RelativeImportEscapes);
        }
        if node.origin.Some? && node.origin.value != "" {
          error := RecordAbsoluteModule(PACKAGE_PREFIX + node.origin.value);
        } else {
          error := VisitPackageNames(node.names);
        }
        return error;
      }
      var origin := if node.origin.Some? then node.origin.value else "";
      if origin == PACKAGE {
        error := VisitPackageNames(node.names);
      } else if PACKAGE_PREFIX <= origin {
        error := RecordAbsoluteModule(origin);
      } else {
        error := None;
      }
    }

    method VisitCall(node: Node) returns (error: Option<AnalysisError>)
      requires node.Call?
      modifies this`imports
      ensures Visited(old(imports), imports, error, Mentions(node, Tables()), isIdentifier)
    {
      var todo := ResolveFunctions(Aliases(moduleAliases, functionAliases), node.func);
      ghost var all := todo;
      ghost var done: set<Mention> := {};
      while todo != {}
        invariant todo <= all && done == CallMentions(all - todo, node)
        invariant Visited(old(imports), imports, None, done, isIdentifier)
        decreases |todo|
      {
        var f :| f in todo;
        ghost var before := imports;
        error := VisitApiCall(f, node);
        VisitedMore(old(imports), before, imports, error, done, {CallMention(f, node)}, isIdentifier);
        CallMentionsMore(all - todo, f, node);
        assert all - (todo - {f}) == all - todo + {f};
        done := done + {CallMention(f, node)};
        todo := todo - {f};
        if error.Some? {
          CallMentionsGrow(all - todo, all, node);
          return error;
        }
      }
      assert all - todo == all;
      return None;
    }

    /** The loop body of the call visitor, for one function the callee may stand for. */
    method VisitApiCall(f: ApiFunction, node: Node) returns (error: Option<AnalysisError>)
      requires node.Call?
      modifies this`imports
      ensures Visited(old(imports), imports, error, {CallMention(f, node)}, isIdentifier)
    {
      var name := StaticString(Argument(node, TargetKeyword(f), 0));
      if name.None? {
        assert Recorded(CallMention(f, node), isIdentifier) == Failure(TargetNotStatic);
        return Some(TargetNotStatic);
      }
      var target := name.value;
      if "." <= target {
        if f != ImportModule {
          return None;
        }
        var package := StaticString(Argument(node, "package", 1));
        if package.None? && Argument(node, "package", 1) == Some(Name("__package__")) {
          package := Some(PACKAGE);
        }
        if package != Some(PACKAGE) || ".." <= target {
          assert Recorded(CallMention(f, node), isIdentifier) == Failure(CannotResolveRelative);
          return Some(CannotResolveRelative);
        }
        target := PACKAGE_PREFIX + target[1..];
      }
      error := RecordAbsoluteModule(target);
    }

    method RecordAbsoluteModule(name: string) returns (error: Option<AnalysisError>)
      modifies this`imports
      ensures Visited(old(imports), imports, error, {Absolute(name)}, isIdentifier)
    {
      assert Absolute(name) in {Absolute(name)};
      if name == PACKAGE {
        imports := imports + {PACKAGE_INIT};
        return None;
      }
      if !(PACKAGE_PREFIX <= name) {
        return None;
      }
      if exists segment | segment in Segments(name) :: !isIdentifier(segment) {
        assert Recorded(Absolute(name), isIdentifier) == Failure(InvalidModuleName);
        return Some(InvalidModuleName);
      }
      imports := imports + {name};
      return None;
    }
  }
}
