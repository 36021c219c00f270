/** What the reported module list is worth: on tracked files it holds every package module that
    a run imports, and nothing without a cause. */
module ImportCoverage {
  import opened Common
  import opened PythonSyntax
  import opened AliasAnalysis
  import opened ImportAnalyzer
  import opened PythonValues
  import opened PythonUnpacking
  import opened PythonWrites
  import opened ImportFlows
  import opened ImportRuns
  import opened ImportPrecision

  // ----- imports at run time -----

  /** The strings an argument expression can evaluate to. Inside the package `__package__` is the
      package name; nothing is known of other expressions. */
  ghost predicate MayBe(e: Node, s: string) {
    match e
    case Str(text) => s == text
    case Add(left, right) => exists l, r :: MayBe(left, l) && MayBe(right, r) && s == l + r
    case Name(id) => id == "__package__" ==> s == PACKAGE
    case _ => true
  }

  function LeadingDots(s: string): nat {
    if s != "" && s[0] == '.' then 1 + LeadingDots(s[1..]) else 0
  }

  /** `package` without its last `k` components, if it has that many and one more. */
  function Ancestor(package: string, k: nat): Option<string>
    decreases |package|, k
  {
    if k == 0 then Some(package)
    else if package == "" then None
    else if package[|package| - 1] == '.' then Ancestor(package[..|package| - 1], k - 1)
    else Ancestor(package[..|package| - 1], k)
  }

  /** The module that a relative name denotes, as Python resolves it. */
  function ResolveRelative(name: string, package: string): Option<string>
    requires LeadingDots(name) > 0
  {
    var level := LeadingDots(name);
    LeadingDotsBounded(name);
    var base := Ancestor(package, level - 1);
    if base.None? then None
    else if level == |name| then base
    else Some(base.value + "." + name[level..])
  }

  lemma LeadingDotsBounded(s: string)
    ensures LeadingDots(s) <= |s|
  {
  }

  /** Calling `f` with the arguments of `n` can import module `m`. Neither `__import__` nor `run_module`
      accepts a name with leading dots; `__import__` may be given a level instead. */
  ghost predicate MayImport(f: ApiFunction, n: Node, m: string)
    requires n.Call?
  {
    exists name :: MayPass(n, TargetKeyword(f), 0, name) && Denotes(f, n, name, m)
  }

  ghost predicate MayPass(n: Node, keyword: string, position: nat, s: string)
    requires n.Call?
  {
    Argument(n, keyword, position).Some? && MayBe(Argument(n, keyword, position).value, s)
  }

  ghost predicate Denotes(f: ApiFunction, n: Node, name: string, m: string)
    requires n.Call?
  {
    if LeadingDots(name) == 0 then m == name || (Leveled(f, n) && m == AtLevelOne(name))
    else f.ImportModule? && exists package :: MayPass(n, "package", 1, package) && ResolveRelative(name, package) == Some(m)
  }

  /** `__import__` is given a level, or may be. From inside the package only level one leads anywhere. */
  predicate Leveled(f: ApiFunction, n: Node)
    requires n.Call?
  {
    f.BuiltinsImport? && (Spreads(n) || Argument(n, "level", 4).Some?)
  }

  function AtLevelOne(name: string): string {
    if name == "" then PACKAGE else PACKAGE_PREFIX + name
  }

  /** The call can be given `item` in its `fromlist`: a literal shows its items, a string is taken
      character by character, and nothing is known of other expressions or of spread arguments. */
  ghost predicate MayTake(n: Node, item: string)
    requires n.Call?
  {
    || Spreads(n)
    || (Argument(n, "fromlist", 3).Some? && MayContain(Argument(n, "fromlist", 3).value, item))
  }

  predicate Spreads(n: Node)
    requires n.Call?
  {
    (exists arg | arg in n.args :: arg.Starred?) || (exists keyword | keyword in n.keywords :: keyword.arg.None?)
  }

  ghost predicate MayContain(e: Node, item: string) {
    match e
    case Display(elts) => exists elt | elt in elts :: MayBe(elt, item)
    case Str(text) => exists c | c in text :: item == [c]
    case _ => true
  }

  /** The modules Python loads for a call of `f` on the arguments of `n`: the target with all packages
      around it, the `__main__` of a package that is run, and the items of a `fromlist` that are
      modules. */
  ghost predicate CallLoads(f: ApiFunction, n: Node, m: string, isModule: string -> bool)
    requires n.Call?
  {
    exists target :: MayImport(f, n, target) && LoadsFor(f, n, target, m, isModule)
  }

  ghost predicate LoadsFor(f: ApiFunction, n: Node, target: string, m: string, isModule: string -> bool)
    requires n.Call?
  {
    || m == target || Above(m, target)
    || (isModule(m) && f.RunModule? && m == target + "." + "__main__")
    || (isModule(m) && f.BuiltinsImport? && exists item :: MayTake(n, item) && item != "*" && m == target + "." + item)
  }

  /** The module an import statement takes its names from; `None` when it leaves the package. */
  function Origin(n: Node): Option<string>
    requires n.ImportFrom?
  {
    if n.level == 0 then n.origin
    else if n.level > 1 then None
    else if n.origin.None? || n.origin.value == "" then Some(PACKAGE)
    else Some(PACKAGE + "." + n.origin.value)
  }

  /** `x` is a package around module `m`, at whatever distance. */
  predicate Above(x: string, m: string) {
    x + "." <= m
  }

  /** The modules Python loads for a statement: each named module with all packages around it, and
      the imported names that are modules of their own. */
  ghost predicate Loads(n: Node, m: string, isModule: string -> bool) {
    match n
    case Import(names) => exists alias | alias in names :: m == alias.name || Above(m, alias.name)
    case ImportFrom(_, _, names) =>
      && Origin(n).Some?
      && var origin := Origin(n).value;
         || m == origin || Above(m, origin)
         || (isModule(m) && exists alias | alias in names :: alias.name != "*" && m == origin + "." + alias.name)
    case _ => false
  }

  predicate InPackage(m: string) {
    m == PACKAGE || PACKAGE_PREFIX <= m
  }

  function ListedAs(m: string): string {
    if m == PACKAGE then PACKAGE_INIT else m
  }

  // ----- coverage -----

  lemma {:induction false} StaticIsCertain(e: Node, s: string)
    requires StaticText(e).Some? && MayBe(e, s)
    ensures s == StaticText(e).value
  {
    if e.Add? {
      var l, r :| MayBe(e.left, l) && MayBe(e.right, r) && s == l + r;
      StaticIsCertain(e.left, l);
      StaticIsCertain(e.right, r);
    }
  }

  lemma {:induction false} StaticIsPossible(e: Node)
    requires StaticText(e).Some?
    ensures MayBe(e, StaticText(e).value)
  {
    if e.Add? {
      StaticIsPossible(e.left);
      StaticIsPossible(e.right);
    }
  }

  lemma {:induction false} TrailingDotLeavesEmptySegment(name: string)
    requires name != "" && name[|name| - 1] == '.'
    ensures |Segments(name)| > 1 && "" in Segments(name)[1..]
    ensures "" in Segments(name)
  {
    if |name| > 1 {
      TrailingDotLeavesEmptySegment(name[1..]);
    }
  }

  /** A relative name the analyzer accepts has one dot; inside the package it denotes the module
      the analyzer records, or the package itself, which the analyzer refuses. */
  lemma AcceptedRelative(name: string, m: string)
    requires "." <= name && !(".." <= name) && ResolveRelative(name, PACKAGE) == Some(m)
    ensures m == if name == "." then PACKAGE else PACKAGE_PREFIX + name[1..]
  {
    assert LeadingDots(name) == 1 by {
      assert LeadingDots(name[1..]) == 0;
    }
  }

  lemma DotPrefix(name: string)
    ensures "." <= name <==> LeadingDots(name) > 0
  {
  }

  lemma AcceptedCall(f: ApiFunction, n: Node, m: string, isIdentifier: string -> bool)
    requires n.Call? && MayImport(f, n, m) && !isIdentifier("") && !Leveled(f, n)
    requires Recorded(CallMention(f, n), isIdentifier).Success?
    ensures CallMention(f, n) == Absolute(m)
  {
    var name :| MayPass(n, TargetKeyword(f), 0, name) && Denotes(f, n, name, m);
    StaticIsCertain(Argument(n, TargetKeyword(f), 0).value, name);
    DotPrefix(name);
    if "." <= name {
      var package :| MayPass(n, "package", 1, package) && ResolveRelative(name, package) == Some(m);
      if StaticString(Argument(n, "package", 1)).Some? {
        StaticIsCertain(Argument(n, "package", 1).value, package);
      }
      AcceptedRelative(name, m);
      if name == "." {
        assert PACKAGE_PREFIX + name[1..] == PACKAGE_PREFIX;
        TrailingDotLeavesEmptySegment(PACKAGE_PREFIX);
      }
    }
  }

  lemma CalleeResolves(h: seq<Write>, nodes: set<Node>, a: Aliases, n: Node, f: ApiFunction)
    requires Tracked(nodes) && IsSolution(a, nodes) && IsHistory(h, nodes)
    requires n in nodes && n.Call? && Yields(n.func, FromHistory(h), FunctionRef(f))
    ensures f in ResolveFunctions(a, n.func)
  {
    HistoriesAreDescribed(h, nodes, a);
    SolutionIsSeeded(nodes, a);
    DescribedReads(h, nodes, a);
    YieldsMore(n.func, FromHistory(h), FromTables(a), FunctionRef(f));
    SeenResolves(n.func, a, FunctionRef(f));
  }

  // ----- statements -----

  /** Loaded for the statement, but not by its name: a package around the named module, a submodule
      taken from a deeper package, or the package itself unless `*` is taken from it. */
  ghost predicate Unnamed(n: Node, m: string)
    requires IsImport(n)
  {
    if n.Import? then forall alias | alias in n.names :: alias.name != m
    else if Origin(n) == Some(PACKAGE) then m == PACKAGE && forall alias | alias in n.names :: alias.name != "*"
    else Origin(n) != Some(m)
  }

  lemma NothingIsAbovePackage(x: string)
    ensures !Above(x, PACKAGE)
  {
    assert forall i | 0 <= i < |PACKAGE| :: PACKAGE[i] != '.';
    if |x| < |PACKAGE| {
      assert (x + ".")[|x|] == '.';
    }
  }

  /** A module and a package around it lie both in the package or both outside. */
  lemma InsideIsInPackage(x: string, m: string)
    requires Above(x, m)
    ensures InPackage(x) <==> InPackage(m)
  {
    NothingIsAbovePackage(x);
    assert (x + ".")[|x|] == '.' && m[|x|] == '.' && m[..|x|] == x;
    if |x| < |PACKAGE| {
      assert PACKAGE[|x|] != '.' && PACKAGE_PREFIX[|x|] == PACKAGE[|x|];
    } else if |x| == |PACKAGE| {
      assert PACKAGE_PREFIX[..|x|] == PACKAGE;
      assert m[..|x| + 1] == x + ".";
    } else {
      assert x[..|PACKAGE_PREFIX|] == m[..|PACKAGE_PREFIX|];
    }
  }

  lemma ChildIsAbove(x: string, name: string)
    ensures Above(x, x + "." + name)
  {
    assert x + "." + name == (x + ".") + name;
  }

  /** Of the package modules that Python loads for a statement, the analyzer records exactly those the
      statement names. */
  lemma LoadedIsRecordedIff(n: Node, a: Aliases, m: string, isModule: string -> bool)
    requires IsImport(n) && Loads(n, m, isModule) && InPackage(m)
    ensures Absolute(m) in Mentions(n, a) <==> !Unnamed(n, m)
  {
    if n.ImportFrom? {
      var origin := Origin(n).value;
      if origin == PACKAGE {
        PackageNames(n, a, m, isModule);
      } else {
        DeeperOrigin(n, a, m, isModule);
      }
    }
  }

  /** `import m` loads the packages around `m` and records none of them. */
  lemma SurroundingIsNotRecorded(x: string, m: string, a: Aliases, isModule: string -> bool)
    requires Above(x, m) && InPackage(m)
    ensures var n := Import([Alias(m, None)]); InPackage(x) && Loads(n, x, isModule) && Absolute(x) !in Mentions(n, a)
  {
    var n := Import([Alias(m, None)]);
    InsideIsInPackage(x, m);
    assert Alias(m, None) in n.names && |x| < |m|;
    LoadedIsRecordedIff(n, a, x, isModule);
  }

  /** `from sub import child` loads a module `sub.child` and does not record it. */
  lemma SubmoduleIsNotRecorded(sub: string, child: string, a: Aliases, isModule: string -> bool)
    requires InPackage(sub) && sub != PACKAGE && child != "*" && isModule(sub + "." + child)
    ensures var n, m := ImportFrom(0, Some(sub), [Alias(child, None)]), sub + "." + child;
      InPackage(m) && Loads(n, m, isModule) && Absolute(m) !in Mentions(n, a)
  {
    var n, m := ImportFrom(0, Some(sub), [Alias(child, None)]), sub + "." + child;
    ChildIsAbove(sub, child);
    InsideIsInPackage(sub, m);
    assert Alias(child, None) in n.names;
    LoadedIsRecordedIff(n, a, m, isModule);
  }

  lemma PackageNames(n: Node, a: Aliases, m: string, isModule: string -> bool)
    requires n.ImportFrom? && Origin(n) == Some(PACKAGE) && Loads(n, m, isModule) && InPackage(m)
    ensures Absolute(m) in Mentions(n, a) <==> !Unnamed(n, m)
  {
    NothingIsAbovePackage(m);
    OriginOfPackage(n);
    assert Mentions(n, a) == set alias | alias in n.names :: FromPackage(alias);
    if m == PACKAGE {
      assert forall alias | alias in n.names :: FromPackage(alias) == Absolute(PACKAGE) <==> alias.name == "*";
    } else {
      var alias :| alias in n.names && alias.name != "*" && m == PACKAGE + "." + alias.name;
      assert m == PACKAGE_PREFIX + alias.name;
      assert FromPackage(alias) == Absolute(m);
    }
  }

  lemma OriginOfPackage(n: Node)
    requires n.ImportFrom? && Origin(n) == Some(PACKAGE)
    ensures FromNames(n) == set alias | alias in n.names :: FromPackage(alias)
  {
    assert n.origin.Some? ==> |PACKAGE + "." + n.origin.value| > |PACKAGE|;
  }

  lemma DeeperOrigin(n: Node, a: Aliases, m: string, isModule: string -> bool)
    requires n.ImportFrom? && Origin(n).Some? && Origin(n) != Some(PACKAGE) && Loads(n, m, isModule) && InPackage(m)
    ensures Absolute(m) in Mentions(n, a) <==> !Unnamed(n, m)
    ensures InPackage(Origin(n).value) && Absolute(Origin(n).value) in Mentions(n, a)
  {
    var origin := Origin(n).value;
    if Above(m, origin) {
      InsideIsInPackage(m, origin);
    } else if m != origin {
      var alias :| alias in n.names && alias.name != "*" && m == origin + "." + alias.name;
      ChildIsAbove(origin, alias.name);
      InsideIsInPackage(origin, m);
    }
    assert InPackage(origin);
    assert n.level == 1 ==> PACKAGE + "." + n.origin.value == PACKAGE_PREFIX + n.origin.value;
  }

  /** What the analyzer records for a statement is loaded by it, except for a name of the package that
      is no module. */
  lemma RecordedIsLoadedIff(n: Node, a: Aliases, m: string, isModule: string -> bool)
    requires IsImport(n) && Absolute(m) in Mentions(n, a)
    ensures Loads(n, m, isModule)
       <==> !(n.ImportFrom? && Origin(n) == Some(PACKAGE) && m != PACKAGE && !isModule(m))
  {
    if n.ImportFrom? {
      if Origin(n) == Some(PACKAGE) {
        OriginOfPackage(n);
        var alias :| alias in n.names && FromPackage(alias) == Absolute(m);
        if alias.name != "*" {
          assert m == PACKAGE + "." + alias.name;
          assert |m| > |PACKAGE|;
        }
      } else {
        assert n.level == 1 ==> PACKAGE + "." + n.origin.value == PACKAGE_PREFIX + n.origin.value;
      }
    }
  }

  /** The list holds the module, one inside it, or the package directly around it. */
  ghost predicate Near(listed: set<string>, m: string) {
    || ListedAs(m) in listed
    || (exists x :: x in listed && Above(m, x))
    || (exists x, name :: InPackage(x) && ListedAs(x) in listed && m == x + "." + name)
  }

  lemma RecordedIsListed(nodes: set<Node>, a: Aliases, listed: set<string>, isIdentifier: string -> bool, n: Node, m: string)
    requires Reports(Success(listed), MentionsOf(nodes, a), isIdentifier)
    requires n in nodes && Absolute(m) in Mentions(n, a) && InPackage(m)
    ensures ListedAs(m) in listed
  {
    assert Absolute(m) in MentionsOf(nodes, a);
    assert Recorded(Absolute(m), isIdentifier).Success?;
  }

  /** Completeness of the list, statements: every package module that Python loads for a statement is
      listed, or one inside it is, or the package directly around it is. */
  lemma LoadedModulesAreNear(nodes: set<Node>, a: Aliases, listed: set<string>,
                             isIdentifier: string -> bool, isModule: string -> bool, n: Node, m: string)
    requires Reports(Success(listed), MentionsOf(nodes, a), isIdentifier)
    requires n in nodes && IsImport(n) && n.names != [] && Loads(n, m, isModule) && InPackage(m)
    ensures Near(listed, m)
    ensures !Unnamed(n, m) ==> ListedAs(m) in listed
  {
    LoadedIsRecordedIff(n, a, m, isModule);
    if !Unnamed(n, m) {
      RecordedIsListed(nodes, a, listed, isIdentifier, n, m);
    } else if n.Import? {
      var alias :| alias in n.names && (m == alias.name || Above(m, alias.name));
      InsideIsInPackage(m, alias.name);
      ListedInside(nodes, a, listed, isIdentifier, n, alias.name, m);
    } else if Origin(n) == Some(PACKAGE) {
      OriginOfPackage(n);
      var name := n.names[0].name;
      ChildIsAbove(PACKAGE, name);
      assert FromPackage(n.names[0]) == Absolute(PACKAGE + "." + name);
      InsideIsInPackage(PACKAGE, PACKAGE + "." + name);
      ListedInside(nodes, a, listed, isIdentifier, n, PACKAGE + "." + name, m);
    } else {
      DeeperOrigin(n, a, m, isModule);
      var origin := Origin(n).value;
      RecordedIsListed(nodes, a, listed, isIdentifier, n, origin);
      if Above(m, origin) {
        ListedInside(nodes, a, listed, isIdentifier, n, origin, m);
      }
    }
  }

  lemma ListedInside(nodes: set<Node>, a: Aliases, listed: set<string>, isIdentifier: string -> bool, n: Node, x: string, m: string)
    requires Reports(Success(listed), MentionsOf(nodes, a), isIdentifier)
    requires n in nodes && Absolute(x) in Mentions(n, a) && InPackage(x) && Above(m, x)
    ensures Near(listed, m)
  {
    RecordedIsListed(nodes, a, listed, isIdentifier, n, x);
    NothingIsAbovePackage(m);
  }

  // ----- calls -----

  /** The target of an accepted call is always what the analyzer records, if and only if the call is not
      an `__import__` that may be given a level. */
  lemma TargetIsCertainIff(f: ApiFunction, n: Node, isIdentifier: string -> bool)
    requires n.Call? && !isIdentifier("") && CallMention(f, n).Absolute? && Recorded(CallMention(f, n), isIdentifier).Success?
    ensures (forall m | MayImport(f, n, m) :: CallMention(f, n) == Absolute(m)) <==> !Leveled(f, n)
  {
    if Leveled(f, n) {
      var argument := Argument(n, TargetKeyword(f), 0).value;
      var name := StaticText(argument).value;
      StaticIsPossible(argument);
      DotPrefix(name);
      assert MayPass(n, TargetKeyword(f), 0, name) && Denotes(f, n, name, AtLevelOne(name));
      assert MayImport(f, n, AtLevelOne(name)) && |AtLevelOne(name)| > |name|;
    } else {
      forall m | MayImport(f, n, m) ensures CallMention(f, n) == Absolute(m) {
        AcceptedCall(f, n, m, isIdentifier);
      }
    }
  }

  /** Whatever a call loads is its target, a package around it, or directly inside it; and one lies in the
      package if and only if the other does. */
  lemma LoadedByCall(f: ApiFunction, n: Node, target: string, m: string, isModule: string -> bool)
    requires n.Call? && LoadsFor(f, n, target, m, isModule)
    ensures m == target || Above(m, target) || exists name :: m == target + "." + name
    ensures InPackage(m) <==> InPackage(target)
  {
    if Above(m, target) {
      InsideIsInPackage(m, target);
    } else if m != target {
      var name :| m == target + "." + name;
      ChildIsAbove(target, name);
      InsideIsInPackage(target, m);
    }
  }

  /** Of the modules that Python loads for an accepted call, the analyzer records exactly the target. */
  lemma CallLoadedIsRecordedIff(f: ApiFunction, n: Node, m: string, isIdentifier: string -> bool, isModule: string -> bool)
    requires n.Call? && CallLoads(f, n, m, isModule) && InPackage(m) && !isIdentifier("") && !Leveled(f, n)
    requires Recorded(CallMention(f, n), isIdentifier).Success?
    ensures CallMention(f, n) == Absolute(m) <==> MayImport(f, n, m)
  {
    if MayImport(f, n, m) {
      AcceptedCall(f, n, m, isIdentifier);
    } else if CallMention(f, n) == Absolute(m) {
      AcceptedCallImports(f, n, m, isIdentifier);
    }
  }

  /** The packages around the target of an accepted call are loaded and not recorded. */
  lemma CallSurroundingIsNotRecorded(f: ApiFunction, n: Node, x: string, m: string,
                                     isIdentifier: string -> bool, isModule: string -> bool)
    requires n.Call? && CallMention(f, n) == Absolute(m) && InPackage(m) && Above(x, m) && !isIdentifier("")
    requires Recorded(Absolute(m), isIdentifier).Success?
    ensures InPackage(x) && CallLoads(f, n, x, isModule) && CallMention(f, n) != Absolute(x)
  {
    AcceptedCallImports(f, n, m, isIdentifier);
    assert LoadsFor(f, n, m, x, isModule) && |x| < |m|;
    LoadedByCall(f, n, m, x, isModule);
  }

  /** So is the `__main__` of a package that is run. */
  lemma MainIsNotRecorded(n: Node, m: string, isIdentifier: string -> bool, isModule: string -> bool)
    requires n.Call? && CallMention(RunModule, n) == Absolute(m) && InPackage(m) && !isIdentifier("")
    requires Recorded(Absolute(m), isIdentifier).Success? && isModule(m + "." + "__main__")
    ensures var x := m + "." + "__main__"; InPackage(x) && CallLoads(RunModule, n, x, isModule) && CallMention(RunModule, n) != Absolute(x)
  {
    AcceptedCallImports(RunModule, n, m, isIdentifier);
    var x := m + "." + "__main__";
    assert LoadsFor(RunModule, n, m, x, isModule) && |m| < |x|;
    LoadedByCall(RunModule, n, m, x, isModule);
  }

  /** And so is a module named in the `fromlist`. */
  lemma FromlistIsNotRecorded(n: Node, m: string, item: string, isIdentifier: string -> bool, isModule: string -> bool)
    requires n.Call? && CallMention(BuiltinsImport, n) == Absolute(m) && InPackage(m) && !isIdentifier("")
    requires Recorded(Absolute(m), isIdentifier).Success? && MayTake(n, item) && item != "*" && isModule(m + "." + item)
    ensures var x := m + "." + item; InPackage(x) && CallLoads(BuiltinsImport, n, x, isModule) && CallMention(BuiltinsImport, n) != Absolute(x)
  {
    AcceptedCallImports(BuiltinsImport, n, m, isIdentifier);
    var x := m + "." + item;
    assert LoadsFor(BuiltinsImport, n, m, x, isModule) && |m| < |x|;
    LoadedByCall(BuiltinsImport, n, m, x, isModule);
  }

  /** Completeness of the list, calls: if in some history of a tracked file a callee is an import API,
      then of every package module that the call loads, a successful analysis lists it, one inside it or
      the package directly around it; the target itself it lists. `__import__` must not be given a
      level, by `TargetIsCertainIff`. */
  lemma ReachedCallsAreNear(h: seq<Write>, nodes: set<Node>, a: Aliases, listed: set<string>,
                            isIdentifier: string -> bool, isModule: string -> bool, n: Node, f: ApiFunction, m: string)
    requires Tracked(nodes) && IsSolution(a, nodes) && IsHistory(h, nodes)
    requires Reports(Success(listed), MentionsOf(nodes, a), isIdentifier) && !isIdentifier("")
    requires n in nodes && n.Call? && Yields(n.func, FromHistory(h), FunctionRef(f))
    requires CallLoads(f, n, m, isModule) && InPackage(m) && !Leveled(f, n)
    ensures Near(listed, m)
    ensures MayImport(f, n, m) ==> ListedAs(m) in listed
  {
    var target :| MayImport(f, n, target) && LoadsFor(f, n, target, m, isModule);
    LoadedByCall(f, n, target, m, isModule);
    ReachedTargetIsListed(h, nodes, a, listed, isIdentifier, n, f, target);
    if Above(m, target) {
      NothingIsAbovePackage(m);
    }
    if MayImport(f, n, m) {
      ReachedTargetIsListed(h, nodes, a, listed, isIdentifier, n, f, m);
    }
  }

  lemma ReachedTargetIsListed(h: seq<Write>, nodes: set<Node>, a: Aliases, listed: set<string>,
                              isIdentifier: string -> bool, n: Node, f: ApiFunction, m: string)
    requires Tracked(nodes) && IsSolution(a, nodes) && IsHistory(h, nodes)
    requires Reports(Success(listed), MentionsOf(nodes, a), isIdentifier) && !isIdentifier("")
    requires n in nodes && n.Call? && Yields(n.func, FromHistory(h), FunctionRef(f))
    requires MayImport(f, n, m) && InPackage(m) && !Leveled(f, n)
    ensures ListedAs(m) in listed
  {
    CalleeResolves(h, nodes, a, n, f);
    assert CallMention(f, n) in Mentions(n, a);
    assert CallMention(f, n) in MentionsOf(nodes, a);
    AcceptedCall(f, n, m, isIdentifier);
  }

  /** A cause for listing: a statement that loads the module or takes its name from the package, or a
      call that some run brings to an import API and that can import it. */
  ghost predicate Caused(nodes: set<Node>, m: string, isModule: string -> bool) {
    exists n :: n in nodes && (Loads(n, m, isModule) || TakesName(n, m, isModule) || CalledOn(n, nodes, m))
  }

  /** The statement takes from the package a name that is no module. */
  ghost predicate TakesName(n: Node, m: string, isModule: string -> bool) {
    n.ImportFrom? && Origin(n) == Some(PACKAGE) && !isModule(m) && exists alias | alias in n.names :: m == PACKAGE_PREFIX + alias.name
  }

  ghost predicate CalledOn(n: Node, nodes: set<Node>, m: string) {
    n.Call? && exists f :: Callable(n, nodes, f) && MayImport(f, n, m)
  }

  ghost predicate Callable(n: Node, nodes: set<Node>, f: ApiFunction)
    requires n.Call?
  {
    Evaluates(nodes, n.func, FunctionRef(f))
  }

  /** Precision of the list: every listed module has a cause and lies in the package. */
  lemma ListedModulesAreCaused(nodes: set<Node>, a: Aliases, listed: set<string>,
                               isIdentifier: string -> bool, isModule: string -> bool, x: string)
    requires IsSolution(a, nodes) && AllDelivered(nodes) && !isIdentifier("")
    requires Reports(Success(listed), MentionsOf(nodes, a), isIdentifier) && x in listed
    ensures exists m :: InPackage(m) && ListedAs(m) == x && Caused(nodes, m, isModule)
  {
    var mention :| mention in MentionsOf(nodes, a)
                   && Recorded(mention, isIdentifier).Success? && x in Recorded(mention, isIdentifier).value;
    var n :| n in nodes && mention in Mentions(n, a);
    var m := mention.name;
    if n.Call? {
      var f :| f in ResolveFunctions(a, n.func) && mention == CallMention(f, n);
      CalleeIsReached(nodes, a, n, f);
      AcceptedCallImports(f, n, m, isIdentifier);
      assert CalledOn(n, nodes, m);
    } else {
      StatementCauses(n, a, m, isModule);
    }
    assert InPackage(m) && ListedAs(m) == x && Caused(nodes, m, isModule);
  }

  lemma StatementCauses(n: Node, a: Aliases, m: string, isModule: string -> bool)
    requires !n.Call? && Absolute(m) in Mentions(n, a)
    ensures Loads(n, m, isModule) || TakesName(n, m, isModule)
  {
    RecordedIsLoadedIff(n, a, m, isModule);
    if !Loads(n, m, isModule) {
      OriginOfPackage(n);
      var alias :| alias in n.names && FromPackage(alias) == Absolute(m);
      assert alias.name != "*";
    }
  }

  lemma CalleeIsReached(nodes: set<Node>, a: Aliases, n: Node, f: ApiFunction)
    requires IsSolution(a, nodes) && AllDelivered(nodes) && n.Call? && f in ResolveFunctions(a, n.func)
    ensures Callable(n, nodes, f)
  {
    if n.func.Name? {
      AliasesAreReached(nodes, a, n.func.id);
      ReachedEvaluates(nodes, n.func.id, FunctionRef(f));
    } else {
      var m :| m in ResolveModules(a, n.func.value) && ApiFunctionNamed(m, n.func.attr) == Some(f);
      AliasesAreReached(nodes, a, n.func.value.id);
      ReachedEvaluates(nodes, n.func.value.id, ModuleRef(m));
      AttributeEvaluates(nodes, n.func.value, n.func.attr, m);
    }
  }

  lemma AcceptedCallImports(f: ApiFunction, n: Node, m: string, isIdentifier: string -> bool)
    requires n.Call? && CallMention(f, n) == Absolute(m) && InPackage(m) && !isIdentifier("")
    requires Recorded(Absolute(m), isIdentifier).Success?
    ensures MayImport(f, n, m)
  {
    var argument := Argument(n, TargetKeyword(f), 0).value;
    var name := StaticText(argument).value;
    StaticIsPossible(argument);
    DotPrefix(name);
    if "." <= name {
      assert MayPass(n, "package", 1, PACKAGE) by {
        if StaticString(Argument(n, "package", 1)).Some? {
          StaticIsPossible(Argument(n, "package", 1).value);
        }
      }
      if name == "." {
        assert m == PACKAGE_PREFIX;
        TrailingDotLeavesEmptySegment(PACKAGE_PREFIX);
        assert false;
      }
      assert LeadingDots(name[1..]) == 0;
      assert ResolveRelative(name, PACKAGE) == Some(m);
    }
    assert Denotes(f, n, name, m);
  }
}
