/** What the analyzed file can do at run time, and why the analysis covers it.

    Two kinds of run are considered. A history lets the writes of all statements happen in any order,
    each name being read at whatever moment, as threads and calls inside expressions allow: the
    analysis has to cover all of them. A run executes whole statements one after the other: what the
    analysis lists should happen already in one of these. */
module ImportRuns {
  import opened Common
  import opened PythonSyntax
  import opened AliasAnalysis
  import opened ImportAnalyzer
  import opened PythonValues
  import opened PythonUnpacking
  import opened PythonWrites
  import opened ImportFlows

  // ----- import statements -----

  function ModuleValue(name: string): Value {
    if ApiModuleNamed(name).Some? then ModuleRef(ApiModuleNamed(name).value) else Opaque(false)
  }

  /** The tracked function that `from m import *` brings in, under its own name. Names that
      start with an underscore are not exported this way. */
  function StarExport(m: ApiModule): Option<(string, ApiFunction)> {
    match m
    case Builtins => None
    case Importlib => Some(("import_module", ImportModule))
    case Runpy => Some(("run_module", RunModule))
  }

  function StarExports(n: Node): Option<(string, ApiFunction)>
    requires n.ImportFrom?
  {
    if n.level == 0 && n.origin.Some? && ApiModuleNamed(n.origin.value).Some?
    then StarExport(ApiModuleNamed(n.origin.value).value)
    else None
  }

  predicate IsImport(n: Node) {
    n.Import? || n.ImportFrom?
  }

  /** What one imported name writes; `import a.b` binds `a`. Modules do not unpack; other imported
      values are taken to do, which lets the most writes happen. */
  function ImportWrites(n: Node, alias: Alias): seq<Write>
    requires IsImport(n)
  {
    if n.Import? then
      if alias.asname.Some? then [(alias.asname.value, ModuleValue(alias.name))]
      else
        var root := Segments(alias.name)[0];
        [(root, ModuleValue(root))]
    else if alias.name == "*" then
      var exported := StarExports(n);
      if exported.Some? then [(exported.value.0, FunctionRef(exported.value.1))] else []
    else
      var f := ImportedFunction(n, alias);
      [(alias.Bound(), if f.Some? then FunctionRef(f.value) else Opaque(true))]
  }

  /** The tables hold at least what the statements seed. */
  ghost predicate Seeded(a: Aliases, nodes: set<Node>) {
    && (forall name, m | SeedsModule(nodes, name, m) :: m in Lookup(a.modules, name))
    && (forall name, f | SeedsFunction(nodes, name, f) :: f in Lookup(a.functions, name))
  }

  /** What a star brings in is also imported by its name. */
  ghost predicate StarSeen(n: Node, alias: Alias, nodes: set<Node>)
    requires IsImport(n)
  {
    n.ImportFrom? && alias.name == "*" && StarExports(n).Some? ==>
      SeedsFunction(nodes, StarExports(n).value.0, StarExports(n).value.1)
  }

  lemma ImportIsDescribed(n: Node, alias: Alias, nodes: set<Node>, a: Aliases)
    requires IsImport(n) && n in nodes && alias in n.names && StarSeen(n, alias, nodes) && Seeded(a, nodes)
    ensures DescribesAll(a, ImportWrites(n, alias))
  {
    if n.Import? {
      var name := if alias.asname.Some? then alias.asname.value else Segments(alias.name)[0];
      var origin := if alias.asname.Some? then alias.name else name;
      if ApiModuleNamed(origin).Some? {
        assert SeedsModule(nodes, name, ApiModuleNamed(origin).value);
      }
    } else if alias.name != "*" && ImportedFunction(n, alias).Some? {
      assert SeedsFunction(nodes, alias.Bound(), ImportedFunction(n, alias).value);
    }
  }

  /** The least tables a statement seeds. */
  ghost function OwnSeeds(n: Node): Aliases
    requires IsImport(n)
  {
    var names := (set alias | alias in n.names :: alias.Bound()) + {"builtins", "importlib", "runpy", "__import__"};
    Aliases(map name | name in names :: set m | SeedsModule({n}, name, m),
            map name | name in names :: set f | SeedsFunction({n}, name, f))
  }

  lemma OwnSeedsAreSeeded(n: Node)
    requires IsImport(n)
    ensures Seeded(OwnSeeds(n), {n})
    ensures forall name, f | f in Lookup(OwnSeeds(n).functions, name) :: SeedsFunction({n}, name, f)
  {
  }

  /** The check of one imported name is exact: all tables that hold what the statement seeds describe
      what it writes if and only if a star brings in nothing that is not also imported by name. */
  lemma StarSeenExactly(n: Node, alias: Alias)
    requires IsImport(n) && alias in n.names
    ensures StarSeen(n, alias, {n}) <==> forall a | Seeded(a, {n}) :: DescribesAll(a, ImportWrites(n, alias))
  {
    if StarSeen(n, alias, {n}) {
      forall a | Seeded(a, {n}) ensures DescribesAll(a, ImportWrites(n, alias)) {
        ImportIsDescribed(n, alias, {n}, a);
      }
    } else {
      OwnSeedsAreSeeded(n);
      var a, exported := OwnSeeds(n), StarExports(n).value;
      assert ImportWrites(n, alias) == [(exported.0, FunctionRef(exported.1))];
      assert (exported.0, FunctionRef(exported.1)) in ImportWrites(n, alias);
      assert !DescribesAll(a, ImportWrites(n, alias));
    }
  }

  // ----- callees -----

  ghost predicate Resolves(a: Aliases, e: Node, v: Value) {
    && (v.ModuleRef? ==> v.m in ResolveModules(a, e))
    && (v.FunctionRef? ==> v.f in ResolveFunctions(a, e))
  }

  /** The resolver looks into the expression, or there is no API to find in it. */
  ghost predicate Seen(e: Node) {
    e.Name? || (e.Attribute? && e.value.Name?) || forall s :: !Gives(e, s)
  }

  lemma SeenResolves(e: Node, a: Aliases, v: Value)
    requires Seen(e) && Yields(e, FromTables(a), v)
    ensures Resolves(a, e, v)
  {
    if e.Attribute? && e.value.Name? {
      var u :| Yields(e.value, FromTables(a), u) && IsMember(u, e.attr, v);
    } else if !e.Name? && IsApi(v) {
      var s := GivenComesVia(e, FromTables(a), v);
    }
  }

  /** The check of an expression is exact: the resolver finds every API that the expression can have
      if and only if the expression is seen. */
  lemma SeenExactly(e: Node)
    ensures Seen(e) <==> forall a, v | Yields(e, FromTables(a), v) :: Resolves(a, e, v)
  {
    if Seen(e) {
      forall a, v | Yields(e, FromTables(a), v) ensures Resolves(a, e, v) {
        SeenResolves(e, a, v);
      }
    } else {
      var s :| Gives(e, s);
      var a, v := HiddenApi(e, s);
      assert Yields(e, FromTables(a), v) && !Resolves(a, e, v);
    }
  }

  lemma HiddenApi(e: Node, s: Source) returns (a: Aliases, v: Value)
    requires Gives(e, s) && !e.Name? && !(e.Attribute? && e.value.Name?)
    ensures Yields(e, FromTables(a), v) && !Resolves(a, e, v)
  {
    if s.Called? {
      CallIsApi(e, s.name, s.attr);
      var m := ModuleOf(s.attr);
      a, v := Aliases(map[s.name := {m}], map[]), FunctionRef(ApiFunctionNamed(m, s.attr).value);
      assert FromTables(a)(s.name, ModuleRef(m));
    } else {
      a, v := Aliases(map[s.name := {Importlib}], map[]), ModuleRef(Importlib);
    }
    GivenIsYielded(e, FromTables(a), s, v);
  }

  // ----- soundness over histories -----

  /** A file inside the fragment: a check on its syntax. */
  ghost predicate Tracked(nodes: set<Node>) {
    && AllCarried(AssignmentsOf(nodes))
    && (forall n | n in nodes && n.Call? :: Seen(n.func))
    && (forall n, alias | n in nodes && IsImport(n) && alias in n.names :: StarSeen(n, alias, nodes))
  }

  /** Before anything is written, a name stands for an import API only if it is the API's own name. */
  predicate InitialValue(id: string, v: Value) {
    match v
    case ModuleRef(m) => ApiModuleNamed(id) == Some(m)
    case FunctionRef(f) => id == "__import__" && f == BuiltinsImport
    case _ => true
  }

  /** A read may see any earlier write, or the initial value. */
  function FromHistory(h: seq<Write>): Reads {
    (id, v) => InitialValue(id, v) || (id, v) in h
  }

  ghost predicate AssignmentWrites(h: seq<Write>, x: Write, nodes: set<Node>) {
    exists p, v :: p in AssignmentsOf(nodes) && Yields(p.1, FromHistory(h), v) && x in Writes(p.0, v).writes
  }

  ghost predicate StatementWrites(x: Write, nodes: set<Node>) {
    exists n, alias :: n in nodes && IsImport(n) && alias in n.names && x in ImportWrites(n, alias)
  }

  ghost predicate IsHistory(h: seq<Write>, nodes: set<Node>) {
    if h == [] then true
    else
      var k := |h| - 1;
      IsHistory(h[..k], nodes) && (AssignmentWrites(h[..k], h[k], nodes) || StatementWrites(h[k], nodes))
  }

  lemma SolutionIsSeeded(nodes: set<Node>, a: Aliases)
    requires IsSolution(a, nodes)
    ensures Seeded(a, nodes) && ClosedAll(a, AssignmentsOf(nodes))
  {
    var seeds :| IsSeeds(seeds, nodes) && IsLeast(a, seeds, AssignmentsOf(nodes));
    forall name, m | SeedsModule(nodes, name, m) ensures m in Lookup(a.modules, name) {
      assert m in Lookup(seeds.modules, name) && Lookup(seeds.modules, name) <= Lookup(a.modules, name);
    }
    forall name, f | SeedsFunction(nodes, name, f) ensures f in Lookup(a.functions, name) {
      assert f in Lookup(seeds.functions, name) && Lookup(seeds.functions, name) <= Lookup(a.functions, name);
    }
  }

  lemma InitialIsDescribed(id: string, v: Value, nodes: set<Node>, a: Aliases)
    requires InitialValue(id, v) && Seeded(a, nodes)
    ensures Describes(a, id, v)
  {
    if v.ModuleRef? {
      assert SeedsModule(nodes, id, v.m);
    } else if v.FunctionRef? {
      assert SeedsFunction(nodes, id, v.f);
    }
  }

  lemma DescribedReads(h: seq<Write>, nodes: set<Node>, a: Aliases)
    requires Seeded(a, nodes) && DescribesAll(a, h)
    ensures forall id, u | FromHistory(h)(id, u) :: FromTables(a)(id, u)
  {
    forall id, u | FromHistory(h)(id, u) ensures FromTables(a)(id, u) {
      if InitialValue(id, u) {
        InitialIsDescribed(id, u, nodes, a);
      } else {
        assert (id, u) in h;
      }
    }
  }

  /** Soundness: in every history of a tracked file, every import API that is ever written to a name is
      one of its computed aliases. */
  lemma {:induction false} HistoriesAreDescribed(h: seq<Write>, nodes: set<Node>, a: Aliases)
    requires Tracked(nodes) && IsSolution(a, nodes) && IsHistory(h, nodes)
    ensures DescribesAll(a, h)
  {
    if h != [] {
      var k := |h| - 1;
      HistoriesAreDescribed(h[..k], nodes, a);
      NextIsDescribed(h[..k], h[k], nodes, a);
      assert h == h[..k] + [h[k]];
    }
  }

  lemma NextIsDescribed(h: seq<Write>, x: Write, nodes: set<Node>, a: Aliases)
    requires Tracked(nodes) && IsSolution(a, nodes) && DescribesAll(a, h)
    requires AssignmentWrites(h, x, nodes) || StatementWrites(x, nodes)
    ensures Describes(a, x.0, x.1)
  {
    SolutionIsSeeded(nodes, a);
    if AssignmentWrites(h, x, nodes) {
      var p, v :| p in AssignmentsOf(nodes) && Yields(p.1, FromHistory(h), v) && x in Writes(p.0, v).writes;
      DescribedReads(h, nodes, a);
      YieldsMore(p.1, FromHistory(h), FromTables(a), v);
      WritesAreDescribed(a, AssignmentsOf(nodes), p, v);
    } else {
      var n, alias :| n in nodes && IsImport(n) && alias in n.names && x in ImportWrites(n, alias);
      ImportIsDescribed(n, alias, nodes, a);
    }
  }

  // ----- runs of whole statements -----

  datatype Step = Assigns(p: Assignment, v: Value) | Imports(n: Node, alias: Alias)

  function Apply(env: Env, writes: seq<Write>): Env {
    if writes == [] then env
    else
      var k := |writes| - 1;
      Apply(env, writes[..k])[writes[k].0 := writes[k].1]
  }

  function StepWrites(s: Step): seq<Write> {
    match s
    case Assigns(p, v) => Writes(p.0, v).writes
    case Imports(n, alias) => if IsImport(n) then ImportWrites(n, alias) else []
  }

  lemma {:induction false} ApplyStaysWithin(env: Env, writes: seq<Write>, a: Aliases)
    requires Within(env, a) && DescribesAll(a, writes)
    ensures Within(Apply(env, writes), a)
    decreases |writes|
  {
    if writes != [] {
      var k := |writes| - 1;
      assert writes[k] in writes && forall x | x in writes[..k] :: x in writes;
      ApplyStaysWithin(env, writes[..k], a);
    }
  }

  /** One assignment whose writes are carried, executed in any environment with a value computed in any
      other, keeps closed tables covering. */
  lemma StoreStaysWithin(p: Assignment, before: Env, env: Env, a: Aliases, v: Value)
    requires AllCarried({p}) && Closed(a, p.0, p.1) && Within(before, a) && Within(env, a) && Yields(p.1, FromEnv(before), v)
    ensures Within(Apply(env, Writes(p.0, v).writes), a)
  {
    forall id, u | FromEnv(before)(id, u) ensures FromTables(a)(id, u) {
      assert u == Read(before, id);
    }
    YieldsMore(p.1, FromEnv(before), FromTables(a), v);
    WritesAreDescribed(a, {p}, p, v);
    ApplyStaysWithin(env, Writes(p.0, v).writes, a);
  }

  /** The step executes a statement of the file, with a value its expression has in the environment. */
  ghost predicate StepOf(s: Step, nodes: set<Node>, env: Env) {
    match s
    case Assigns(p, v) => p in AssignmentsOf(nodes) && Yields(p.1, FromEnv(env), v)
    case Imports(n, alias) => n in nodes && IsImport(n) && alias in n.names
  }

  function Run(env: Env, steps: seq<Step>): Env {
    if steps == [] then env
    else Apply(Run(env, steps[..|steps| - 1]), StepWrites(steps[|steps| - 1]))
  }

  ghost predicate RunOf(env: Env, steps: seq<Step>, nodes: set<Node>) {
    if steps == [] then true
    else
      var k := |steps| - 1;
      RunOf(env, steps[..k], nodes) && StepOf(steps[k], nodes, Run(env, steps[..k]))
  }

  ghost predicate Initial(env: Env) {
    forall name | name in env :: InitialValue(name, env[name])
  }

  predicate Holds(env: Env, name: string, v: Value) {
    name in env && env[name] == v
  }

  /** A run makes `name` hold `v`. */
  ghost predicate Reached(nodes: set<Node>, name: string, v: Value) {
    exists env, steps :: Initial(env) && RunOf(env, steps, nodes) && Holds(Run(env, steps), name, v)
  }

  /** Some history writes `v` to `name`, or it is there from the start. */
  ghost predicate Written(nodes: set<Node>, name: string, v: Value) {
    exists h :: IsHistory(h, nodes) && FromHistory(h)(name, v)
  }

  // ----- runs are histories -----

  /** Everything the environment holds can be read in the history. */
  ghost predicate Readable(env: Env, h: seq<Write>) {
    forall name | name in env :: FromHistory(h)(name, env[name])
  }

  lemma ReadableReads(env: Env, h: seq<Write>)
    requires Readable(env, h)
    ensures forall id, u | FromEnv(env)(id, u) :: FromHistory(h)(id, u)
  {
    forall id, u | FromEnv(env)(id, u) ensures FromHistory(h)(id, u) {
      assert u == Read(env, id);
    }
  }

  lemma HistoryGrows(h: seq<Write>, more: seq<Write>)
    ensures forall id, u | FromHistory(h)(id, u) :: FromHistory(h + more)(id, u)
  {
  }

  lemma {:induction false} AppliedIsReadable(env: Env, h: seq<Write>, writes: seq<Write>)
    requires Readable(env, h)
    ensures Readable(Apply(env, writes), h + writes)
    decreases |writes|
  {
    if writes == [] {
      assert h + writes == h;
    } else {
      var k := |writes| - 1;
      AppliedIsReadable(env, h, writes[..k]);
      assert writes == writes[..k] + [writes[k]];
      assert h + writes == h + writes[..k] + [writes[k]];
      HistoryGrows(h + writes[..k], [writes[k]]);
    }
  }

  lemma OneMoreWrite(h: seq<Write>, x: Write, nodes: set<Node>)
    requires IsHistory(h, nodes) && (AssignmentWrites(h, x, nodes) || StatementWrites(x, nodes))
    ensures IsHistory(h + [x], nodes)
  {
    assert (h + [x])[..|h|] == h;
  }

  /** Writes of one step, one after the other. */
  lemma {:induction false} StepIsHistory(s: Step, nodes: set<Node>, env: Env, h: seq<Write>, writes: seq<Write>)
    requires IsHistory(h, nodes) && Readable(env, h) && StepOf(s, nodes, env)
    requires writes <= StepWrites(s)
    ensures IsHistory(h + writes, nodes)
    decreases |writes|
  {
    if writes == [] {
      assert h + writes == h;
    } else {
      var k := |writes| - 1;
      StepIsHistory(s, nodes, env, h, writes[..k]);
      assert writes[k] == StepWrites(s)[k];
      OneOfStep(s, nodes, env, h, writes[..k], writes[k]);
      OneMoreWrite(h + writes[..k], writes[k], nodes);
      Snoc(h, writes);
    }
  }

  lemma Snoc<T>(a: seq<T>, b: seq<T>)
    requires b != []
    ensures a + b[..|b| - 1] + [b[|b| - 1]] == a + b
  {
  }

  lemma OneOfStep(s: Step, nodes: set<Node>, env: Env, h: seq<Write>, more: seq<Write>, x: Write)
    requires Readable(env, h) && StepOf(s, nodes, env) && x in StepWrites(s)
    ensures AssignmentWrites(h + more, x, nodes) || StatementWrites(x, nodes)
  {
    if s.Assigns? {
      ReadableReads(env, h);
      HistoryGrows(h, more);
      YieldsMore(s.p.1, FromEnv(env), FromHistory(h + more), s.v);
    }
  }

  lemma {:induction false} RunIsHistory(env: Env, steps: seq<Step>, nodes: set<Node>) returns (h: seq<Write>)
    requires Initial(env) && RunOf(env, steps, nodes)
    ensures IsHistory(h, nodes) && Readable(Run(env, steps), h)
    decreases |steps|
  {
    if steps == [] {
      h := [];
    } else {
      var k := |steps| - 1;
      var before := RunIsHistory(env, steps[..k], nodes);
      var writes := StepWrites(steps[k]);
      StepIsHistory(steps[k], nodes, Run(env, steps[..k]), before, writes);
      AppliedIsReadable(Run(env, steps[..k]), before, writes);
      h := before + writes;
    }
  }

  lemma ReachedIsWritten(nodes: set<Node>, name: string, v: Value)
    requires Reached(nodes, name, v)
    ensures Written(nodes, name, v)
  {
    var env, steps :| Initial(env) && RunOf(env, steps, nodes) && Holds(Run(env, steps), name, v);
    var h := RunIsHistory(env, steps, nodes);
    assert FromHistory(h)(name, v);
  }

  /** Soundness over runs: after any run of a tracked file, every import API that a name holds is one of
      its computed aliases. */
  lemma RunsStayWithin(env: Env, steps: seq<Step>, nodes: set<Node>, a: Aliases)
    requires Tracked(nodes) && IsSolution(a, nodes) && Initial(env) && RunOf(env, steps, nodes)
    ensures Within(Run(env, steps), a)
  {
    var h := RunIsHistory(env, steps, nodes);
    HistoriesAreDescribed(h, nodes, a);
    SolutionIsSeeded(nodes, a);
    DescribedReads(h, nodes, a);
    forall name | name in Run(env, steps) ensures Describes(a, name, Run(env, steps)[name]) {
      assert FromHistory(h)(name, Run(env, steps)[name]);
      assert FromTables(a)(name, Run(env, steps)[name]);
    }
  }
}
