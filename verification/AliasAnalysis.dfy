/** The alias analysis of the import analyzer: two tables that say which import APIs each name
    may stand for, closed under every assignment of the file. */
module AliasAnalysis {
  import opened Common
  import opened PythonSyntax

  /** The modules whose import functions are tracked (API_FUNCTIONS). */
  datatype ApiModule = Builtins | Importlib | Runpy

  /** `builtins.__import__`, `importlib.import_module` and `runpy.run_module`. */
  datatype ApiFunction = BuiltinsImport | ImportModule | RunModule

  function ApiModuleNamed(name: string): Option<ApiModule> {
    if name == "builtins" then Some(Builtins)
    else if name == "importlib" then Some(Importlib)
    else if name == "runpy" then Some(Runpy)
    else None
  }

  /** The tracked function called `attr` in module `m`, if there is one. */
  function ApiFunctionNamed(m: ApiModule, attr: string): Option<ApiFunction> {
    match m
    case Builtins => if attr == "__import__" then Some(BuiltinsImport) else None
    case Importlib => if attr == "import_module" then Some(ImportModule) else None
    case Runpy => if attr == "run_module" then Some(RunModule) else None
  }

  type Table<T> = map<string, set<T>>

  datatype Aliases = Aliases(modules: Table<ApiModule>, functions: Table<ApiFunction>)

  function Lookup<T>(table: Table<T>, name: string): set<T> {
    if name in table then table[name] else {}
  }

  /** No name is kept with an empty set; the analyzer skips empty additions. */
  ghost predicate Proper<T>(table: Table<T>) {
    forall n | n in table :: table[n] != {}
  }

  ghost predicate ProperAliases(a: Aliases) {
    Proper(a.modules) && Proper(a.functions)
  }

  ghost predicate TableLeq<T>(a: Table<T>, b: Table<T>) {
    forall n :: Lookup(a, n) <= Lookup(b, n)
  }

  /** The order of the analysis: every name has at least the same aliases. */
  ghost predicate Leq(a: Aliases, b: Aliases) {
    TableLeq(a.modules, b.modules) && TableLeq(a.functions, b.functions)
  }

  // ----- resolving expressions -----

  function ResolveModules(a: Aliases, e: Node): set<ApiModule> {
    if e.Name? then Lookup(a.modules, e.id) else {}
  }

  function ResolveFunctions(a: Aliases, e: Node): set<ApiFunction> {
    match e
    case Name(id) => Lookup(a.functions, id)
    case Attribute(value, attr) =>
      set m | m in ResolveModules(a, value) && ApiFunctionNamed(m, attr).Some? :: ApiFunctionNamed(m, attr).value
    case _ => {}
  }

  lemma ResolveIsMonotone(a: Aliases, b: Aliases, e: Node)
    requires Leq(a, b)
    ensures ResolveModules(a, e) <= ResolveModules(b, e)
    ensures ResolveFunctions(a, e) <= ResolveFunctions(b, e)
  {
    if e.Attribute? && e.value.Name? {
      assert Lookup(a.modules, e.value.id) <= Lookup(b.modules, e.value.id);
    } else if e.Name? {
      assert Lookup(a.modules, e.id) <= Lookup(b.modules, e.id);
      assert Lookup(a.functions, e.id) <= Lookup(b.functions, e.id);
    }
  }

  // ----- one assignment -----

  function AddTo<T>(table: Table<T>, name: string, values: set<T>): Table<T> {
    if values == {} then table else table[name := Lookup(table, name) + values]
  }

  /** Both sides are list or tuple literals of one length, so the assignment is taken apart. */
  predicate Unpacks(target: Node, value: Node) {
    target.Display? && value.Display? && |target.elts| == |value.elts|
  }

  function Bind(a: Aliases, target: Node, value: Node): Aliases
    decreases target, 1
  {
    if target.Name? then
      var b := a.(modules := AddTo(a.modules, target.id, ResolveModules(a, value)));
      b.(functions := AddTo(b.functions, target.id, ResolveFunctions(b, value)))
    else if Unpacks(target, value) then
      BindEach(a, target.elts, value.elts)
    else a
  }

  /** Left to right; later elements see what earlier ones added. */
  function BindEach(a: Aliases, targets: seq<Node>, values: seq<Node>): Aliases
    requires |targets| == |values|
    decreases targets, 0
  {
    if targets == [] then a
    else
      assert targets[|targets| - 1] in targets;
      Bind(BindEach(a, targets[..|targets| - 1], values[..|values| - 1]), targets[|targets| - 1], values[|values| - 1])
  }

  /** The tables already contain all that the assignment can add. */
  ghost predicate Closed(a: Aliases, target: Node, value: Node)
    decreases target
  {
    if target.Name? then
      && ResolveModules(a, value) <= Lookup(a.modules, target.id)
      && ResolveFunctions(a, value) <= Lookup(a.functions, target.id)
    else
      Unpacks(target, value) ==>
        forall i | 0 <= i < |target.elts| :: Closed(a, target.elts[i], value.elts[i])
  }

  type Assignment = (Node, Node)

  ghost predicate ClosedAll(a: Aliases, assignments: set<Assignment>) {
    forall p | p in assignments :: Closed(a, p.0, p.1)
  }

  /** The smallest tables above the seeds that are closed under every assignment. */
  ghost predicate IsLeast(a: Aliases, seeds: Aliases, assignments: set<Assignment>) {
    && ProperAliases(a)
    && Leq(seeds, a)
    && ClosedAll(a, assignments)
    && BelowClosed(a, seeds, assignments)
  }

  /** There is only one such pair of tables. */
  lemma LeastIsUnique(a: Aliases, b: Aliases, seeds: Aliases, assignments: set<Assignment>)
    requires IsLeast(a, seeds, assignments) && IsLeast(b, seeds, assignments)
    ensures a == b
  {
    TableAntisymmetric(a.modules, b.modules);
    TableAntisymmetric(a.functions, b.functions);
  }

  lemma TableAntisymmetric<T>(a: Table<T>, b: Table<T>)
    requires Proper(a) && Proper(b) && TableLeq(a, b) && TableLeq(b, a)
    ensures a == b
  {
    forall n ensures n in a <==> n in b {
      assert Lookup(a, n) == Lookup(b, n);
    }
    forall n | n in a ensures a[n] == b[n] {
      assert Lookup(a, n) == Lookup(b, n);
    }
  }

  lemma BindGrows(a: Aliases, target: Node, value: Node)
    requires ProperAliases(a)
    ensures ProperAliases(Bind(a, target, value))
    ensures Leq(a, Bind(a, target, value))
    decreases target, 1
  {
    if Unpacks(target, value) {
      BindEachGrows(a, target.elts, value.elts);
    }
  }

  lemma BindEachGrows(a: Aliases, targets: seq<Node>, values: seq<Node>)
    requires ProperAliases(a) && |targets| == |values|
    ensures ProperAliases(BindEach(a, targets, values))
    ensures Leq(a, BindEach(a, targets, values))
    decreases targets, 0
  {
    if targets != [] {
      var k := |targets| - 1;
      assert targets[k] in targets;
      BindEachGrows(a, targets[..k], values[..k]);
      BindGrows(BindEach(a, targets[..k], values[..k]), targets[k], values[k]);
      LeqTransitive(a, BindEach(a, targets[..k], values[..k]), BindEach(a, targets, values));
    }
  }

  lemma LeqTransitive(a: Aliases, b: Aliases, c: Aliases)
    requires Leq(a, b) && Leq(b, c)
    ensures Leq(a, c)
  {
    forall n ensures Lookup(a.modules, n) <= Lookup(c.modules, n) && Lookup(a.functions, n) <= Lookup(c.functions, n) {
      assert Lookup(a.modules, n) <= Lookup(b.modules, n) <= Lookup(c.modules, n);
      assert Lookup(a.functions, n) <= Lookup(b.functions, n) <= Lookup(c.functions, n);
    }
  }

  /** An assignment adds nothing beyond any closed tables that already lie above. */
  lemma {:induction false} BindStaysBelow(a: Aliases, b: Aliases, target: Node, value: Node)
    requires Leq(a, b) && Closed(b, target, value)
    ensures Leq(Bind(a, target, value), b)
    decreases target, 1
  {
    if target.Name? {
      ResolveIsMonotone(a, b, value);
      var m := a.(modules := AddTo(a.modules, target.id, ResolveModules(a, value)));
      AddStaysBelow(a.modules, b.modules, target.id, ResolveModules(a, value));
      assert Leq(m, b);
      ResolveIsMonotone(m, b, value);
      AddStaysBelow(m.functions, b.functions, target.id, ResolveFunctions(m, value));
    } else if Unpacks(target, value) {
      BindEachStaysBelow(a, b, target.elts, value.elts);
    }
  }

  lemma AddStaysBelow<T>(a: Table<T>, b: Table<T>, name: string, values: set<T>)
    requires TableLeq(a, b) && values <= Lookup(b, name)
    ensures TableLeq(AddTo(a, name, values), b)
  {
    forall n ensures Lookup(AddTo(a, name, values), n) <= Lookup(b, n) {
      assert Lookup(a, n) <= Lookup(b, n);
    }
  }

  lemma {:induction false} BindEachStaysBelow(a: Aliases, b: Aliases, targets: seq<Node>, values: seq<Node>)
    requires Leq(a, b) && |targets| == |values|
    requires forall i | 0 <= i < |targets| :: Closed(b, targets[i], values[i])
    ensures Leq(BindEach(a, targets, values), b)
    decreases targets, 0
  {
    if targets != [] {
      var k := |targets| - 1;
      assert targets[k] in targets;
      BindEachStaysBelow(a, b, targets[..k], values[..k]);
      BindStaysBelow(BindEach(a, targets[..k], values[..k]), b, targets[k], values[k]);
    }
  }

  lemma LeqAntisymmetric(a: Aliases, b: Aliases)
    requires ProperAliases(a) && ProperAliases(b) && Leq(a, b) && Leq(b, a)
    ensures a == b
  {
    TableAntisymmetric(a.modules, b.modules);
    TableAntisymmetric(a.functions, b.functions);
  }

  lemma LeqReflexive(a: Aliases)
    ensures Leq(a, a)
  {
  }

  /** An assignment leaves the tables alone exactly when they are closed under it. */
  lemma BindFixedIffClosed(a: Aliases, target: Node, value: Node)
    requires ProperAliases(a)
    ensures Bind(a, target, value) == a <==> Closed(a, target, value)
  {
    if Closed(a, target, value) {
      BindStaysBelow(a, a, target, value);
      BindGrows(a, target, value);
      LeqAntisymmetric(a, Bind(a, target, value));
    }
    if Bind(a, target, value) == a {
      FixedIsClosed(a, target, value);
    }
  }

  lemma {:induction false} FixedIsClosed(a: Aliases, target: Node, value: Node)
    requires ProperAliases(a) && Bind(a, target, value) == a
    ensures Closed(a, target, value)
    decreases target, 1
  {
    if target.Name? {
      var m := a.(modules := AddTo(a.modules, target.id, ResolveModules(a, value)));
      assert m.modules == Bind(a, target, value).modules;
      FixedAdd(a.modules, target.id, ResolveModules(a, value));
      assert m == a;
      FixedAdd(a.functions, target.id, ResolveFunctions(a, value));
    } else if Unpacks(target, value) {
      FixedEachIsClosed(a, target.elts, value.elts);
    }
  }

  lemma FixedAdd<T>(a: Table<T>, name: string, values: set<T>)
    requires AddTo(a, name, values) == a
    ensures values <= Lookup(a, name)
  {
    if values != {} {
      assert a[name] == Lookup(a, name) + values;
    }
  }

  lemma {:induction false} FixedEachIsClosed(a: Aliases, targets: seq<Node>, values: seq<Node>)
    requires ProperAliases(a) && |targets| == |values|
    requires BindEach(a, targets, values) == a
    ensures forall i | 0 <= i < |targets| :: Closed(a, targets[i], values[i])
    decreases targets, 0
  {
    if targets != [] {
      var k := |targets| - 1;
      assert targets[k] in targets;
      var b := BindEach(a, targets[..k], values[..k]);
      BindEachGrows(a, targets[..k], values[..k]);
      BindGrows(b, targets[k], values[k]);
      LeqAntisymmetric(a, b);
      FixedEachIsClosed(a, targets[..k], values[..k]);
      FixedIsClosed(a, targets[k], values[k]);
      forall i | 0 <= i < |targets| ensures Closed(a, targets[i], values[i]) {
        if i < k {
          assert targets[..k][i] == targets[i] && values[..k][i] == values[i];
        }
      }
    }
  }

  /** Below everything closed that lies above the seeds: nothing was added without need. */
  ghost predicate BelowClosed(a: Aliases, seeds: Aliases, assignments: set<Assignment>) {
    forall b: Aliases | Leq(seeds, b) && ClosedAll(b, assignments) :: Leq(a, b)
  }

  lemma BelowClosedStep(a: Aliases, target: Node, value: Node, seeds: Aliases, assignments: set<Assignment>)
    requires BelowClosed(a, seeds, assignments) && (target, value) in assignments
    ensures BelowClosed(Bind(a, target, value), seeds, assignments)
  {
    forall b: Aliases | Leq(seeds, b) && ClosedAll(b, assignments) ensures Leq(Bind(a, target, value), b) {
      assert Closed(b, (target, value).0, (target, value).1);
      BindStaysBelow(a, b, target, value);
    }
  }

  /** Tables only grow, so once they differ from where they started they keep differing. */
  lemma NoWayBack(a: Aliases, b: Aliases, c: Aliases)
    requires ProperAliases(a) && ProperAliases(b) && Leq(a, b) && Leq(b, c)
    ensures Leq(a, c)
    ensures c == a ==> b == a
  {
    LeqTransitive(a, b, c);
    if c == a {
      LeqAntisymmetric(a, b);
    }
  }
}
