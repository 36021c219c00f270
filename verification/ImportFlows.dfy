/** When alias tables that are closed under a set of assignments describe all that these assignments
    can write. */
module ImportFlows {
  import opened Common
  import opened PythonSyntax
  import opened AliasAnalysis
  import opened PythonValues
  import opened PythonUnpacking
  import opened PythonWrites

  /** If the value is an import API, the tables list it for the name. */
  ghost predicate Describes(a: Aliases, name: string, v: Value) {
    && (v.ModuleRef? ==> v.m in Lookup(a.modules, name))
    && (v.FunctionRef? ==> v.f in Lookup(a.functions, name))
  }

  /** Each name may be read at any moment at which the tables describe it. */
  ghost function FromTables(a: Aliases): Reads {
    (id, v) => Describes(a, id, v)
  }

  /** Every import API a name holds is one of its aliases. */
  ghost predicate Within(env: Env, a: Aliases) {
    forall name | name in env :: Describes(a, name, env[name])
  }

  /** Reading from the tables is reading, each time, from some environment within them. */
  lemma TablesAreEnvironments(a: Aliases, id: string, v: Value)
    ensures FromTables(a)(id, v) <==> exists env: Env :: Within(env, a) && Read(env, id) == v
  {
    if Describes(a, id, v) {
      var env: Env := map[id := v];
      assert Within(env, a) && Read(env, id) == v;
    }
  }

  ghost predicate DescribesAll(a: Aliases, writes: seq<Write>) {
    forall x | x in writes :: Describes(a, x.0, x.1)
  }

  // ----- how closed tables carry an API from name to name -----

  /** The analyzer pairs name `id` with the expression `e`. */
  ghost predicate Pairs(target: Node, value: Node, id: string, e: Node)
    decreases target
  {
    if target.Name? then target.id == id && value == e
    else Unpacks(target, value) && exists i | 0 <= i < |target.elts| :: Pairs(target.elts[i], value.elts[i], id, e)
  }

  ghost predicate Edge(assignments: set<Assignment>, z: string, id: string) {
    exists p :: p in assignments && Pairs(p.0, p.1, id, Name(z))
  }

  ghost predicate Path(assignments: set<Assignment>, path: seq<string>) {
    path != [] && forall i | 0 < i < |path| :: Edge(assignments, path[i - 1], path[i])
  }

  /** A chain of paired names leads from `z` to `id`. */
  ghost predicate Flow(assignments: set<Assignment>, z: string, id: string) {
    exists path :: Path(assignments, path) && path[0] == z && path[|path| - 1] == id
  }

  /** The chain passes one pairing with the attribute `attr` of a name. */
  ghost predicate CallFlow(assignments: set<Assignment>, z: string, attr: string, id: string) {
    exists p, u, w :: p in assignments && Flow(assignments, z, u) && Pairs(p.0, p.1, w, Attribute(Name(u), attr)) && Flow(assignments, w, id)
  }

  /** The pairings the analyzer sees carry the source to the name. */
  ghost predicate Carried(assignments: set<Assignment>, s: Source, id: string) {
    match s
    case Passed(z) => Flow(assignments, z, id)
    case Called(z, attr) => CallFlow(assignments, z, attr, id)
    case Anything => false
  }

  /** Whatever an assignment can write, the pairings carry: a check on the syntax. */
  ghost predicate AllCarried(assignments: set<Assignment>) {
    forall p, id, s | p in assignments && Sends(p.0, p.1, id, s) :: Carried(assignments, s, id)
  }

  lemma {:induction false} ClosedPairs(a: Aliases, target: Node, value: Node, id: string, e: Node)
    requires Closed(a, target, value) && Pairs(target, value, id, e)
    ensures ResolveModules(a, e) <= Lookup(a.modules, id)
    ensures ResolveFunctions(a, e) <= Lookup(a.functions, id)
    decreases target
  {
    if target.Display? {
      var i :| 0 <= i < |target.elts| && Pairs(target.elts[i], value.elts[i], id, e);
      ClosedPairs(a, target.elts[i], value.elts[i], id, e);
    }
  }

  lemma {:induction false} ClosedFromPairs(a: Aliases, target: Node, value: Node)
    requires forall id, e | Pairs(target, value, id, e) ::
      ResolveModules(a, e) <= Lookup(a.modules, id) && ResolveFunctions(a, e) <= Lookup(a.functions, id)
    ensures Closed(a, target, value)
    decreases target
  {
    if target.Name? {
      assert Pairs(target, value, target.id, value);
    } else if Unpacks(target, value) {
      forall i | 0 <= i < |target.elts| ensures Closed(a, target.elts[i], value.elts[i]) {
        forall id, e | Pairs(target.elts[i], value.elts[i], id, e) ensures Pairs(target, value, id, e) {}
        ClosedFromPairs(a, target.elts[i], value.elts[i]);
      }
    }
  }

  lemma {:induction false} PathCarries(a: Aliases, assignments: set<Assignment>, path: seq<string>)
    requires ClosedAll(a, assignments) && Path(assignments, path)
    ensures Lookup(a.modules, path[0]) <= Lookup(a.modules, path[|path| - 1])
    ensures Lookup(a.functions, path[0]) <= Lookup(a.functions, path[|path| - 1])
    decreases |path|
  {
    var k := |path| - 1;
    if k > 0 {
      PathCarries(a, assignments, path[..k]);
      assert Edge(assignments, path[k - 1], path[k]);
      var p :| p in assignments && Pairs(p.0, p.1, path[k], Name(path[k - 1]));
      ClosedPairs(a, p.0, p.1, path[k], Name(path[k - 1]));
    }
  }

  lemma FlowCarries(a: Aliases, assignments: set<Assignment>, z: string, id: string)
    requires ClosedAll(a, assignments) && Flow(assignments, z, id)
    ensures Lookup(a.modules, z) <= Lookup(a.modules, id)
    ensures Lookup(a.functions, z) <= Lookup(a.functions, id)
  {
    var path :| Path(assignments, path) && path[0] == z && path[|path| - 1] == id;
    PathCarries(a, assignments, path);
  }

  lemma CarriedIsDescribed(a: Aliases, assignments: set<Assignment>, s: Source, id: string, w: Value)
    requires ClosedAll(a, assignments) && Carried(assignments, s, id) && ComesVia(FromTables(a), s, w)
    ensures Describes(a, id, w)
  {
    match s
    case Passed(z) => FlowCarries(a, assignments, z, id);
    case Called(z, attr) =>
      var p, u, x :| p in assignments && Flow(assignments, z, u) && Pairs(p.0, p.1, x, Attribute(Name(u), attr)) && Flow(assignments, x, id);
      var m :| FromTables(a)(z, ModuleRef(m)) && ApiFunctionNamed(m, attr) == Some(w.f);
      FlowCarries(a, assignments, z, u);
      assert m in ResolveModules(a, Name(u));
      ClosedPairs(a, p.0, p.1, x, Attribute(Name(u), attr));
      FlowCarries(a, assignments, x, id);
    case _ =>
  }

  /** Closed tables describe all that carried assignments write. */
  lemma WritesAreDescribed(a: Aliases, assignments: set<Assignment>, p: Assignment, v: Value)
    requires AllCarried(assignments) && ClosedAll(a, assignments) && p in assignments && Yields(p.1, FromTables(a), v)
    ensures DescribesAll(a, Writes(p.0, v).writes)
  {
    forall x | x in Writes(p.0, v).writes ensures Describes(a, x.0, x.1) {
      if IsApi(x.1) {
        var s := WriteHasSource(p.0, p.1, FromTables(a), v, x);
        CarriedIsDescribed(a, assignments, s, x.0, x.1);
      }
    }
  }

  // ----- where nothing carries an API, some closed tables miss it -----

  lemma FlowStarts(assignments: set<Assignment>, z: string)
    ensures Flow(assignments, z, z)
  {
    assert Path(assignments, [z]);
  }

  lemma FlowSteps(assignments: set<Assignment>, z: string, u: string, id: string)
    requires Flow(assignments, z, u) && Edge(assignments, u, id)
    ensures Flow(assignments, z, id)
  {
    var path :| Path(assignments, path) && path[0] == z && path[|path| - 1] == u;
    var more := path + [id];
    forall i | 0 < i < |more| ensures Edge(assignments, more[i - 1], more[i]) {
      if i < |path| {
        assert more[i - 1] == path[i - 1] && more[i] == path[i];
      }
    }
    assert Path(assignments, more) && more[0] == z && more[|more| - 1] == id;
  }

  lemma CallFlowSteps(assignments: set<Assignment>, z: string, attr: string, u: string, id: string)
    requires CallFlow(assignments, z, attr, u) && Edge(assignments, u, id)
    ensures CallFlow(assignments, z, attr, id)
  {
    var p, x, w :| p in assignments && Flow(assignments, z, x) && Pairs(p.0, p.1, w, Attribute(Name(x), attr)) && Flow(assignments, w, u);
    FlowSteps(assignments, w, u, id);
  }

  /** All names the assignments mention as targets. */
  ghost function Targets(assignments: set<Assignment>): set<string> {
    set p, id | p in assignments && id in Leaves(p.0) :: id
  }

  lemma {:induction false} PairIsLeaf(target: Node, value: Node, id: string, e: Node)
    requires Pairs(target, value, id, e)
    ensures id in Leaves(target)
    decreases target
  {
    if target.Display? {
      var i :| 0 <= i < |target.elts| && Pairs(target.elts[i], value.elts[i], id, e);
      PairIsLeaf(target.elts[i], value.elts[i], id, e);
      LeafOfEach(target.elts, i, id);
    }
  }

  lemma {:induction false} LeafOfEach(ts: seq<Node>, i: nat, id: string)
    requires i < |ts| && id in Leaves(ts[i])
    ensures id in LeavesEach(ts)
    decreases |ts|
  {
    if i < |ts| - 1 {
      LeafOfEach(ts[..|ts| - 1], i, id);
    }
  }

  function FunctionName(m: ApiModule): string {
    match m
    case Builtins => "__import__"
    case Importlib => "import_module"
    case Runpy => "run_module"
  }

  function FunctionOf(m: ApiModule): ApiFunction {
    match m
    case Builtins => BuiltinsImport
    case Importlib => ImportModule
    case Runpy => RunModule
  }

  /** The tables that follow module `m` from name `z`, and nothing else. */
  ghost function Following(assignments: set<Assignment>, z: string, m: ApiModule): Aliases {
    var names := Targets(assignments) + {z};
    Aliases(
      map id | id in names && Flow(assignments, z, id) :: {m},
      map id | id in names && CallFlow(assignments, z, FunctionName(m), id) :: {FunctionOf(m)})
  }

  lemma FollowingIsClosed(assignments: set<Assignment>, z: string, m: ApiModule)
    ensures ClosedAll(Following(assignments, z, m), assignments)
  {
    var a := Following(assignments, z, m);
    forall p | p in assignments ensures Closed(a, p.0, p.1) {
      forall id, e | Pairs(p.0, p.1, id, e)
        ensures ResolveModules(a, e) <= Lookup(a.modules, id) && ResolveFunctions(a, e) <= Lookup(a.functions, id)
      {
        PairIsLeaf(p.0, p.1, id, e);
        FollowingPair(assignments, z, m, p, id, e);
      }
      ClosedFromPairs(a, p.0, p.1);
    }
  }

  lemma FollowingHas(assignments: set<Assignment>, z: string, m: ApiModule, id: string)
    ensures var a := Following(assignments, z, m);
      && (id in Targets(assignments) && Flow(assignments, z, id) ==> Lookup(a.modules, id) == {m})
      && (id in Targets(assignments) && CallFlow(assignments, z, FunctionName(m), id) ==> Lookup(a.functions, id) == {FunctionOf(m)})
      && (Lookup(a.modules, id) != {} ==> Flow(assignments, z, id) && Lookup(a.modules, id) == {m})
      && (Lookup(a.functions, id) != {} ==> CallFlow(assignments, z, FunctionName(m), id) && Lookup(a.functions, id) == {FunctionOf(m)})
  {
  }

  lemma FollowingPair(assignments: set<Assignment>, z: string, m: ApiModule, p: Assignment, id: string, e: Node)
    requires p in assignments && Pairs(p.0, p.1, id, e) && id in Leaves(p.0)
    ensures var a := Following(assignments, z, m);
      ResolveModules(a, e) <= Lookup(a.modules, id) && ResolveFunctions(a, e) <= Lookup(a.functions, id)
  {
    assert id in Targets(assignments);
    if e.Name? {
      FollowingName(assignments, z, m, p, id, e.id);
    } else if e.Attribute? && e.value.Name? {
      FollowingAttribute(assignments, z, m, p, id, e.value.id, e.attr);
    }
  }

  lemma FollowingName(assignments: set<Assignment>, z: string, m: ApiModule, p: Assignment, id: string, u: string)
    requires p in assignments && Pairs(p.0, p.1, id, Name(u)) && id in Targets(assignments)
    ensures var a := Following(assignments, z, m);
      Lookup(a.modules, u) <= Lookup(a.modules, id) && Lookup(a.functions, u) <= Lookup(a.functions, id)
  {
    assert Edge(assignments, u, id);
    FollowingHas(assignments, z, m, u);
    FollowingHas(assignments, z, m, id);
    if Flow(assignments, z, u) {
      FlowSteps(assignments, z, u, id);
    }
    if CallFlow(assignments, z, FunctionName(m), u) {
      CallFlowSteps(assignments, z, FunctionName(m), u, id);
    }
  }

  lemma FollowingAttribute(assignments: set<Assignment>, z: string, m: ApiModule, p: Assignment, id: string, u: string, attr: string)
    requires p in assignments && Pairs(p.0, p.1, id, Attribute(Name(u), attr)) && id in Targets(assignments)
    ensures var a := Following(assignments, z, m); ResolveFunctions(a, Attribute(Name(u), attr)) <= Lookup(a.functions, id)
  {
    var a := Following(assignments, z, m);
    FollowingHas(assignments, z, m, u);
    forall f | f in ResolveFunctions(a, Attribute(Name(u), attr)) ensures f in Lookup(a.functions, id) {
      var x :| x in ResolveModules(a, Name(u)) && ApiFunctionNamed(x, attr) == Some(f);
      OneFunction(m, attr, f);
      CallFlowStarts(assignments, z, attr, u, p, id);
      FollowingHas(assignments, z, m, id);
    }
  }

  lemma OneFunction(m: ApiModule, attr: string, f: ApiFunction)
    requires ApiFunctionNamed(m, attr) == Some(f)
    ensures attr == FunctionName(m) && f == FunctionOf(m)
  {
  }

  lemma CallFlowStarts(assignments: set<Assignment>, z: string, attr: string, u: string, p: Assignment, id: string)
    requires Flow(assignments, z, u) && p in assignments && Pairs(p.0, p.1, id, Attribute(Name(u), attr))
    ensures CallFlow(assignments, z, attr, id)
  {
    FlowStarts(assignments, id);
  }

  /** An uncarried source escapes some closed tables. */
  lemma UncarriedEscapes(assignments: set<Assignment>, s: Source, id: string) returns (a: Aliases, w: Value)
    requires !Carried(assignments, s, id) && (s.Called? ==> NamesApiFunction(s.attr))
    ensures ClosedAll(a, assignments) && ComesVia(FromTables(a), s, w) && !Describes(a, id, w)
  {
    if s.Passed? {
      a, w := PassedEscapes(assignments, s.name, id);
    } else if s.Called? {
      a, w := CalledEscapes(assignments, s.name, s.attr, id);
    } else {
      a, w := Aliases(map[], map[]), ModuleRef(Importlib);
      forall p | p in assignments ensures Closed(a, p.0, p.1) {
        ClosedFromPairs(a, p.0, p.1);
      }
    }
  }

  lemma PassedEscapes(assignments: set<Assignment>, z: string, id: string) returns (a: Aliases, w: Value)
    requires !Flow(assignments, z, id)
    ensures ClosedAll(a, assignments) && ComesVia(FromTables(a), Passed(z), w) && !Describes(a, id, w)
  {
    a := FollowedFrom(assignments, z, Importlib);
    w := ModuleRef(Importlib);
    FollowingHas(assignments, z, Importlib, id);
  }

  lemma CalledEscapes(assignments: set<Assignment>, z: string, attr: string, id: string) returns (a: Aliases, w: Value)
    requires NamesApiFunction(attr) && !CallFlow(assignments, z, attr, id)
    ensures ClosedAll(a, assignments) && ComesVia(FromTables(a), Called(z, attr), w) && !Describes(a, id, w)
  {
    var m := ModuleOf(attr);
    OneFunction(m, attr, ApiFunctionNamed(m, attr).value);
    a := FollowedFrom(assignments, z, m);
    w := FunctionRef(FunctionOf(m));
    FollowingHas(assignments, z, m, id);
    assert FromTables(a)(z, ModuleRef(m));
  }

  lemma FollowedFrom(assignments: set<Assignment>, z: string, m: ApiModule) returns (a: Aliases)
    ensures a == Following(assignments, z, m) && ClosedAll(a, assignments) && Describes(a, z, ModuleRef(m))
  {
    a := Following(assignments, z, m);
    FlowStarts(assignments, z);
    FollowingIsClosed(assignments, z, m);
  }

  lemma {:induction false} SentIsCalled(t: Node, e: Node, id: string, s: Source)
    requires Sends(t, e, id, s) && s.Called?
    ensures NamesApiFunction(s.attr)
    decreases t, e
  {
    if t.Name? {
      CallIsApi(e, s.name, s.attr);
    } else if t.Starred? {
      SentIsCalled(t.value, e, id, s);
    } else if e.NamedExpr? {
      SentIsCalled(t, e.value, id, s);
    } else if e.Choice? {
      if Sends(t, e.left, id, s) {
        SentIsCalled(t, e.left, id, s);
      } else {
        SentIsCalled(t, e.right, id, s);
      }
    } else {
      var es := AlignedNodes(t.elts, e.elts).value;
      var i :| 0 <= i < |t.elts| && Sends(t.elts[i], es[i], id, s) && forall j | 0 <= j < i :: CanComplete(t.elts[j], es[j]);
      SentIsCalled(t.elts[i], es[i], id, s);
    }
  }

  lemma {:induction false} CallIsApi(e: Node, z: string, attr: string)
    requires Calls(e, z, attr)
    ensures NamesApiFunction(attr)
  {
    match e
    case NamedExpr(_, value) => CallIsApi(value, z, attr);
    case Choice(_, left, right) =>
      if Calls(left, z, attr) {
        CallIsApi(left, z, attr);
      } else {
        CallIsApi(right, z, attr);
      }
    case _ =>
  }

  /** Every write that the assignments can make under these tables is described by them. */
  ghost predicate Covers(a: Aliases, assignments: set<Assignment>) {
    forall p, v | p in assignments && Yields(p.1, FromTables(a), v) :: DescribesAll(a, Writes(p.0, v).writes)
  }

  /** The syntactic check is exact: all closed tables cover the assignments if and only if every
      possible write is carried by the pairings the analyzer sees. */
  lemma AllCarriedExactly(assignments: set<Assignment>)
    ensures AllCarried(assignments) <==> forall a | ClosedAll(a, assignments) :: Covers(a, assignments)
  {
    if AllCarried(assignments) {
      forall a, p, v | ClosedAll(a, assignments) && p in assignments && Yields(p.1, FromTables(a), v)
        ensures DescribesAll(a, Writes(p.0, v).writes)
      {
        WritesAreDescribed(a, assignments, p, v);
      }
    } else {
      var p, id, s :| p in assignments && Sends(p.0, p.1, id, s) && !Carried(assignments, s, id);
      if s.Called? {
        SentIsCalled(p.0, p.1, id, s);
      }
      var a, w := UncarriedEscapes(assignments, s, id);
      TablesAreRoomy(a);
      var v := SourceIsWritten(p.0, p.1, FromTables(a), id, s, w);
      assert !DescribesAll(a, Writes(p.0, v).writes);
      assert !Covers(a, assignments);
    }
  }

  lemma TablesAreRoomy(a: Aliases)
    ensures Roomy(FromTables(a))
  {
  }
}
