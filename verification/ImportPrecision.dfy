/** Why the analysis lists no more aliases than runs of whole statements reach. */
module ImportPrecision {
  import opened Common
  import opened PythonSyntax
  import opened AliasAnalysis
  import opened ImportAnalyzer
  import opened PythonValues
  import opened PythonUnpacking
  import opened PythonWrites
  import opened ImportFlows
  import opened ImportRuns

  // ----- pairs that arrive -----

  /** The `k`-th name of the target is `id`, and the analyzer pairs it with `x`. */
  ghost predicate PairsAt(t: Node, e: Node, k: nat, id: string, x: Node)
    decreases t
  {
    if t.Name? then k == 0 && t.id == id && e == x
    else Unpacks(t, e) && !HasStar(e.elts) && exists i | 0 <= i < |t.elts| :: PairsIn(t, e, i, k, id, x)
  }

  ghost predicate PairsIn(t: Node, e: Node, i: nat, k: nat, id: string, x: Node)
    requires Unpacks(t, e) && i < |t.elts|
    decreases t, 0
  {
    var before := |LeavesEach(t.elts[..i])|;
    before <= k && PairsAt(t.elts[i], e.elts[i], k - before, id, x)
  }

  /** The write of the `i`-th target that is the `k`-th of all. */
  lemma {:induction false} WriteAt(ts: seq<Node>, us: seq<Value>, i: nat, k: nat)
    requires |ts| == |us| && i < |ts| && k < |WritesEach(ts, us).writes|
    requires |LeavesEach(ts[..i])| <= k < |LeavesEach(ts[..i])| + |Leaves(ts[i])|
    ensures var before := |LeavesEach(ts[..i])|;
      k - before < |Writes(ts[i], us[i]).writes| && WritesEach(ts, us).writes[k] == Writes(ts[i], us[i]).writes[k - before]
    decreases |ts|
  {
    var n := |ts| - 1;
    var w := WritesEach(ts[..n], us[..n]);
    WritesEachFollow(ts[..n], us[..n]);
    if i == n {
      assert w.complete;
    } else {
      assert ts[..n][..i] == ts[..i];
      LeavesUpTo(ts[..n], i);
      WriteAt(ts[..n], us[..n], i, k);
    }
  }

  lemma {:induction false} LeavesUpTo(ts: seq<Node>, i: nat)
    requires i < |ts|
    ensures |LeavesEach(ts[..i])| + |Leaves(ts[i])| <= |LeavesEach(ts)|
    decreases |ts|
  {
    var n := |ts| - 1;
    if i < n {
      assert ts[..n][..i] == ts[..i];
      LeavesUpTo(ts[..n], i);
    }
  }

  lemma AlignedSame(ts: seq<Node>, vs: seq<Node>, i: nat)
    requires |ts| == |vs| && i < |ts| && !ts[i].Starred?
    ensures AlignedNodes(ts, vs).Some? && AlignedNodes(ts, vs).value[i] == vs[i]
  {
    var s := StarAt(ts);
    if s < |ts| {
      PackedAt(vs, s, 1, x => Display(x), i);
    }
  }

  lemma {:induction false} PairsLeaf(t: Node, e: Node, k: nat, id: string, x: Node)
    requires PairsAt(t, e, k, id, x)
    ensures k < |Leaves(t)| && !t.Starred?
    decreases t
  {
    if t.Display? {
      var i :| 0 <= i < |t.elts| && PairsIn(t, e, i, k, id, x);
      PairsLeaf(t.elts[i], e.elts[i], k - |LeavesEach(t.elts[..i])|, id, x);
      LeavesUpTo(t.elts, i);
    }
  }

  lemma ItemYields(ts: seq<Node>, vs: seq<Node>, r: Reads, v: Value, i: nat)
    requires |ts| == |vs| && i < |ts| && !ts[i].Starred? && !HasStar(vs) && Yields(Display(vs), r, v)
    ensures Unpacked(ts, v).Some? && Yields(vs[i], r, Unpacked(ts, v).value[i])
  {
    AlignedSame(ts, vs, i);
    AlignedYields(ts, vs, r, v.items);
    var es, us := AlignedNodes(ts, vs).value, AlignedValues(ts, v.items).value;
    assert Yields(es[i], r, us[i]);
  }

  /** The paired write has a value of the paired expression. */
  lemma {:induction false} PairIsWritten(t: Node, e: Node, r: Reads, v: Value, k: nat, id: string, x: Node)
    requires PairsAt(t, e, k, id, x) && Yields(e, r, v) && k < |Writes(t, v).writes|
    ensures Writes(t, v).writes[k].0 == id && Yields(x, r, Writes(t, v).writes[k].1)
    decreases t
  {
    if t.Display? {
      var i :| 0 <= i < |t.elts| && PairsIn(t, e, i, k, id, x);
      var before := |LeavesEach(t.elts[..i])|;
      PairsLeaf(t.elts[i], e.elts[i], k - before, id, x);
      ItemYields(t.elts, e.elts, r, v, i);
      var us := Unpacked(t.elts, v).value;
      WriteAt(t.elts, us, i, k);
      PairIsWritten(t.elts[i], e.elts[i], r, us[i], k - before, id, x);
    }
  }

  lemma {:induction false} StandingWriteHolds(env: Env, w: Trace, k: nat)
    requires Stands(w, k)
    ensures Holds(Apply(env, w.writes), w.writes[k].0, w.writes[k].1)
    decreases |w.writes|
  {
    var n := |w.writes| - 1;
    if k < n {
      var shorter := Trace(w.writes[..n], w.complete);
      assert Stands(shorter, k);
      StandingWriteHolds(env, shorter, k);
    }
  }

  /** An expression the resolver looks into. */
  predicate Plain(x: Node) {
    x.Name? || (x.Attribute? && x.value.Name?)
  }

  /** When it is an API, it is nothing else. */
  lemma PlainApiIsCertain(x: Node, env: Env, v: Value, w: Value)
    requires Plain(x) && Yields(x, FromEnv(env), v) && IsApi(v) && Yields(x, FromEnv(env), w)
    ensures w == v
  {
    if x.Attribute? {
      var u :| Yields(x.value, FromEnv(env), u) && IsMember(u, x.attr, v);
      var t :| Yields(x.value, FromEnv(env), t) && IsMember(t, x.attr, w);
      assert u == Read(env, x.value.id) && t == Read(env, x.value.id);
    }
  }

  /** The pair reaches its name in every environment. */
  ghost predicate Delivered(p: Assignment, id: string, x: Node) {
    exists k: nat :: PairsAt(p.0, p.1, k, id, x) && Arrives(p.0, p.1, k)
  }

  /** Every pair that can bring an API is delivered: a check on the syntax. */
  ghost predicate AllDelivered(nodes: set<Node>) {
    forall p, id, x | p in AssignmentsOf(nodes) && Pairs(p.0, p.1, id, x) && Plain(x) && (x.Attribute? ==> NamesApiFunction(x.attr)) ::
      Delivered(p, id, x)
  }

  // ----- every alias is reached -----

  /** The part of the tables that runs do reach. */
  ghost function Reachable(a: Aliases, nodes: set<Node>): Aliases {
    Aliases(
      map n | n in a.modules :: set m | m in a.modules[n] && Reached(nodes, n, ModuleRef(m)),
      map n | n in a.functions :: set f | f in a.functions[n] && Reached(nodes, n, FunctionRef(f)))
  }

  lemma OneMoreStep(nodes: set<Node>, env: Env, steps: seq<Step>, s: Step)
    requires RunOf(env, steps, nodes) && StepOf(s, nodes, Run(env, steps))
    ensures RunOf(env, steps + [s], nodes) && Run(env, steps + [s]) == Apply(Run(env, steps), StepWrites(s))
  {
    var more := steps + [s];
    assert more[..|more| - 1] == steps && more[|more| - 1] == s;
  }

  lemma ReachOneMore(nodes: set<Node>, env: Env, steps: seq<Step>, s: Step, name: string, v: Value)
    requires Initial(env) && RunOf(env, steps, nodes) && StepOf(s, nodes, Run(env, steps))
    requires Holds(Apply(Run(env, steps), StepWrites(s)), name, v)
    ensures Reached(nodes, name, v)
  {
    OneMoreStep(nodes, env, steps, s);
    assert Holds(Run(env, steps + [s]), name, v);
  }

  lemma ApplyOne(env: Env, x: Write)
    ensures Apply(env, [x]) == env[x.0 := x.1]
  {
    assert [x][..0] == [];
  }

  lemma StartReaches(nodes: set<Node>, name: string, v: Value)
    requires InitialValue(name, v)
    ensures Reached(nodes, name, v)
  {
    var env := map[name := v];
    assert Initial(env) && RunOf(env, [], nodes) && Holds(Run(env, []), name, v);
  }

  lemma ImportReaches(nodes: set<Node>, n: Node, alias: Alias, name: string, v: Value)
    requires n in nodes && IsImport(n) && alias in n.names && ImportWrites(n, alias) == [(name, v)]
    ensures Reached(nodes, name, v)
  {
    ApplyOne(map[], (name, v));
    assert Initial(map[]) && RunOf(map[], [], nodes);
    ReachOneMore(nodes, map[], [], Imports(n, alias), name, v);
  }

  lemma SeedsAreReached(nodes: set<Node>, name: string)
    ensures forall m | SeedsModule(nodes, name, m) :: Reached(nodes, name, ModuleRef(m))
    ensures forall f | SeedsFunction(nodes, name, f) :: Reached(nodes, name, FunctionRef(f))
  {
    forall m | SeedsModule(nodes, name, m) ensures Reached(nodes, name, ModuleRef(m)) {
      if ApiModuleNamed(name) == Some(m) {
        StartReaches(nodes, name, ModuleRef(m));
      } else {
        var n, alias :| n in nodes && n.Import? && alias in n.names
                        && ApiModuleNamed(alias.name) == Some(m) && alias.Bound() == name;
        ImportReaches(nodes, n, alias, name, ModuleRef(m));
      }
    }
    forall f | SeedsFunction(nodes, name, f) ensures Reached(nodes, name, FunctionRef(f)) {
      if name == "__import__" && f == BuiltinsImport {
        StartReaches(nodes, name, FunctionRef(f));
      } else {
        var n, alias :| n in nodes && n.ImportFrom? && alias in n.names
                        && ImportedFunction(n, alias) == Some(f) && alias.Bound() == name;
        ImportReaches(nodes, n, alias, name, FunctionRef(f));
      }
    }
  }

  /** Some run evaluates the expression to `v`. */
  ghost predicate Evaluates(nodes: set<Node>, e: Node, v: Value) {
    exists env, steps :: Initial(env) && RunOf(env, steps, nodes) && Yields(e, FromEnv(Run(env, steps)), v)
  }

  lemma ReachedEvaluates(nodes: set<Node>, name: string, v: Value)
    requires Reached(nodes, name, v)
    ensures Evaluates(nodes, Name(name), v)
  {
    var env, steps :| Initial(env) && RunOf(env, steps, nodes) && Holds(Run(env, steps), name, v);
    assert Yields(Name(name), FromEnv(Run(env, steps)), v);
  }

  lemma AttributeEvaluates(nodes: set<Node>, value: Node, attr: string, m: ApiModule)
    requires Evaluates(nodes, value, ModuleRef(m)) && ApiFunctionNamed(m, attr).Some?
    ensures Evaluates(nodes, Attribute(value, attr), FunctionRef(ApiFunctionNamed(m, attr).value))
  {
    var env, steps :| Initial(env) && RunOf(env, steps, nodes) && Yields(value, FromEnv(Run(env, steps)), ModuleRef(m));
    assert Yields(Attribute(value, attr), FromEnv(Run(env, steps)), FunctionRef(ApiFunctionNamed(m, attr).value));
  }

  /** What an expression resolves to in the reachable part, some run evaluates it to. */
  lemma ResolvedIsReached(a: Aliases, nodes: set<Node>, e: Node, v: Value)
    requires IsApi(v) && Resolves(Reachable(a, nodes), e, v)
    ensures Plain(e) && (e.Attribute? ==> NamesApiFunction(e.attr)) && Evaluates(nodes, e, v)
  {
    if e.Name? {
      ReachedEvaluates(nodes, e.id, v);
    } else {
      var m :| m in ResolveModules(Reachable(a, nodes), e.value) && ApiFunctionNamed(m, e.attr) == Some(v.f);
      ReachedEvaluates(nodes, e.value.id, ModuleRef(m));
      AttributeEvaluates(nodes, e.value, e.attr, m);
    }
  }

  /** Executing the assignment leaves the name with the API that the delivered expression has. */
  lemma DeliveredHolds(p: Assignment, now: Env, id: string, x: Node, v: Value) returns (u: Value)
    requires Delivered(p, id, x) && Plain(x) && Yields(x, FromEnv(now), v) && IsApi(v)
    ensures Yields(p.1, FromEnv(now), u) && Holds(Apply(now, Writes(p.0, u).writes), id, v)
  {
    var k: nat :| PairsAt(p.0, p.1, k, id, x) && Arrives(p.0, p.1, k);
    u := SomeValue(p.1, now);
    ArrivedStands(p.0, p.1, FromEnv(now), u, k);
    var w := Writes(p.0, u);
    PairIsWritten(p.0, p.1, FromEnv(now), u, k, id, x);
    PlainApiIsCertain(x, now, v, w.writes[k].1);
    StandingWriteHolds(now, w, k);
  }

  lemma PairIsReached(a: Aliases, nodes: set<Node>, p: Assignment, id: string, x: Node, v: Value)
    requires p in AssignmentsOf(nodes) && AllDelivered(nodes) && Pairs(p.0, p.1, id, x)
    requires IsApi(v) && Resolves(Reachable(a, nodes), x, v)
    ensures Reached(nodes, id, v)
  {
    ResolvedIsReached(a, nodes, x, v);
    var env, steps :| Initial(env) && RunOf(env, steps, nodes) && Yields(x, FromEnv(Run(env, steps)), v);
    var u := DeliveredHolds(p, Run(env, steps), id, x, v);
    ReachOneMore(nodes, env, steps, Assigns(p, u), id, v);
  }

  lemma ReachableIsClosed(a: Aliases, nodes: set<Node>, p: Assignment)
    requires Closed(a, p.0, p.1) && p in AssignmentsOf(nodes) && AllDelivered(nodes)
    ensures Closed(Reachable(a, nodes), p.0, p.1)
  {
    var b := Reachable(a, nodes);
    assert Leq(b, a);
    forall id, x | Pairs(p.0, p.1, id, x)
      ensures ResolveModules(b, x) <= Lookup(b.modules, id) && ResolveFunctions(b, x) <= Lookup(b.functions, id)
    {
      ClosedPairs(a, p.0, p.1, id, x);
      ResolveIsMonotone(b, a, x);
      forall m | m in ResolveModules(b, x) ensures m in Lookup(b.modules, id) {
        PairIsReached(a, nodes, p, id, x, ModuleRef(m));
      }
      forall f | f in ResolveFunctions(b, x) ensures f in Lookup(b.functions, id) {
        PairIsReached(a, nodes, p, id, x, FunctionRef(f));
      }
    }
    ClosedFromPairs(b, p.0, p.1);
  }

  lemma SeedsAreReachable(nodes: set<Node>, seeds: Aliases, a: Aliases)
    requires IsSeeds(seeds, nodes) && Leq(seeds, a)
    ensures Leq(seeds, Reachable(a, nodes))
  {
    var b := Reachable(a, nodes);
    forall n ensures Lookup(seeds.modules, n) <= Lookup(b.modules, n) && Lookup(seeds.functions, n) <= Lookup(b.functions, n) {
      SeedsAreReached(nodes, n);
      assert Lookup(seeds.modules, n) <= Lookup(a.modules, n);
      assert Lookup(seeds.functions, n) <= Lookup(a.functions, n);
      forall m | m in Lookup(seeds.modules, n) ensures m in Lookup(b.modules, n) {
        assert SeedsModule(nodes, n, m);
      }
      forall f | f in Lookup(seeds.functions, n) ensures f in Lookup(b.functions, n) {
        assert SeedsFunction(nodes, n, f);
      }
    }
  }

  /** Precision: if every pair is delivered, every computed alias is a value that some run gives the
      name. */
  lemma AliasesAreReached(nodes: set<Node>, a: Aliases, name: string)
    requires IsSolution(a, nodes) && AllDelivered(nodes)
    ensures forall m | m in Lookup(a.modules, name) :: Reached(nodes, name, ModuleRef(m))
    ensures forall f | f in Lookup(a.functions, name) :: Reached(nodes, name, FunctionRef(f))
  {
    var seeds :| IsSeeds(seeds, nodes) && IsLeast(a, seeds, AssignmentsOf(nodes));
    var b := Reachable(a, nodes);
    SeedsAreReachable(nodes, seeds, a);
    forall p | p in AssignmentsOf(nodes) ensures Closed(b, p.0, p.1) {
      ReachableIsClosed(a, nodes, p);
    }
    assert Leq(a, b);
    assert Lookup(a.modules, name) <= Lookup(b.modules, name);
    assert Lookup(a.functions, name) <= Lookup(b.functions, name);
  }

  /** On tracked files whose pairs are delivered the analysis is exact: a name has an alias if and only
      if a run of whole statements gives it that API, if and only if any history does. */
  lemma AliasesAreExact(nodes: set<Node>, a: Aliases, name: string, v: Value)
    requires Tracked(nodes) && AllDelivered(nodes) && IsSolution(a, nodes) && IsApi(v)
    ensures Describes(a, name, v) <==> Reached(nodes, name, v)
    ensures Describes(a, name, v) <==> Written(nodes, name, v)
  {
    AliasesAreReached(nodes, a, name);
    if Reached(nodes, name, v) {
      ReachedIsWritten(nodes, name, v);
    }
    if Written(nodes, name, v) {
      var h :| IsHistory(h, nodes) && FromHistory(h)(name, v);
      HistoriesAreDescribed(h, nodes, a);
      SolutionIsSeeded(nodes, a);
      DescribedReads(h, nodes, a);
      assert FromTables(a)(name, v);
    }
  }
}
