/** Files outside the fragment: values that runs reach and the tables miss, and the reverse. */
module ImportEscapes {
  import opened Common
  import opened PythonSyntax
  import opened AliasAnalysis
  import opened ImportAnalyzer
  import opened PythonValues
  import opened PythonUnpacking
  import opened PythonWrites
  import opened ImportFlows
  import opened ImportRuns
  import opened ImportPrecision

  lemma AssignmentIn(nodes: set<Node>, n: Node, p: Assignment)
    requires n in nodes && NodeAssignments(n) == [p]
    ensures p in AssignmentsOf(nodes)
  {
    assert p in NodeAssignments(n);
  }

  /** Any closed tables above what the statements seed bound the solution. */
  lemma SolutionBelow(nodes: set<Node>, a: Aliases, b: Aliases)
    requires IsSolution(a, nodes) && ClosedAll(b, AssignmentsOf(nodes)) && Seeded(b, nodes)
    ensures Leq(a, b)
  {
    var seeds :| IsSeeds(seeds, nodes) && IsLeast(a, seeds, AssignmentsOf(nodes));
    forall name ensures Lookup(seeds.modules, name) <= Lookup(b.modules, name)
                     && Lookup(seeds.functions, name) <= Lookup(b.functions, name) {
      forall m | m in Lookup(seeds.modules, name) ensures m in Lookup(b.modules, name) {
        assert SeedsModule(nodes, name, m);
      }
      forall f | f in Lookup(seeds.functions, name) ensures f in Lookup(b.functions, name) {
        assert SeedsFunction(nodes, name, f);
      }
    }
    assert Leq(seeds, b);
  }

  /** If no statement seeds `x` and no assignment resolves to a module for it, the tables hold
      no module for `x`. */
  lemma AbsentName(nodes: set<Node>, a: Aliases, x: string)
    requires IsSolution(a, nodes)
    requires forall m :: !SeedsModule(nodes, x, m)
    requires forall p | p in AssignmentsOf(nodes) ::
      (p.0.Name? || !p.1.Display?) && (p.0 == Name(x) ==> !p.1.Name?)
    ensures Lookup(a.modules, x) == {}
  {
    SolutionIsSeeded(nodes, a);
    var b := a.(modules := a.modules - {x});
    assert Leq(b, a);
    forall p | p in AssignmentsOf(nodes) ensures Closed(b, p.0, p.1) {
      assert Closed(a, p.0, p.1);
      ResolveIsMonotone(b, a, p.1);
    }
    forall name, m | SeedsModule(nodes, name, m) ensures m in Lookup(b.modules, name) {
      assert name != x && m in Lookup(a.modules, name);
    }
    SolutionBelow(nodes, a, b);
    assert Lookup(a.modules, x) <= Lookup(b.modules, x);
  }

  /** One assignment to a name, executed from an environment in which `lib` is the API. */
  lemma AssignReaches(nodes: set<Node>, x: string, e: Node, lib: string, api: ApiModule)
    requires (Name(x), e) in AssignmentsOf(nodes) && ApiModuleNamed(lib) == Some(api) && Passes(e, lib)
    ensures Reached(nodes, x, ModuleRef(api))
  {
    var env: Env := map[lib := ModuleRef(api)];
    assert Read(env, lib) == ModuleRef(api);
    PassedIsYielded(e, lib, FromEnv(env), ModuleRef(api));
    ApplyOne(env, (x, ModuleRef(api)));
    assert Run(env, []) == env && RunOf(env, [], nodes) && Initial(env);
    ReachOneMore(nodes, env, [], Assigns((Name(x), e), ModuleRef(api)), x, ModuleRef(api));
  }

  // ----- `:=` -----

  /** `x = (m := lib)`. */
  ghost function WalrusFile(x: string, m: string, lib: string): set<Node> {
    {Assign([Name(x)], NamedExpr(Name(m), Name(lib))), NamedExpr(Name(m), Name(lib))}
  }

  /** A module assigned through `:=` is held by the outer name, and the tables do not say so. */
  lemma WalrusValueEscapes(x: string, m: string, lib: string, api: ApiModule, a: Aliases)
    requires ApiModuleNamed(lib) == Some(api) && ApiModuleNamed(x).None? && x != m
    requires IsSolution(a, WalrusFile(x, m, lib))
    ensures Reached(WalrusFile(x, m, lib), x, ModuleRef(api))
    ensures Lookup(a.modules, x) == {}
  {
    var nodes, walrus := WalrusFile(x, m, lib), NamedExpr(Name(m), Name(lib));
    assert NodeAssignments(Assign([Name(x)], walrus)) == [(Name(x), walrus)];
    AssignmentIn(nodes, Assign([Name(x)], walrus), (Name(x), walrus));
    AssignReaches(nodes, x, walrus, lib, api);
    AbsentName(nodes, a, x);
  }

  // ----- conditional expressions -----

  /** `x = lib if test else other`, or `x = lib or other`. */
  ghost function ChoiceFile(x: string, lib: string, test: Option<Node>, other: Node): set<Node> {
    {Assign([Name(x)], Choice(test, Name(lib), other))}
  }

  /** A module assigned through a conditional expression is held by the name, and the tables do not
      say so. */
  lemma ChoiceEscapes(x: string, lib: string, test: Option<Node>, other: Node, api: ApiModule, a: Aliases)
    requires ApiModuleNamed(lib) == Some(api) && ApiModuleNamed(x).None?
    requires IsSolution(a, ChoiceFile(x, lib, test, other))
    ensures Reached(ChoiceFile(x, lib, test, other), x, ModuleRef(api))
    ensures Lookup(a.modules, x) == {}
  {
    var nodes, e := ChoiceFile(x, lib, test, other), Choice(test, Name(lib), other);
    assert NodeAssignments(Assign([Name(x)], e)) == [(Name(x), e)];
    AssignmentIn(nodes, Assign([Name(x)], e), (Name(x), e));
    AssignReaches(nodes, x, e, lib, api);
    AbsentName(nodes, a, x);
  }

  // ----- tuple variables -----

  /** `pair = (lib,)` and `(x,) = pair`. */
  ghost function TupleFile(x: string, pair: string, lib: string): set<Node> {
    {Assign([Name(pair)], Display([Name(lib)])), Assign([Display([Name(x)])], Name(pair))}
  }

  lemma WritesOne(x: string, v: Value)
    ensures Writes(Display([Name(x)]), TupleOf([v])).writes == [(x, v)]
  {
    var ts, us := [Name(x)], [v];
    assert StarAt(ts) == 1;
    assert ts[..0] == [] && us[..0] == [];
    assert WritesEach(ts[..0], us[..0]) == Trace([], true);
    assert WritesEach(ts, us).writes == [] + [(x, v)];
  }

  /** A module that travels through a tuple variable is held by the target, and the tables do
      not say so. */
  lemma TupleVariableReaches(x: string, pair: string, lib: string, api: ApiModule)
    requires ApiModuleNamed(lib) == Some(api)
    ensures Reached(TupleFile(x, pair, lib), x, ModuleRef(api))
  {
    var nodes, v := TupleFile(x, pair, lib), TupleOf([ModuleRef(api)]);
    var p: Assignment := (Display([Name(x)]), Name(pair));
    assert NodeAssignments(Assign([Display([Name(x)])], Name(pair))) == [p];
    AssignmentIn(nodes, Assign([Display([Name(x)])], Name(pair)), p);
    var env := PairReaches(nodes, x, pair, lib, api);
    WritesOne(x, ModuleRef(api));
    var before, steps :| Initial(before) && RunOf(before, steps, nodes) && Run(before, steps) == env;
    assert Yields(Name(pair), FromEnv(env), v) by {
      assert Read(env, pair) == v;
    }
    ApplyOne(env, (x, ModuleRef(api)));
    ReachOneMore(nodes, before, steps, Assigns(p, v), x, ModuleRef(api));
  }

  lemma PairReaches(nodes: set<Node>, x: string, pair: string, lib: string, api: ApiModule) returns (env: Env)
    requires nodes == TupleFile(x, pair, lib) && ApiModuleNamed(lib) == Some(api)
    ensures Holds(env, pair, TupleOf([ModuleRef(api)]))
    ensures exists before, steps :: Initial(before) && RunOf(before, steps, nodes) && Run(before, steps) == env
  {
    var p: Assignment := (Name(pair), Display([Name(lib)]));
    var v := TupleOf([ModuleRef(api)]);
    assert NodeAssignments(Assign([Name(pair)], Display([Name(lib)]))) == [p];
    AssignmentIn(nodes, Assign([Name(pair)], Display([Name(lib)])), p);
    var before: Env := map[lib := ModuleRef(api)];
    assert Read(before, lib) == ModuleRef(api);
    assert Yields(Name(lib), FromEnv(before), ModuleRef(api));
    assert Yields(Display([Name(lib)]), FromEnv(before), v);
    assert RunOf(before, [], nodes) && Run(before, []) == before && Initial(before);
    OneMoreStep(nodes, before, [], Assigns(p, v));
    ApplyOne(before, (pair, v));
    env := Run(before, [] + [Assigns(p, v)]);
  }

  lemma TupleVariableEscapes(x: string, pair: string, lib: string, api: ApiModule, a: Aliases)
    requires ApiModuleNamed(lib) == Some(api) && ApiModuleNamed(x).None? && pair != x
    requires IsSolution(a, TupleFile(x, pair, lib))
    ensures Reached(TupleFile(x, pair, lib), x, ModuleRef(api))
    ensures Lookup(a.modules, x) == {}
  {
    TupleVariableReaches(x, pair, lib, api);
    AbsentName(TupleFile(x, pair, lib), a, x);
  }

  // ----- star imports -----

  /** `from importlib import *`, or the same from `runpy`. */
  lemma StarImportEscapes(lib: string, exported: string, f: ApiFunction, a: Aliases)
    requires ApiModuleNamed(lib).Some? && StarExport(ApiModuleNamed(lib).value) == Some((exported, f))
    requires IsSolution(a, {ImportFrom(0, Some(lib), [Alias("*", None)])})
    ensures Reached({ImportFrom(0, Some(lib), [Alias("*", None)])}, exported, FunctionRef(f))
    ensures Lookup(a.functions, exported) == {}
  {
    var alias := Alias("*", None);
    var star := ImportFrom(0, Some(lib), [alias]);
    assert StarExports(star) == Some((exported, f)) && alias in star.names;
    ImportReaches({star}, star, alias, exported, FunctionRef(f));
    assert ImportedFunction(star, alias) == None && exported != "__import__";
    UnseededFunction({star}, a, exported);
  }

  lemma UnseededFunction(nodes: set<Node>, a: Aliases, name: string)
    requires IsSolution(a, nodes) && AssignmentsOf(nodes) == {}
    requires forall f :: !SeedsFunction(nodes, name, f)
    ensures Lookup(a.functions, name) == {}
  {
    var seeds :| IsSeeds(seeds, nodes) && IsLeast(a, seeds, AssignmentsOf(nodes));
    assert forall f :: f in Lookup(seeds.functions, name) <==> SeedsFunction(nodes, name, f);
    assert ClosedAll(seeds, AssignmentsOf(nodes)) && Leq(seeds, seeds);
    assert Leq(a, seeds);
    assert Lookup(a.functions, name) <= Lookup(seeds.functions, name);
  }

  // ----- repeated targets -----

  /** `(x, x) = (lib, <other>)`. */
  ghost function RepeatFile(x: string, lib: string): set<Node> {
    {Assign([Display([Name(x), Name(x)])], Display([Name(lib), Other([])]))}
  }

  /** The first store is always overwritten, so an alias is reported that no run of whole statements
      reaches. */
  lemma RepeatedTargetOverreports(x: string, lib: string, api: ApiModule, a: Aliases)
    requires ApiModuleNamed(lib) == Some(api) && ApiModuleNamed(x).None?
    requires IsSolution(a, RepeatFile(x, lib))
    ensures api in Lookup(a.modules, x)
    ensures !Reached(RepeatFile(x, lib), x, ModuleRef(api))
  {
    var targets, values := [Name(x), Name(x)], [Name(lib), Other([])];
    var nodes := RepeatFile(x, lib);
    var p: Assignment := (Display(targets), Display(values));
    assert NodeAssignments(Assign([Display(targets)], Display(values))) == [p];
    AssignmentIn(nodes, Assign([Display(targets)], Display(values)), p);
    SolutionIsSeeded(nodes, a);
    assert Closed(a, p.0, p.1) && Closed(a, targets[0], values[0]);
    assert SeedsModule(nodes, lib, api);
    forall env, steps | Initial(env) && RunOf(env, steps, nodes) ensures !Holds(Run(env, steps), x, ModuleRef(api)) {
      RepeatNeverHolds(env, steps, x, lib, api);
    }
  }

  lemma {:induction false} RepeatNeverHolds(env: Env, steps: seq<Step>, x: string, lib: string, api: ApiModule)
    requires ApiModuleNamed(x).None? && Initial(env) && RunOf(env, steps, RepeatFile(x, lib))
    ensures !Holds(Run(env, steps), x, ModuleRef(api))
    decreases |steps|
  {
    if steps != [] {
      var k := |steps| - 1;
      var now, s := Run(env, steps[..k]), steps[k];
      assert StepOf(s, RepeatFile(x, lib), now);
      assert s.Assigns? && s.p == (Display([Name(x), Name(x)]), Display([Name(lib), Other([])]));
      RepeatedStore(x, lib, now, s.v);
    }
  }

  lemma RepeatedStore(x: string, lib: string, env: Env, v: Value)
    requires Yields(Display([Name(lib), Other([])]), FromEnv(env), v)
    ensures exists u: Value :: u.Opaque? && Holds(Apply(env, Writes(Display([Name(x), Name(x)]), v).writes), x, u)
  {
    var targets, values := [Name(x), Name(x)], [Name(lib), Other([])];
    assert !HasStar(values) && Yields(values[1], FromEnv(env), v.items[1]);
    var u := v.items[1];
    assert v.items == [v.items[0], u];
    WritesTwo(x, v.items[0], u);
    var w := [(x, v.items[0]), (x, u)];
    assert w[..1] == [(x, v.items[0])];
    assert Apply(env, w) == Apply(env, w[..1])[x := u];
  }

  lemma WritesTwo(x: string, u: Value, v: Value)
    ensures Writes(Display([Name(x), Name(x)]), TupleOf([u, v])).writes == [(x, u), (x, v)]
  {
    var ts, us := [Name(x), Name(x)], [u, v];
    assert StarAt(ts) == 2 by {
      assert StarFrom(ts, 2) == 2 && StarFrom(ts, 1) == 2;
    }
    assert ts[..1] == [Name(x)] && us[..1] == [u];
    assert [Name(x)][..0] == [] && [u][..0] == [];
    assert WritesEach([], []) == Trace([], true);
    assert WritesEach([Name(x)], [u]) == Trace([] + [(x, u)], true);
    assert WritesEach(ts, us) == Trace([] + [(x, u)] + [(x, v)], true);
  }

  // ----- failing unpackings -----

  /** `(<ts>, z) = (e, lib)`: a constant, a call result or any other value that the model does not know may
      refuse to be unpacked, and then nothing is written. So the pair of `z` is not delivered. */
  lemma RefusalWritesNothing(ts: seq<Node>, e: Node, z: string, lib: string, env: Env) returns (v: Value)
    requires e.Call? || e.Str? || e.Other? || e.Add?
    ensures Yields(Display([e, Name(lib)]), FromEnv(env), v) && Writes(Display([Display(ts), Name(z)]), v) == Trace([], false)
    ensures forall id, x :: !Delivered((Display([Display(ts), Name(z)]), Display([e, Name(lib)])), id, x)
  {
    var targets, values := [Display(ts), Name(z)], [e, Name(lib)];
    var us := [Opaque(false), Read(env, lib)];
    v := TupleOf(us);
    assert !HasStar(values) && Yields(e, FromEnv(env), us[0]) && Yields(Name(lib), FromEnv(env), us[1]);
    assert StarAt(targets) == 2 by {
      assert StarFrom(targets, 2) == 2 && StarFrom(targets, 1) == 2;
    }
    assert targets[..1] == [Display(ts)] && us[..1] == [us[0]] && [Display(ts)][..0] == [] && [us[0]][..0] == [];
    assert WritesEach([], []) == Trace([], true) && Writes(Display(ts), us[0]) == Trace([], false);
    assert WritesEach([Display(ts)], [us[0]]) == Trace([] + [], false);
    assert WritesEach(targets, us) == Trace([], false);
    forall id, x ensures !Delivered((Display(targets), Display(values)), id, x) {
      if k: nat :| PairsAt(Display(targets), Display(values), k, id, x) && Arrives(Display(targets), Display(values), k) {
        ArrivedStands(Display(targets), Display(values), FromEnv(env), v, k);
      }
    }
  }

  // ----- what the checks let through -----

  /** Unpacking an attribute never writes an API: the value is no tuple. */
  lemma AttributeIsCarried(ts: seq<Node>, value: Node, attr: string)
    ensures AllCarried({(Display(ts), Attribute(value, attr))})
  {
  }

  /** `x = (m := x)`: the name already has what it is given. */
  lemma SelfAssignmentIsCarried(x: string, m: string)
    ensures AllCarried({(Name(x), NamedExpr(Name(m), Name(x)))})
  {
    var p: Assignment := (Name(x), NamedExpr(Name(m), Name(x)));
    FlowStarts({p}, x);
    forall id, s | Sends(p.0, p.1, id, s) ensures Carried({p}, s, id) {
      WalrusGives(m, x, s);
    }
  }

  lemma WalrusGives(m: string, x: string, s: Source)
    ensures Gives(NamedExpr(Name(m), Name(x)), s) <==> s == Passed(x)
  {
    assert Gives(NamedExpr(Name(m), Name(x)), s) <==> Gives(Name(x), s);
  }

  /** `(x, x) = (lib, lib)`: the second write delivers what the analyzer pairs. */
  lemma RepeatedValueIsDelivered(x: string, lib: string)
    ensures Delivered((Display([Name(x), Name(x)]), Display([Name(lib), Name(lib)])), x, Name(lib))
  {
    var ts, es := [Name(x), Name(x)], [Name(lib), Name(lib)];
    var t, e := Display(ts), Display(es);
    assert StarAt(ts) == 2 by {
      assert StarFrom(ts, 2) == 2 && StarFrom(ts, 1) == 2;
    }
    assert ts[..1] == [Name(x)] && es[..1] == [Name(lib)] && [Name(x)][..0] == [];
    assert LeavesEach([]) == [] && LeavesEach([Name(x)]) == [] + [x] && LeavesEach(ts) == [] + [x] + [x];
    assert Leaves(t) == [x, x];
    assert !HasStar(es) && AlignedNodes(ts, es) == Some(es);
    LiteralParts(t, e);
    assert SureEach(ts, es) == |LeavesEach(ts[..1])| + Sure(ts[1], es[1]);
    assert MostEach(ts, es) == |LeavesEach(ts[..1])| + Most(ts[1], es[1]);
    assert Sure(t, e) == 2 && Most(t, e) == 2;
    assert PairsIn(t, e, 1, 1, x, Name(lib));
    assert PairsAt(t, e, 1, x, Name(lib)) && Arrives(t, e, 1);
  }

  // ----- reading a name at two moments -----

  /** `((p,), x) = (z, (m := z))`. */
  function TwoReads(p: string, x: string, m: string, z: string): Assignment {
    (Display([Display([Name(p)]), Name(x)]), Display([Name(z), NamedExpr(Name(m), Name(z))]))
  }

  /** In any one environment the assignment writes no API to `x`: if `z` is one, unpacking it fails
      first. */
  lemma OneMomentMasks(p: string, x: string, m: string, z: string, env: Env, v: Value)
    requires Yields(TwoReads(p, x, m, z).1, FromEnv(env), v)
    requires p != x
    ensures forall w | w in Writes(TwoReads(p, x, m, z).0, v).writes && w.0 == x :: !IsApi(w.1)
  {
    var t, e := TwoReads(p, x, m, z).0, TwoReads(p, x, m, z).1;
    assert !HasStar(e.elts) && |v.items| == 2;
    assert Yields(e.elts[0], FromEnv(env), v.items[0]) && Yields(e.elts[1], FromEnv(env), v.items[1]);
    assert Yields(Name(z), FromEnv(env), v.items[1]) && Yields(Name(z), FromEnv(env), v.items[0]);
    assert v.items[0] == Read(env, z) && v.items[1] == Read(env, z);
    assert StarAt(t.elts) == 2 by {
      assert StarFrom(t.elts, 2) == 2 && StarFrom(t.elts, 1) == 2;
    }
    LeafOfOne(p);
    WritesFollow(t.elts[0], v.items[0]);
    forall w | w in Writes(t, v).writes && w.0 == x ensures !IsApi(w.1) {
      var i := WrittenByOne(t.elts, v.items, w);
    }
  }

  /** When `z` may change between the two reads it does write one. This is why the tables have to cover
      reads from different moments. */
  lemma TwoMomentsEscape(p: string, x: string, m: string, z: string, api: ApiModule, a: Aliases) returns (v: Value)
    requires api in Lookup(a.modules, z)
    ensures Yields(TwoReads(p, x, m, z).1, FromTables(a), v)
    ensures (x, ModuleRef(api)) in Writes(TwoReads(p, x, m, z).0, v).writes
  {
    var t, e := TwoReads(p, x, m, z).0, TwoReads(p, x, m, z).1;
    assert StarAt(t.elts) == 2 by {
      assert StarFrom(t.elts, 2) == 2 && StarFrom(t.elts, 1) == 2;
    }
    assert !HasStar(e.elts) && AlignedNodes(t.elts, e.elts) == Some(e.elts);
    assert Sends(t.elts[1], e.elts[1], x, Passed(z)) && CanComplete(t.elts[0], e.elts[0]);
    assert Sends(t, e, x, Passed(z));
    TablesAreRoomy(a);
    v := SourceIsWritten(t, e, FromTables(a), x, Passed(z), ModuleRef(api));
  }

  lemma LeafOfOne(p: string)
    ensures Leaves(Display([Name(p)])) == [p]
  {
    assert [Name(p)][..0] == [] && LeavesEach([]) == [];
    assert LeavesEach([Name(p)]) == [] + [p];
  }
}
