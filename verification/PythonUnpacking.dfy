/** What the syntax of an assignment tells about its run: whether its unpackings can fail, and how
    many of its names are written in the worst and in the best case. */
module PythonUnpacking {
  import opened Common
  import opened PythonSyntax
  import opened AliasAnalysis
  import opened PythonValues

  // ----- where the value of an expression comes from -----

  predicate NamesApiFunction(attr: string) {
    attr == "__import__" || attr == "import_module" || attr == "run_module"
  }

  /** The expression can have the value of name `z`. */
  predicate Passes(e: Node, z: string) {
    match e
    case Name(id) => id == z
    case NamedExpr(_, value) => Passes(value, z)
    case Choice(_, left, right) => Passes(left, z) || Passes(right, z)
    case _ => false
  }

  /** The expression can be the API function `attr` of the module that name `z` holds. */
  predicate Calls(e: Node, z: string, attr: string) {
    match e
    case Attribute(value, a) => a == attr && NamesApiFunction(attr) && Passes(value, z)
    case NamedExpr(_, value) => Calls(value, z, attr)
    case Choice(_, left, right) => Calls(left, z, attr) || Calls(right, z, attr)
    case _ => false
  }

  lemma {:induction false} PassedIsYielded(e: Node, z: string, r: Reads, v: Value)
    requires Passes(e, z) && r(z, v)
    ensures Yields(e, r, v)
  {
    match e
    case NamedExpr(_, value) => PassedIsYielded(value, z, r, v);
    case Choice(_, left, right) =>
      if Passes(left, z) {
        PassedIsYielded(left, z, r, v);
      } else {
        PassedIsYielded(right, z, r, v);
      }
    case _ =>
  }

  lemma {:induction false} CalledIsYielded(e: Node, z: string, attr: string, r: Reads, m: ApiModule)
    requires Calls(e, z, attr) && r(z, ModuleRef(m)) && ApiFunctionNamed(m, attr).Some?
    ensures Yields(e, r, FunctionRef(ApiFunctionNamed(m, attr).value))
  {
    match e
    case Attribute(value, _) => PassedIsYielded(value, z, r, ModuleRef(m));
    case NamedExpr(_, value) => CalledIsYielded(value, z, attr, r, m);
    case Choice(_, left, right) =>
      if Calls(left, z, attr) {
        CalledIsYielded(left, z, attr, r, m);
      } else {
        CalledIsYielded(right, z, attr, r, m);
      }
    case _ =>
  }

  /** The expression has value `v` because name `z` has it, or because `v` is a function of a module
      that `z` has. */
  ghost predicate ComesFrom(e: Node, r: Reads, v: Value, z: string) {
    || (Passes(e, z) && r(z, v))
    || (v.FunctionRef? && exists m, attr :: Calls(e, z, attr) && r(z, ModuleRef(m)) && ApiFunctionNamed(m, attr) == Some(v.f))
  }

  lemma {:induction false} ApiComesFrom(e: Node, r: Reads, v: Value) returns (z: string)
    requires Yields(e, r, v) && IsApi(v)
    ensures ComesFrom(e, r, v, z)
  {
    match e
    case Name(id) => z := id;
    case Attribute(value, attr) =>
      var u :| Yields(value, r, u) && IsMember(u, attr, v);
      z := ApiComesFrom(value, r, u);
      ModuleIsPassed(value, r, u, z);
      assert Calls(e, z, attr) && r(z, ModuleRef(u.m)) && ApiFunctionNamed(u.m, attr) == Some(v.f);
    case NamedExpr(_, value) =>
      z := ApiComesFrom(value, r, v);
      assert ComesFrom(value, r, v, z);
      Widen(value, e, r, v, z);
    case Choice(_, left, right) =>
      if Yields(left, r, v) {
        z := ApiComesFrom(left, r, v);
        Widen(left, e, r, v, z);
      } else {
        z := ApiComesFrom(right, r, v);
        Widen(right, e, r, v, z);
      }
    case _ => z := "";
  }

  lemma ModuleIsPassed(e: Node, r: Reads, u: Value, z: string)
    requires u.ModuleRef? && ComesFrom(e, r, u, z)
    ensures Passes(e, z) && r(z, u)
  {
  }

  lemma Widen(part: Node, e: Node, r: Reads, v: Value, z: string)
    requires ComesFrom(part, r, v, z)
    requires (e.NamedExpr? && e.value == part) || (e.Choice? && (e.left == part || e.right == part))
    ensures ComesFrom(e, r, v, z)
  {
    if !(Passes(part, z) && r(z, v)) {
      var m, attr :| Calls(part, z, attr) && r(z, ModuleRef(m)) && ApiFunctionNamed(m, attr) == Some(v.f);
      assert Calls(e, z, attr);
    }
  }

  // ----- whether an unpacking can fail -----

  /** Every tuple can be unpacked into the target. */
  predicate FitsAny(t: Node) {
    match t
    case Starred(inner) => FitsAny(inner)
    case Display(ts) => |ts| == 1 && ts[0].Starred? && FitsAny(ts[0].value)
    case _ => true
  }

  predicate Literal(e: Node) {
    e.Display? && !HasStar(e.elts)
  }

  /** No value of an expression that is no literal fails to be unpacked into the target: it is a literal
      with a starred element, and any number of items will do. */
  predicate Solid(t: Node, e: Node) {
    e.Display? && FitsAny(t)
  }

  predicate MustComplete(t: Node, e: Node)
    decreases t, e
  {
    if t.Starred? then MustComplete(t.value, e)
    else if !t.Display? then true
    else if e.NamedExpr? then MustComplete(t, e.value)
    else if e.Choice? then MustComplete(t, e.left) && MustComplete(t, e.right)
    else if Literal(e) then
      var es := AlignedNodes(t.elts, e.elts);
      es.Some? && forall i | 0 <= i < |t.elts| :: MustComplete(t.elts[i], es.value[i])
    else Solid(t, e)
  }

  predicate CanComplete(t: Node, e: Node)
    decreases t, e
  {
    if t.Starred? then CanComplete(t.value, e)
    else if !t.Display? then true
    else if e.NamedExpr? then CanComplete(t, e.value)
    else if e.Choice? then CanComplete(t, e.left) || CanComplete(t, e.right)
    else if Literal(e) then
      var es := AlignedNodes(t.elts, e.elts);
      es.Some? && forall i | 0 <= i < |t.elts| :: CanComplete(t.elts[i], es.value[i])
    else true
  }

  function Min(a: nat, b: nat): nat {
    if a < b then a else b
  }

  function Max(a: nat, b: nat): nat {
    if a < b then b else a
  }

  /** How many names are written whatever happens. */
  function Sure(t: Node, e: Node): nat
    decreases t, e
  {
    if t.Starred? then Sure(t.value, e)
    else if !t.Display? then |Leaves(t)|
    else if e.NamedExpr? then Sure(t, e.value)
    else if e.Choice? then Min(Sure(t, e.left), Sure(t, e.right))
    else if Literal(e) then
      var es := AlignedNodes(t.elts, e.elts);
      if es.Some? then SureEach(t.elts, es.value) else 0
    else if Solid(t, e) then |Leaves(t)| else 0
  }

  function SureEach(ts: seq<Node>, es: seq<Node>): nat
    requires |ts| == |es|
    decreases ts
  {
    if ts == [] then 0
    else
      var k := |ts| - 1;
      assert ts[k] in ts;
      if forall i | 0 <= i < k :: MustComplete(ts[i], es[i])
      then |LeavesEach(ts[..k])| + Sure(ts[k], es[k])
      else SureEach(ts[..k], es[..k])
  }

  /** How many names are written in the best case. */
  function Most(t: Node, e: Node): nat
    decreases t, e
  {
    if t.Starred? then Most(t.value, e)
    else if !t.Display? then |Leaves(t)|
    else if e.NamedExpr? then Most(t, e.value)
    else if e.Choice? then Max(Most(t, e.left), Most(t, e.right))
    else if Literal(e) then
      var es := AlignedNodes(t.elts, e.elts);
      if es.Some? then MostEach(t.elts, es.value) else 0
    else |Leaves(t)|
  }

  function MostEach(ts: seq<Node>, es: seq<Node>): nat
    requires |ts| == |es|
    decreases ts
  {
    if ts == [] then 0
    else
      var k := |ts| - 1;
      assert ts[k] in ts;
      if forall i | 0 <= i < k :: CanComplete(ts[i], es[i])
      then |LeavesEach(ts[..k])| + Most(ts[k], es[k])
      else MostEach(ts[..k], es[..k])
  }

  predicate MustEach(ts: seq<Node>, es: seq<Node>)
    requires |ts| == |es|
  {
    forall i | 0 <= i < |ts| :: MustComplete(ts[i], es[i])
  }

  predicate CanEach(ts: seq<Node>, es: seq<Node>)
    requires |ts| == |es|
  {
    forall i | 0 <= i < |ts| :: CanComplete(ts[i], es[i])
  }

  // ----- the bounds hold -----

  /** What the syntax promises of one store. */
  ghost predicate WithinBounds(w: Trace, must: bool, can: bool, sure: nat, most: nat) {
    (must ==> w.complete) && (w.complete ==> can) && sure <= |w.writes| <= most
  }

  lemma {:induction false} OpaqueCompletes(t: Node)
    ensures Writes(t, Opaque(true)).complete && |Writes(t, Opaque(true)).writes| == |Leaves(t)|
    decreases t, 1
  {
    WritesFollow(t, Opaque(true));
    match t
    case Starred(inner) => OpaqueCompletes(inner);
    case Display(ts) => OpaquesComplete(ts);
    case _ =>
  }

  lemma {:induction false} OpaquesComplete(ts: seq<Node>)
    ensures WritesEach(ts, Opaques(|ts|)).complete
    decreases ts, 0
  {
    if ts != [] {
      var k := |ts| - 1;
      assert ts[k] in ts && Opaques(|ts|)[..k] == Opaques(k);
      OpaquesComplete(ts[..k]);
      OpaqueCompletes(ts[k]);
    }
  }

  lemma {:induction false} FitsAnyTuple(t: Node, v: Value)
    requires FitsAny(t) && v.TupleOf?
    ensures Writes(t, v).complete
    decreases t
  {
    match t
    case Starred(inner) => FitsAnyTuple(inner, v);
    case Display(ts) =>
      FitsAnyTuple(ts[0].value, v);
      OneStar(ts, v);
    case _ =>
  }

  lemma OneStar(ts: seq<Node>, v: Value)
    requires |ts| == 1 && ts[0].Starred? && v.TupleOf?
    ensures Writes(Display(ts), v) == Writes(ts[0].value, v)
  {
    assert StarAt(ts) == 0;
    PackedAt(v.items, 0, |v.items|, x => TupleOf(x), 0);
    assert v.items[0..|v.items|] == v.items;
    var us := Unpacked(ts, v).value;
    assert us == [v];
    assert ts[..0] == [] && us[..0] == [];
    assert WritesEach(ts[..0], us[..0]) == Trace([], true);
    var w := Writes(ts[0], v);
    assert WritesEach(ts, us) == Trace([] + w.writes, w.complete);
    assert [] + w.writes == w.writes;
  }

  /** What is no literal is unpacked whole or not at all, if it is solid whole. */
  lemma SolidCompletes(t: Node, e: Node, r: Reads, v: Value)
    requires t.Display? && !e.NamedExpr? && !e.Choice? && !Literal(e) && Solid(t, e) && Yields(e, r, v)
    ensures Writes(t, v).complete
  {
    FitsAnyTuple(t, v);
  }

  /** The syntax of an assignment bounds what storing `v` does. */
  ghost predicate Bounded(t: Node, e: Node, v: Value) {
    WithinBounds(Writes(t, v), MustComplete(t, e), CanComplete(t, e), Sure(t, e), Most(t, e))
  }

  lemma {:induction false} Bounds(t: Node, e: Node, r: Reads, v: Value)
    requires Yields(e, r, v)
    ensures Bounded(t, e, v)
    decreases t, e, 2
  {
    if t.Starred? {
      Bounds(t.value, e, r, v);
    } else if t.Display? {
      DisplayBounds(t, e, r, v);
    } else {
      SimpleTarget(t, e, v);
    }
  }

  lemma SimpleTarget(t: Node, e: Node, v: Value)
    requires !t.Starred? && !t.Display?
    ensures MustComplete(t, e) && CanComplete(t, e) && Sure(t, e) == Most(t, e) == |Leaves(t)|
    ensures Writes(t, v).complete && |Writes(t, v).writes| == |Leaves(t)|
  {
  }

  lemma {:induction false} DisplayBounds(t: Node, e: Node, r: Reads, v: Value)
    requires t.Display? && Yields(e, r, v)
    ensures Bounded(t, e, v)
    decreases t, e, 1
  {
    if e.NamedExpr? {
      DisplayBounds(t, e.value, r, v);
    } else if e.Choice? {
      if Yields(e.left, r, v) {
        DisplayBounds(t, e.left, r, v);
      } else {
        DisplayBounds(t, e.right, r, v);
      }
    } else if Literal(e) {
      LiteralBounds(t, e, r, v);
    } else {
      PlainBounds(t, e, r, v);
    }
  }

  lemma PlainBounds(t: Node, e: Node, r: Reads, v: Value)
    requires t.Display? && !e.NamedExpr? && !e.Choice? && !Literal(e) && Yields(e, r, v)
    ensures Bounded(t, e, v)
  {
    WritesFollow(t, v);
    if Solid(t, e) {
      SolidCompletes(t, e, r, v);
    }
  }

  lemma {:induction false} LiteralBounds(t: Node, e: Node, r: Reads, v: Value)
    requires t.Display? && Literal(e) && Yields(e, r, v)
    ensures Bounded(t, e, v)
    decreases t, e, 0
  {
    AlignedYields(t.elts, e.elts, r, v.items);
    var es := AlignedNodes(t.elts, e.elts);
    if es.Some? {
      EachBounds(t.elts, es.value, r, AlignedValues(t.elts, v.items).value);
      LiteralParts(t, e);
    }
  }

  lemma LiteralParts(t: Node, e: Node)
    requires t.Display? && Literal(e) && AlignedNodes(t.elts, e.elts).Some?
    ensures var es := AlignedNodes(t.elts, e.elts).value;
      && MustComplete(t, e) == MustEach(t.elts, es) && CanComplete(t, e) == CanEach(t.elts, es)
      && Sure(t, e) == SureEach(t.elts, es) && Most(t, e) == MostEach(t.elts, es)
  {
  }

  lemma {:induction false} EachBounds(ts: seq<Node>, es: seq<Node>, r: Reads, vs: seq<Value>)
    requires |ts| == |es| && YieldsAll(es, r, vs)
    ensures WithinBounds(WritesEach(ts, vs), MustEach(ts, es), CanEach(ts, es), SureEach(ts, es), MostEach(ts, es))
    decreases ts
  {
    if ts != [] {
      var k := |ts| - 1;
      assert ts[k] in ts;
      EachBounds(ts[..k], es[..k], r, vs[..k]);
      Bounds(ts[k], es[k], r, vs[k]);
      WritesEachFollow(ts[..k], vs[..k]);
      EachSplits(ts, es);
    }
  }

  lemma EachSplits(ts: seq<Node>, es: seq<Node>)
    requires |ts| == |es| > 0
    ensures var k := |ts| - 1;
      && (MustEach(ts, es) <==> MustEach(ts[..k], es[..k]) && MustComplete(ts[k], es[k]))
      && (CanEach(ts, es) <==> CanEach(ts[..k], es[..k]) && CanComplete(ts[k], es[k]))
      && (MustEach(ts[..k], es[..k]) <==> forall i | 0 <= i < k :: MustComplete(ts[i], es[i]))
      && (CanEach(ts[..k], es[..k]) <==> forall i | 0 <= i < k :: CanComplete(ts[i], es[i]))
  {
    var k := |ts| - 1;
    assert forall i | 0 <= i < k :: ts[..k][i] == ts[i] && es[..k][i] == es[i];
  }

  // ----- the bounds are met -----

  /** Reading a name can always give a value that is no API and spreads. */
  ghost predicate Blank(r: Reads) {
    forall id :: r(id, Opaque(true))
  }

  lemma BlankEnv()
    ensures Blank(FromEnv(map[]))
  {
    forall id: string ensures FromEnv(map[])(id, Opaque(true)) {
      assert Read(map[], id) == Opaque(true);
    }
  }

  lemma {:induction false} BlankValue(e: Node, r: Reads)
    requires Blank(r) && !e.NamedExpr? && !e.Choice? && !e.Display?
    ensures Yields(e, r, Opaque(true))
    ensures !e.Name? ==> Yields(e, r, Opaque(false))
  {
    if e.Attribute? {
      var u := SomeBlankValue(e.value, r);
      assert Yields(e.value, r, u) && IsMember(u, e.attr, Opaque(true)) && IsMember(u, e.attr, Opaque(false));
    }
  }

  /** Some value that is no module. */
  lemma {:induction false} SomeBlankValue(e: Node, r: Reads) returns (v: Value)
    requires Blank(r)
    ensures Yields(e, r, v) && !IsApi(v)
    decreases e, 1
  {
    match e
    case Attribute(value, attr) =>
      var u := SomeBlankValue(value, r);
      v := Opaque(true);
      assert Yields(value, r, u) && IsMember(u, attr, v);
    case Display(elts) =>
      var items := SomeBlankValues(elts, r);
      v := TupleOf(items);
    case NamedExpr(_, value) => v := SomeBlankValue(value, r);
    case Choice(_, left, _) => v := SomeBlankValue(left, r);
    case _ => v := Opaque(true);
  }

  lemma {:induction false} SomeBlankValues(es: seq<Node>, r: Reads) returns (vs: seq<Value>)
    requires Blank(r)
    ensures YieldsAll(es, r, vs)
    decreases es, 0
  {
    if es == [] {
      vs := [];
    } else {
      var k := |es| - 1;
      assert es[k] in es;
      var before := SomeBlankValues(es[..k], r);
      var v := SomeBlankValue(es[k], r);
      vs := before + [v];
    }
  }

  lemma {:induction false} FittingTuple(t: Node) returns (v: Value)
    ensures v.TupleOf? && Writes(t, v).complete
    decreases t, 1
  {
    match t
    case Starred(inner) => v := FittingTuple(inner);
    case Display(ts) =>
      var us := FittingItems(ts, StarAt(ts), |ts|);
      assert ts[..|ts|] == ts;
      v := Gather(ts, us);
    case _ => v := TupleOf([]);
  }

  /** Values that can be stored in the first `n` targets; position `s` gets a tuple. */
  lemma {:induction false} FittingItems(ts: seq<Node>, s: nat, n: nat) returns (us: seq<Value>)
    requires n <= |ts|
    ensures |us| == n && WritesEach(ts[..n], us).complete && (s < n ==> us[s].TupleOf?)
    decreases ts, 0, n
  {
    if n == 0 {
      us := [];
    } else {
      var k := n - 1;
      assert ts[k] in ts;
      var before := FittingItems(ts, s, k);
      var last := Opaque(true);
      if k == s {
        last := FittingTuple(ts[k]);
      } else {
        OpaqueCompletes(ts[k]);
      }
      us := before + [last];
      assert ts[..n][..k] == ts[..k] && us[..k] == before;
    }
  }

  /** The tuple that deals `us` to the targets. */
  lemma Gather(ts: seq<Node>, us: seq<Value>) returns (v: Value)
    requires |us| == |ts| && (StarAt(ts) < |ts| ==> us[StarAt(ts)].TupleOf?)
    ensures v.TupleOf? && Writes(Display(ts), v) == WritesEach(ts, us)
  {
    var s := StarAt(ts);
    if s == |ts| {
      v := TupleOf(us);
    } else {
      PackedUnpack(us, s, us[s].items, x => TupleOf(x));
      v := TupleOf(Unpack(us, s, us[s].items));
    }
    assert AlignedValues(ts, v.items) == Some(us);
  }

  /** Storing `v` goes as far as storing a value of the expression can. */
  ghost predicate AtMost(t: Node, e: Node, v: Value) {
    |Writes(t, v).writes| == Most(t, e) && Writes(t, v).complete == CanComplete(t, e)
  }

  lemma {:induction false} MostMet(t: Node, e: Node, r: Reads) returns (v: Value)
    requires Blank(r)
    ensures Yields(e, r, v) && AtMost(t, e, v)
    decreases t, e, 2
  {
    if t.Starred? {
      v := MostMet(t.value, e, r);
    } else if t.Display? {
      v := MostOfDisplay(t, e, r);
    } else {
      v := SomeBlankValue(e, r);
      SimpleTarget(t, e, v);
    }
  }

  lemma {:induction false} MostOfDisplay(t: Node, e: Node, r: Reads) returns (v: Value)
    requires Blank(r) && t.Display?
    ensures Yields(e, r, v) && AtMost(t, e, v)
    decreases t, e, 1
  {
    if e.NamedExpr? {
      v := MostOfDisplay(t, e.value, r);
    } else if e.Choice? {
      v := MostOfChoice(t, e, r);
    } else if Literal(e) {
      v := MostOfLiteral(t, e, r);
    } else {
      v := MostOfPlain(t, e, r);
    }
  }

  lemma MostOfPlain(t: Node, e: Node, r: Reads) returns (v: Value)
    requires Blank(r) && t.Display? && !e.NamedExpr? && !e.Choice? && !Literal(e)
    ensures Yields(e, r, v) && AtMost(t, e, v)
  {
    if e.Display? {
      v := FittingTuple(t);
      WritesFollow(t, v);
    } else {
      BlankValue(e, r);
      OpaqueCompletes(t);
      v := Opaque(true);
    }
  }

  lemma {:induction false} MostOfChoice(t: Node, e: Node, r: Reads) returns (v: Value)
    requires Blank(r) && t.Display? && e.Choice?
    ensures Yields(e, r, v) && AtMost(t, e, v)
    decreases t, e, 0
  {
    var left := MostOfDisplay(t, e.left, r);
    var right := MostOfDisplay(t, e.right, r);
    WritesFollow(t, left);
    WritesFollow(t, right);
    v := if CanComplete(t, e.left) then left
         else if CanComplete(t, e.right) then right
         else if Most(t, e.left) < Most(t, e.right) then right else left;
  }

  lemma {:induction false} MostOfLiteral(t: Node, e: Node, r: Reads) returns (v: Value)
    requires Blank(r) && t.Display? && Literal(e)
    ensures Yields(e, r, v) && AtMost(t, e, v)
    decreases t, e, 0
  {
    var es := AlignedNodes(t.elts, e.elts);
    if es.Some? {
      var us := MostMetEach(t.elts, es.value, r);
      var items := GatheredYields(t.elts, e.elts, r, us);
      v := TupleOf(items);
      LiteralParts(t, e);
    } else {
      var items := SomeBlankValues(e.elts, r);
      LiteralItems(e.elts, r, items);
      v := TupleOf(items);
      AlignedYields(t.elts, e.elts, r, items);
    }
  }

  /** Adding the last value to those of the elements before it. */
  lemma JoinLast(ts: seq<Node>, es: seq<Node>, r: Reads, before: seq<Value>, last: Value)
    requires |ts| == |es| > 0 && YieldsAll(es[..|es| - 1], r, before) && Yields(es[|es| - 1], r, last)
    ensures YieldsAll(es, r, before + [last])
    ensures var k := |ts| - 1; var w, x := WritesEach(ts[..k], before), Writes(ts[k], last);
      && Follows(w, LeavesEach(ts[..k]))
      && WritesEach(ts, before + [last]) == if w.complete then Trace(w.writes + x.writes, x.complete) else w
  {
    var k := |ts| - 1;
    var us := before + [last];
    assert us[..k] == before;
    WritesEachFollow(ts[..k], before);
    forall i | 0 <= i < |es| ensures Yields(es[i], r, us[i]) {
      if i < k {
        assert es[..k][i] == es[i];
      }
    }
  }

  lemma {:induction false} MostMetEach(ts: seq<Node>, es: seq<Node>, r: Reads) returns (us: seq<Value>)
    requires Blank(r) && |ts| == |es|
    ensures YieldsAll(es, r, us)
    ensures |WritesEach(ts, us).writes| == MostEach(ts, es) && WritesEach(ts, us).complete == CanEach(ts, es)
    decreases ts
  {
    if ts == [] {
      us := [];
    } else {
      var k := |ts| - 1;
      assert ts[k] in ts;
      var before := MostMetEach(ts[..k], es[..k], r);
      var last := MostMet(ts[k], es[k], r);
      us := before + [last];
      JoinLast(ts, es, r, before, last);
      EachSplits(ts, es);
    }
  }

  lemma {:induction false} MisfitTuple(t: Node) returns (v: Value)
    requires !FitsAny(t)
    ensures v.TupleOf? && Writes(t, v) == Trace([], false)
    decreases t
  {
    match t
    case Starred(inner) => v := MisfitTuple(inner);
    case Display(ts) =>
      if |ts| == 1 && ts[0].Starred? {
        v := MisfitTuple(ts[0].value);
        OneStar(ts, v);
      } else if StarAt(ts) < |ts| {
        v := TupleOf([]);
      } else {
        v := TupleOf(Opaques(|ts| + 1));
      }
    case _ => v := Opaque(true);
  }

  function ModuleOf(attr: string): ApiModule {
    if attr == "import_module" then Importlib else if attr == "run_module" then Runpy else Builtins
  }

  /** An environment in which unpacking fails at once. */
  lemma {:induction false} Breaks(t: Node, e: Node) returns (env: Env, v: Value)
    requires t.Display? && !e.NamedExpr? && !e.Choice? && !Literal(e) && !Solid(t, e)
    ensures Yields(e, FromEnv(env), v) && Writes(t, v) == Trace([], false)
  {
    if e.Name? {
      env, v := map[e.id := Opaque(false)], Opaque(false);
      assert Read(env, e.id) == v;
    } else if e.Display? {
      env := map[];
      v := MisfitTuple(t);
    } else {
      env, v := map[], Opaque(false);
      BlankEnv();
      BlankValue(e, FromEnv(env));
    }
  }

  /** Storing `v` goes no further than it must. */
  ghost predicate AtLeast(t: Node, e: Node, v: Value) {
    |Writes(t, v).writes| == Sure(t, e) && Writes(t, v).complete == MustComplete(t, e)
  }

  lemma {:induction false} SureMet(t: Node, e: Node) returns (env: Env, v: Value)
    ensures Yields(e, FromEnv(env), v) && AtLeast(t, e, v)
    decreases t, e, 2
  {
    if t.Starred? {
      env, v := SureMet(t.value, e);
    } else if t.Display? {
      env, v := SureOfDisplay(t, e);
    } else {
      env := map[];
      v := SomeValue(e, env);
      SimpleTarget(t, e, v);
    }
  }

  lemma {:induction false} SureOfDisplay(t: Node, e: Node) returns (env: Env, v: Value)
    requires t.Display?
    ensures Yields(e, FromEnv(env), v) && AtLeast(t, e, v)
    decreases t, e, 1
  {
    if e.NamedExpr? {
      env, v := SureOfDisplay(t, e.value);
    } else if e.Choice? {
      env, v := SureOfChoice(t, e);
    } else if Literal(e) {
      env, v := SureOfLiteral(t, e);
    } else {
      env, v := SureOfPlain(t, e);
    }
  }

  lemma SureOfPlain(t: Node, e: Node) returns (env: Env, v: Value)
    requires t.Display? && !e.NamedExpr? && !e.Choice? && !Literal(e)
    ensures Yields(e, FromEnv(env), v) && AtLeast(t, e, v)
  {
    if Solid(t, e) {
      env := map[];
      v := SomeValue(e, env);
      SolidCompletes(t, e, FromEnv(env), v);
      WritesFollow(t, v);
    } else {
      env, v := Breaks(t, e);
    }
  }

  lemma {:induction false} SureOfChoice(t: Node, e: Node) returns (env: Env, v: Value)
    requires t.Display? && e.Choice?
    ensures Yields(e, FromEnv(env), v) && AtLeast(t, e, v)
    decreases t, e, 0
  {
    var le, left := SureOfDisplay(t, e.left);
    var re, right := SureOfDisplay(t, e.right);
    WritesFollow(t, left);
    WritesFollow(t, right);
    if MustComplete(t, e.left) || (!MustComplete(t, e.right) && Sure(t, e.right) < Sure(t, e.left)) {
      env, v := re, right;
    } else {
      env, v := le, left;
    }
  }

  lemma {:induction false} SureOfLiteral(t: Node, e: Node) returns (env: Env, v: Value)
    requires t.Display? && Literal(e)
    ensures Yields(e, FromEnv(env), v) && AtLeast(t, e, v)
    decreases t, e, 0
  {
    var es := AlignedNodes(t.elts, e.elts);
    if es.Some? {
      var us;
      env, us := SureMetEach(t.elts, es.value);
      var items := GatheredYields(t.elts, e.elts, FromEnv(env), us);
      v := TupleOf(items);
      LiteralParts(t, e);
    } else {
      env := map[];
      var items := SomeValues(e.elts, env);
      LiteralItems(e.elts, FromEnv(env), items);
      v := TupleOf(items);
      AlignedYields(t.elts, e.elts, FromEnv(env), items);
    }
  }

  /** Storing `us` goes no further than it must. */
  ghost predicate AtLeastEach(ts: seq<Node>, es: seq<Node>, us: seq<Value>)
    requires |ts| == |es| == |us|
  {
    |WritesEach(ts, us).writes| == SureEach(ts, es) && WritesEach(ts, us).complete == MustEach(ts, es)
  }

  lemma {:induction false} SureMetEach(ts: seq<Node>, es: seq<Node>) returns (env: Env, us: seq<Value>)
    requires |ts| == |es|
    ensures YieldsAll(es, FromEnv(env), us) && AtLeastEach(ts, es, us)
    decreases ts
  {
    if ts == [] {
      env, us := map[], [];
    } else {
      var k := |ts| - 1;
      assert ts[k] in ts;
      var before, last;
      if MustEach(ts[..k], es[..k]) {
        env, last := SureMet(ts[k], es[k]);
        before := SomeValues(es[..k], env);
        SureLast(ts, es, FromEnv(env), before, last);
      } else {
        env, before := SureMetEach(ts[..k], es[..k]);
        last := SomeValue(es[k], env);
        SureBefore(ts, es, FromEnv(env), before, last);
      }
      us := before + [last];
    }
  }

  /** Everything before the last target completes, so the last one decides. */
  lemma SureLast(ts: seq<Node>, es: seq<Node>, r: Reads, before: seq<Value>, last: Value)
    requires |ts| == |es| > 0 && MustEach(ts[..|ts| - 1], es[..|ts| - 1])
    requires YieldsAll(es[..|ts| - 1], r, before) && Yields(es[|ts| - 1], r, last) && AtLeast(ts[|ts| - 1], es[|ts| - 1], last)
    ensures YieldsAll(es, r, before + [last]) && AtLeastEach(ts, es, before + [last])
  {
    EachSplits(ts, es);
    EachBounds(ts[..|ts| - 1], es[..|ts| - 1], r, before);
    JoinLast(ts, es, r, before, last);
  }

  /** The store fails before the last target. */
  lemma SureBefore(ts: seq<Node>, es: seq<Node>, r: Reads, before: seq<Value>, last: Value)
    requires |ts| == |es| > 0 && !MustEach(ts[..|ts| - 1], es[..|ts| - 1])
    requires YieldsAll(es[..|ts| - 1], r, before) && Yields(es[|ts| - 1], r, last)
    requires AtLeastEach(ts[..|ts| - 1], es[..|ts| - 1], before)
    ensures YieldsAll(es, r, before + [last]) && AtLeastEach(ts, es, before + [last])
  {
    EachSplits(ts, es);
    JoinLast(ts, es, r, before, last);
  }

  // ----- which writes arrive -----

  /** Write number `k` is made whatever happens, and no later one can hit its name. */
  ghost predicate Arrives(t: Node, e: Node, k: nat) {
    && k < Sure(t, e) && k < |Leaves(t)|
    && forall l | k < l < Most(t, e) && l < |Leaves(t)| :: Leaves(t)[l] != Leaves(t)[k]
  }

  /** Write number `k` was made and is the last to its name. */
  ghost predicate Stands(w: Trace, k: nat) {
    k < |w.writes| && forall l | k < l < |w.writes| :: w.writes[l].0 != w.writes[k].0
  }

  lemma ArrivedStands(t: Node, e: Node, r: Reads, v: Value, k: nat)
    requires Arrives(t, e, k) && Yields(e, r, v)
    ensures Stands(Writes(t, v), k)
  {
    Bounds(t, e, r, v);
    WritesFollow(t, v);
  }

  /** The syntactic check is exact: a write stands in every environment, whatever is chosen, if and
      only if no unpacking before it can fail and none of the later writes that can happen hits its
      name. */
  lemma ArrivesExactly(t: Node, e: Node, k: nat)
    ensures Arrives(t, e, k) <==> forall env, v | Yields(e, FromEnv(env), v) :: Stands(Writes(t, v), k)
  {
    if Arrives(t, e, k) {
      forall env, v | Yields(e, FromEnv(env), v) ensures Stands(Writes(t, v), k) {
        ArrivedStands(t, e, FromEnv(env), v, k);
      }
    } else {
      var env, v := Refutes(t, e, k);
      assert Yields(e, FromEnv(env), v) && !Stands(Writes(t, v), k);
    }
  }

  lemma Refutes(t: Node, e: Node, k: nat) returns (env: Env, v: Value)
    requires !Arrives(t, e, k)
    ensures Yields(e, FromEnv(env), v) && !Stands(Writes(t, v), k)
  {
    env, v := SureMet(t, e);
    WritesFollow(t, v);
    if k < Sure(t, e) {
      var l :| k < l < Most(t, e) && l < |Leaves(t)| && Leaves(t)[l] == Leaves(t)[k];
      BlankEnv();
      env := map[];
      v := MostMet(t, e, FromEnv(env));
      WritesFollow(t, v);
      assert Writes(t, v).writes[l].0 == Writes(t, v).writes[k].0;
    }
  }
}
