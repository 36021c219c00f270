/** What the expressions and assignments of an analyzed file do at run time, as far as the import
    APIs are concerned.

    Names, module attributes, tuple and list literals, `:=`, conditional expressions, `and` and `or`
    have their Python meaning. A literal with a starred element and a sum of possible tuples may be
    any tuple. Calls, subscripts, constants and all other expressions yield values that are no import API
    and that may or may not be unpacked. */
module PythonValues {
  import opened Common
  import opened PythonSyntax
  import opened AliasAnalysis

  datatype Value =
    | ModuleRef(m: ApiModule)
    | FunctionRef(f: ApiFunction)
    | TupleOf(items: seq<Value>)
    | Opaque(spreads: bool)  // unpacks into as many such values as are asked for, or refuses to

  predicate IsApi(v: Value) {
    v.ModuleRef? || v.FunctionRef?
  }

  // ----- evaluation -----

  /** Which values reading a name can give: those of one environment, of several, or all that
      alias tables allow. */
  type Reads = (string, Value) -> bool

  type Env = map<string, Value>

  function Read(env: Env, id: string): Value {
    if id in env then env[id] else Opaque(true)
  }

  function FromEnv(env: Env): Reads {
    (id, v) => v == Read(env, id)
  }

  /** Attribute `attr` of `u` can be `v`. */
  predicate IsMember(u: Value, attr: string, v: Value) {
    if u.ModuleRef? && ApiFunctionNamed(u.m, attr).Some?
    then v == FunctionRef(ApiFunctionNamed(u.m, attr).value)
    else v.Opaque?
  }

  function Member(u: Value, attr: string): (v: Value)
    ensures IsMember(u, attr, v)
  {
    if u.ModuleRef? && ApiFunctionNamed(u.m, attr).Some?
    then FunctionRef(ApiFunctionNamed(u.m, attr).value)
    else Opaque(false)
  }

  predicate HasStar(elts: seq<Node>) {
    exists i | 0 <= i < |elts| :: elts[i].Starred?
  }

  predicate MayBeTuple(e: Node) {
    match e
    case Name(_) => true
    case Display(_) => true
    case NamedExpr(_, value) => MayBeTuple(value)
    case Choice(_, left, right) => MayBeTuple(left) || MayBeTuple(right)
    case Add(left, right) => MayBeTuple(left) && MayBeTuple(right)
    case _ => false
  }

  ghost predicate Yields(e: Node, r: Reads, v: Value) {
    match e
    case Name(id) => r(id, v)
    case Attribute(value, attr) => exists u :: Yields(value, r, u) && IsMember(u, attr, v)
    case Display(elts) =>
      && v.TupleOf?
      && (HasStar(elts) || (|v.items| == |elts| && forall i | 0 <= i < |elts| :: Yields(elts[i], r, v.items[i])))
    case NamedExpr(_, value) => Yields(value, r, v)
    case Choice(_, left, right) => Yields(left, r, v) || Yields(right, r, v)
    case Add(left, right) => v.Opaque? || (v.TupleOf? && MayBeTuple(left) && MayBeTuple(right))
    case _ => v.Opaque?
  }

  ghost predicate YieldsAll(es: seq<Node>, r: Reads, vs: seq<Value>) {
    |es| == |vs| && forall i | 0 <= i < |es| :: Yields(es[i], r, vs[i])
  }

  /** Whoever can read more can get more. */
  lemma {:induction false} YieldsMore(e: Node, r: Reads, more: Reads, v: Value)
    requires Yields(e, r, v) && forall id, u | r(id, u) :: more(id, u)
    ensures Yields(e, more, v)
  {
    match e
    case Attribute(value, attr) =>
      var u :| Yields(value, r, u) && IsMember(u, attr, v);
      YieldsMore(value, r, more, u);
    case Display(elts) =>
      if !HasStar(elts) {
        forall i | 0 <= i < |elts| ensures Yields(elts[i], more, v.items[i]) {
          assert elts[i] in elts;
          YieldsMore(elts[i], r, more, v.items[i]);
        }
      }
    case NamedExpr(_, value) => YieldsMore(value, r, more, v);
    case Choice(_, left, right) =>
      if Yields(left, r, v) {
        YieldsMore(left, r, more, v);
      } else {
        YieldsMore(right, r, more, v);
      }
    case _ =>
  }

  /** Every expression has a value in every environment. */
  lemma {:induction false} SomeValue(e: Node, env: Env) returns (v: Value)
    ensures Yields(e, FromEnv(env), v)
    decreases e, 1
  {
    match e
    case Name(id) => v := Read(env, id);
    case Attribute(value, attr) =>
      var u := SomeValue(value, env);
      v := Member(u, attr);
    case Display(elts) =>
      var items := SomeValues(elts, env);
      v := TupleOf(items);
    case NamedExpr(_, value) => v := SomeValue(value, env);
    case Choice(_, left, _) => v := SomeValue(left, env);
    case _ => v := Opaque(false);
  }

  lemma {:induction false} SomeValues(es: seq<Node>, env: Env) returns (vs: seq<Value>)
    ensures YieldsAll(es, FromEnv(env), vs)
    decreases es, 0
  {
    if es == [] {
      vs := [];
    } else {
      var k := |es| - 1;
      assert es[k] in es;
      var before := SomeValues(es[..k], env);
      var v := SomeValue(es[k], env);
      vs := before + [v];
    }
  }

  // ----- unpacking -----

  /** The first starred position at or after `from`, or the length. */
  function StarFrom(ts: seq<Node>, from: nat): (s: nat)
    requires from <= |ts|
    ensures from <= s <= |ts| && (s < |ts| ==> ts[s].Starred?)
    decreases |ts| - from
  {
    if from == |ts| || ts[from].Starred? then from else StarFrom(ts, from + 1)
  }

  function StarAt(ts: seq<Node>): (s: nat)
    ensures s <= |ts| && (s < |ts| ==> ts[s].Starred?)
  {
    StarFrom(ts, 0)
  }

  /** The `k` items from position `s` on as one. */
  function Packed<T>(xs: seq<T>, s: nat, k: nat, pack: seq<T> -> T): seq<T>
    requires s + k <= |xs|
  {
    xs[..s] + [pack(xs[s..s + k])] + xs[s + k..]
  }

  lemma PackedAt<T>(xs: seq<T>, s: nat, k: nat, pack: seq<T> -> T, j: nat)
    requires s + k <= |xs| && j <= |xs| - k
    ensures |Packed(xs, s, k, pack)| == |xs| + 1 - k
    ensures Packed(xs, s, k, pack)[j] == if j < s then xs[j] else if j == s then pack(xs[s..s + k]) else xs[j + k - 1]
  {
  }

  function Unpack<T>(us: seq<T>, s: nat, middle: seq<T>): seq<T>
    requires s < |us|
  {
    us[..s] + middle + us[s + 1..]
  }

  lemma UnpackAt<T>(us: seq<T>, s: nat, middle: seq<T>, i: nat)
    requires s < |us| && i + 1 < |us| + |middle|
    ensures |Unpack(us, s, middle)| == |us| + |middle| - 1
    ensures Unpack(us, s, middle)[i]
         == if i < s then us[i] else if i < s + |middle| then middle[i - s] else us[i + 1 - |middle|]
  {
  }

  lemma PackedUnpack<T>(us: seq<T>, s: nat, middle: seq<T>, pack: seq<T> -> T)
    requires s < |us| && us[s] == pack(middle)
    ensures |Unpack(us, s, middle)| == |us| + |middle| - 1
    ensures Packed(Unpack(us, s, middle), s, |middle|, pack) == us
  {
    var xs := Unpack(us, s, middle);
    assert xs[..s] == us[..s] && xs[s..s + |middle|] == middle && xs[s + |middle|..] == us[s + 1..];
    assert us == us[..s] + [us[s]] + us[s + 1..];
  }

  /** One item for each target, if the numbers agree; a starred target gets a pack of what the
      others leave. */
  function Aligned<T>(ts: seq<Node>, xs: seq<T>, pack: seq<T> -> T): (r: Option<seq<T>>)
    ensures r.Some? ==> |r.value| == |ts|
  {
    var s := StarAt(ts);
    if s == |ts| then if |xs| == |ts| then Some(xs) else None
    else if |xs| + 1 < |ts| then None
    else Some(Packed(xs, s, |xs| + 1 - |ts|, pack))
  }

  function AlignedValues(ts: seq<Node>, items: seq<Value>): (r: Option<seq<Value>>)
    ensures r.Some? ==> |r.value| == |ts|
  {
    Aligned(ts, items, x => TupleOf(x))
  }

  function AlignedNodes(ts: seq<Node>, vs: seq<Node>): (r: Option<seq<Node>>)
    ensures r.Some? ==> |r.value| == |ts|
  {
    Aligned(ts, vs, x => Display(x))
  }

  function Opaques(n: nat): seq<Value> {
    seq(n, _ => Opaque(true))
  }

  function Unpacked(ts: seq<Node>, v: Value): (r: Option<seq<Value>>)
    ensures r.Some? ==> |r.value| == |ts|
  {
    match v
    case Opaque(spreads) => if spreads then Some(Opaques(|ts|)) else None
    case TupleOf(items) => AlignedValues(ts, items)
    case _ => None
  }

  type Write = (string, Value)

  /** The writes to names that storing a value makes, in order, and whether it ran to its end. A
      failed unpacking keeps the writes made before it. */
  datatype Trace = Trace(writes: seq<Write>, complete: bool)

  function Writes(t: Node, v: Value): Trace
    decreases t, 1
  {
    if t.Name? then Trace([(t.id, v)], true)
    else if t.Starred? then Writes(t.value, v)
    else if t.Display? then
      var vs := Unpacked(t.elts, v);
      if vs.Some? then WritesEach(t.elts, vs.value) else Trace([], false)
    else Trace([], true)
  }

  function WritesEach(ts: seq<Node>, vs: seq<Value>): Trace
    requires |ts| == |vs|
    decreases ts, 0
  {
    if ts == [] then Trace([], true)
    else
      var k := |ts| - 1;
      var before := WritesEach(ts[..k], vs[..k]);
      assert ts[k] in ts;
      if before.complete then
        var last := Writes(ts[k], vs[k]);
        Trace(before.writes + last.writes, last.complete)
      else before
  }

  /** The names of a target, in the order they are written. */
  function Leaves(t: Node): seq<string>
    decreases t, 1
  {
    if t.Name? then [t.id]
    else if t.Starred? then Leaves(t.value)
    else if t.Display? then LeavesEach(t.elts)
    else []
  }

  function LeavesEach(ts: seq<Node>): seq<string>
    decreases ts, 0
  {
    if ts == [] then []
    else
      assert ts[|ts| - 1] in ts;
      LeavesEach(ts[..|ts| - 1]) + Leaves(ts[|ts| - 1])
  }

  /** The writes follow the names of the target. */
  ghost predicate Follows(t: Trace, names: seq<string>) {
    && |t.writes| <= |names| && (t.complete ==> |t.writes| == |names|)
    && forall k | 0 <= k < |t.writes| :: t.writes[k].0 == names[k]
  }

  lemma FollowsJoined(a: Trace, b: Trace, m: seq<string>, n: seq<string>)
    requires Follows(a, m) && a.complete && Follows(b, n)
    ensures Follows(Trace(a.writes + b.writes, b.complete), m + n)
  {
  }

  lemma FollowsLonger(a: Trace, m: seq<string>, n: seq<string>)
    requires Follows(a, m) && !a.complete
    ensures Follows(a, m + n)
  {
  }

  lemma {:induction false} WritesFollow(t: Node, v: Value)
    ensures Follows(Writes(t, v), Leaves(t))
    decreases t, 1
  {
    match t
    case Starred(inner) => WritesFollow(inner, v);
    case Display(ts) =>
      if Unpacked(ts, v).Some? {
        WritesEachFollow(ts, Unpacked(ts, v).value);
      }
    case _ =>
  }

  lemma {:induction false} WritesEachFollow(ts: seq<Node>, vs: seq<Value>)
    requires |ts| == |vs|
    ensures Follows(WritesEach(ts, vs), LeavesEach(ts))
    decreases ts, 0
  {
    if ts != [] {
      var k := |ts| - 1;
      assert ts[k] in ts;
      var before := WritesEach(ts[..k], vs[..k]);
      WritesEachFollow(ts[..k], vs[..k]);
      if before.complete {
        WritesFollow(ts[k], vs[k]);
        FollowsJoined(before, Writes(ts[k], vs[k]), LeavesEach(ts[..k]), Leaves(ts[k]));
      } else {
        FollowsLonger(before, LeavesEach(ts[..k]), Leaves(ts[k]));
      }
    }
  }

  // ----- literals are unpacked element by element -----

  /** The items of a literal's value, dealt to the targets, are values of the dealt elements. */
  lemma AlignedYields(ts: seq<Node>, vs: seq<Node>, r: Reads, items: seq<Value>)
    requires !HasStar(vs) && Yields(Display(vs), r, TupleOf(items))
    ensures AlignedNodes(ts, vs).Some? <==> AlignedValues(ts, items).Some?
    ensures AlignedNodes(ts, vs).Some? ==> YieldsAll(AlignedNodes(ts, vs).value, r, AlignedValues(ts, items).value)
  {
    LiteralItems(vs, r, items);
    if StarAt(ts) < |ts| && |vs| + 1 >= |ts| {
      PackedYields(vs, r, items, StarAt(ts), |vs| + 1 - |ts|);
    }
  }

  lemma LiteralItems(vs: seq<Node>, r: Reads, items: seq<Value>)
    requires !HasStar(vs)
    ensures Yields(Display(vs), r, TupleOf(items)) <==> YieldsAll(vs, r, items)
  {
  }

  lemma PackedYields(vs: seq<Node>, r: Reads, items: seq<Value>, s: nat, k: nat)
    requires !HasStar(vs) && YieldsAll(vs, r, items) && s + k <= |vs|
    ensures |items| == |vs| && YieldsAll(Packed(vs, s, k, x => Display(x)), r, Packed(items, s, k, x => TupleOf(x)))
  {
    var es, us := Packed(vs, s, k, x => Display(x)), Packed(items, s, k, x => TupleOf(x));
    forall j | 0 <= j < |es| ensures |us| == |es| && Yields(es[j], r, us[j]) {
      PackedAt(vs, s, k, x => Display(x), j);
      PackedAt(items, s, k, x => TupleOf(x), j);
      MiddleYields(vs, r, items, s, k);
    }
  }

  lemma MiddleYields(vs: seq<Node>, r: Reads, items: seq<Value>, s: nat, k: nat)
    requires !HasStar(vs) && YieldsAll(vs, r, items) && s + k <= |vs|
    ensures |items| == |vs| && Yields(Display(vs[s..s + k]), r, TupleOf(items[s..s + k]))
  {
    assert !HasStar(vs[s..s + k]);
  }

  /** Any values of the dealt elements come from some value of the literal. */
  lemma GatheredYields(ts: seq<Node>, vs: seq<Node>, r: Reads, us: seq<Value>) returns (items: seq<Value>)
    requires !HasStar(vs) && AlignedNodes(ts, vs).Some? && YieldsAll(AlignedNodes(ts, vs).value, r, us)
    ensures Yields(Display(vs), r, TupleOf(items))
    ensures AlignedValues(ts, items) == Some(us)
  {
    var s := StarAt(ts);
    if s == |ts| {
      items := us;
    } else {
      var k := |vs| + 1 - |ts|;
      PackedAt(vs, s, k, x => Display(x), s);
      var es := AlignedNodes(ts, vs).value;
      assert Yields(es[s], r, us[s]) && !HasStar(vs[s..s + k]);
      items := Unpack(us, s, us[s].items);
      PackedUnpack(us, s, us[s].items, x => TupleOf(x));
      UnpackYields(vs, r, us, s, k);
    }
  }

  lemma UnpackYields(vs: seq<Node>, r: Reads, us: seq<Value>, s: nat, k: nat)
    requires !HasStar(vs) && s + k <= |vs| && YieldsAll(Packed(vs, s, k, x => Display(x)), r, us)
    requires s < |us| && us[s].TupleOf? && |us[s].items| == k
    ensures Yields(Display(vs), r, TupleOf(Unpack(us, s, us[s].items)))
  {
    var items, es := Unpack(us, s, us[s].items), Packed(vs, s, k, x => Display(x));
    forall i | 0 <= i < |vs| ensures |items| == |vs| && Yields(vs[i], r, items[i]) {
      UnpackAt(us, s, us[s].items, i);
      var j := if i < s then i else if i < s + k then s else i + 1 - k;
      PackedAt(vs, s, k, x => Display(x), j);
      assert Yields(es[j], r, us[j]);
      if s <= i < s + k {
        MiddleItem(vs, r, us[s], s, k, i);
      }
    }
    if |vs| == 0 {
      UnpackAt0(us, s, us[s].items);
    }
  }

  lemma UnpackAt0<T>(us: seq<T>, s: nat, middle: seq<T>)
    requires s < |us|
    ensures |Unpack(us, s, middle)| == |us| + |middle| - 1
  {
  }

  lemma MiddleItem(vs: seq<Node>, r: Reads, u: Value, s: nat, k: nat, i: nat)
    requires !HasStar(vs) && s + k <= |vs| && s <= i < s + k && Yields(Display(vs[s..s + k]), r, u)
    ensures u.TupleOf? && |u.items| == k && Yields(vs[i], r, u.items[i - s])
  {
    assert !HasStar(vs[s..s + k]);
    assert vs[s..s + k][i - s] == vs[i];
  }
}
