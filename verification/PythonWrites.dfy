/** Which import APIs an assignment can write to which names, told from its syntax. */
module PythonWrites {
  import opened Common
  import opened PythonSyntax
  import opened AliasAnalysis
  import opened PythonValues
  import opened PythonUnpacking

  /** Where a written API comes from: a name has it, it is a function of a module that a name has, or
      it stood in a tuple of which nothing is known. */
  datatype Source = Passed(name: string) | Called(name: string, attr: string) | Anything

  predicate Gives(e: Node, s: Source) {
    match s
    case Passed(z) => Passes(e, z)
    case Called(z, attr) => Calls(e, z, attr)
    case Anything => false
  }

  ghost predicate ComesVia(r: Reads, s: Source, w: Value) {
    && IsApi(w)
    && match s
       case Passed(z) => r(z, w)
       case Called(z, attr) => w.FunctionRef? && exists m :: r(z, ModuleRef(m)) && ApiFunctionNamed(m, attr) == Some(w.f)
       case Anything => true
  }

  /** Storing an arbitrary value, or an arbitrary tuple, in the target can write an API to the name.
      A starred name only ever gets a list. */
  predicate Receives(t: Node, id: string, tuple: bool)
    decreases t
  {
    if t.Name? then !tuple && t.id == id
    else if t.Starred? then Receives(t.value, id, tuple)
    else if t.Display? then exists i | 0 <= i < |t.elts| :: Receives(t.elts[i], id, i == StarAt(t.elts))
    else false
  }

  /** The value can be a tuple of which nothing is known. */
  predicate Unknown(e: Node) {
    e.Name? || (e.Display? && HasStar(e.elts)) || (e.Add? && MayBeTuple(e.left) && MayBeTuple(e.right))
  }

  /** The assignment can write to name `id` an API from source `s`. Targets after an unpacking that
      always fails get nothing. */
  predicate Sends(t: Node, e: Node, id: string, s: Source)
    decreases t, e
  {
    if t.Name? then t.id == id && Gives(e, s)
    else if t.Starred? then Sends(t.value, e, id, s)
    else if !t.Display? then false
    else if e.NamedExpr? then Sends(t, e.value, id, s)
    else if e.Choice? then Sends(t, e.left, id, s) || Sends(t, e.right, id, s)
    else if Literal(e) then
      var es := AlignedNodes(t.elts, e.elts);
      es.Some? && exists i | 0 <= i < |t.elts| ::
        Sends(t.elts[i], es.value[i], id, s) && forall j | 0 <= j < i :: CanComplete(t.elts[j], es.value[j])
    else s.Anything? && Unknown(e) && Receives(t, id, true)
  }

  // ----- every written API has such a source -----

  lemma GivenComesVia(e: Node, r: Reads, w: Value) returns (s: Source)
    requires Yields(e, r, w) && IsApi(w)
    ensures Gives(e, s) && ComesVia(r, s, w)
  {
    var z := ApiComesFrom(e, r, w);
    if Passes(e, z) && r(z, w) {
      s := Passed(z);
    } else {
      var m, attr :| Calls(e, z, attr) && r(z, ModuleRef(m)) && ApiFunctionNamed(m, attr) == Some(w.f);
      s := Called(z, attr);
    }
  }

  lemma GivenIsYielded(e: Node, r: Reads, s: Source, w: Value)
    requires Gives(e, s) && ComesVia(r, s, w)
    ensures Yields(e, r, w)
  {
    match s
    case Passed(z) => PassedIsYielded(e, z, r, w);
    case Called(z, attr) =>
      var m :| r(z, ModuleRef(m)) && ApiFunctionNamed(m, attr) == Some(w.f);
      CalledIsYielded(e, z, attr, r, m);
    case _ =>
  }

  /** One element made the write, and those before it ran to their end. */
  lemma {:induction false} WrittenByOne(ts: seq<Node>, us: seq<Value>, x: Write) returns (i: nat)
    requires |ts| == |us| && x in WritesEach(ts, us).writes
    ensures i < |ts| && x in Writes(ts[i], us[i]).writes && forall j | 0 <= j < i :: Writes(ts[j], us[j]).complete
    decreases |ts|
  {
    var k := |ts| - 1;
    var before := WritesEach(ts[..k], us[..k]);
    if x in before.writes {
      i := WrittenByOne(ts[..k], us[..k], x);
      forall j | 0 <= j < i ensures Writes(ts[j], us[j]).complete {
        assert Writes(ts[..k][j], us[..k][j]).complete;
      }
    } else {
      i := k;
      EachCompleted(ts[..k], us[..k]);
      forall j | 0 <= j < k ensures Writes(ts[j], us[j]).complete {
        assert Writes(ts[..k][j], us[..k][j]).complete;
      }
    }
  }

  lemma {:induction false} EachCompleted(ts: seq<Node>, us: seq<Value>)
    requires |ts| == |us|
    ensures WritesEach(ts, us).complete <==> forall j | 0 <= j < |ts| :: Writes(ts[j], us[j]).complete
    decreases |ts|
  {
    if ts != [] {
      var k := |ts| - 1;
      EachCompleted(ts[..k], us[..k]);
      assert (forall j | 0 <= j < k :: Writes(ts[..k][j], us[..k][j]).complete)
        <==> (forall j | 0 <= j < k :: Writes(ts[j], us[j]).complete);
    }
  }

  lemma {:induction false} OneIsWritten(ts: seq<Node>, us: seq<Value>, i: nat, x: Write)
    requires |ts| == |us| && i < |ts| && x in Writes(ts[i], us[i]).writes
    requires forall j | 0 <= j < i :: Writes(ts[j], us[j]).complete
    ensures x in WritesEach(ts, us).writes
    decreases |ts|
  {
    var k := |ts| - 1;
    if i == k {
      EachCompleted(ts[..k], us[..k]);
      assert forall j | 0 <= j < k :: Writes(ts[..k][j], us[..k][j]).complete;
    } else {
      OneIsWritten(ts[..k], us[..k], i, x);
    }
  }

  lemma {:induction false} OpaqueWritesNoApi(t: Node, x: Write)
    requires x in Writes(t, Opaque(true)).writes
    ensures x.1 == Opaque(true)
    decreases t
  {
    if t.Starred? {
      OpaqueWritesNoApi(t.value, x);
    } else if t.Display? {
      var i := WrittenByOne(t.elts, Opaques(|t.elts|), x);
      OpaqueWritesNoApi(t.elts[i], x);
    }
  }

  lemma {:induction false} ReceivesWrite(t: Node, v: Value, x: Write)
    requires x in Writes(t, v).writes && IsApi(x.1)
    ensures Receives(t, x.0, v.TupleOf?)
    decreases t
  {
    if t.Starred? {
      ReceivesWrite(t.value, v, x);
    } else if t.Display? {
      if v.Opaque? {
        OpaqueWritesNoApi(t, x);
      } else {
        var us := AlignedValues(t.elts, v.items).value;
        var i := WrittenByOne(t.elts, us, x);
        ReceivesWrite(t.elts[i], us[i], x);
        var s := StarAt(t.elts);
        if i == s {
          PackedAt(v.items, s, |v.items| + 1 - |t.elts|, y => TupleOf(y), s);
        } else if us[i].TupleOf? {
          ReceivesMore(t.elts[i], x.0);
        }
      }
    }
  }

  lemma {:induction false} ReceivesMore(t: Node, id: string)
    requires Receives(t, id, true)
    ensures Receives(t, id, false)
    decreases t
  {
    if t.Starred? {
      ReceivesMore(t.value, id);
    }
  }

  lemma {:induction false} WriteHasSource(t: Node, e: Node, r: Reads, v: Value, x: Write) returns (s: Source)
    requires Yields(e, r, v) && x in Writes(t, v).writes && IsApi(x.1)
    ensures Sends(t, e, x.0, s) && ComesVia(r, s, x.1)
    decreases t, e, 1
  {
    if t.Name? {
      s := GivenComesVia(e, r, v);
    } else if t.Starred? {
      s := WriteHasSource(t.value, e, r, v, x);
    } else if e.NamedExpr? {
      s := WriteHasSource(t, e.value, r, v, x);
    } else if e.Choice? {
      if Yields(e.left, r, v) {
        s := WriteHasSource(t, e.left, r, v, x);
      } else {
        s := WriteHasSource(t, e.right, r, v, x);
      }
    } else if Literal(e) {
      s := LiteralHasSource(t, e, r, v, x);
    } else {
      s := Anything;
      if v.Opaque? {
        OpaqueWritesNoApi(t, x);
      }
      ReceivesWrite(t, v, x);
      UnknownIsUnknown(e, r, v);
    }
  }

  lemma UnknownIsUnknown(e: Node, r: Reads, v: Value)
    requires Yields(e, r, v) && v.TupleOf? && !e.NamedExpr? && !e.Choice? && !Literal(e)
    ensures Unknown(e)
  {
  }

  lemma {:induction false} LiteralHasSource(t: Node, e: Node, r: Reads, v: Value, x: Write) returns (s: Source)
    requires t.Display? && Literal(e) && Yields(e, r, v) && x in Writes(t, v).writes && IsApi(x.1)
    ensures Sends(t, e, x.0, s) && ComesVia(r, s, x.1)
    decreases t, e, 0
  {
    AlignedYields(t.elts, e.elts, r, v.items);
    var us, es := AlignedValues(t.elts, v.items).value, AlignedNodes(t.elts, e.elts).value;
    var i := WrittenByOne(t.elts, us, x);
    s := WriteHasSource(t.elts[i], es[i], r, us[i], x);
    forall j | 0 <= j < i ensures CanComplete(t.elts[j], es[j]) {
      Bounds(t.elts[j], es[j], r, us[j]);
    }
  }

  // ----- every such source is written -----

  /** Nothing but the APIs is restricted. */
  ghost predicate Roomy(r: Reads) {
    forall id, v | !IsApi(v) :: r(id, v)
  }

  lemma {:induction false} ReceivedIsWritten(t: Node, id: string, tuple: bool, w: Value) returns (v: Value)
    requires Receives(t, id, tuple)
    ensures (id, w) in Writes(t, v).writes && (tuple || t.Display? ==> v.TupleOf?)
    decreases t
  {
    if t.Name? {
      v := w;
    } else if t.Starred? {
      v := ReceivedIsWritten(t.value, id, tuple, w);
    } else {
      var i :| 0 <= i < |t.elts| && Receives(t.elts[i], id, i == StarAt(t.elts));
      var u := ReceivedIsWritten(t.elts[i], id, i == StarAt(t.elts), w);
      var us := AroundFitting(t.elts, i, u);
      OneIsWritten(t.elts, us, i, (id, w));
      v := Gather(t.elts, us);
    }
  }

  lemma AroundFitting(ts: seq<Node>, i: nat, u: Value) returns (us: seq<Value>)
    requires i < |ts| && (i == StarAt(ts) ==> u.TupleOf?)
    ensures |us| == |ts| && us[i] == u && (StarAt(ts) < |ts| ==> us[StarAt(ts)].TupleOf?)
    ensures forall j | 0 <= j < i :: Writes(ts[j], us[j]).complete
  {
    var all := FittingItems(ts, StarAt(ts), |ts|);
    assert ts[..|ts|] == ts;
    EachCompleted(ts, all);
    us := all[i := u];
  }

  lemma {:induction false} SourceIsWritten(t: Node, e: Node, r: Reads, id: string, s: Source, w: Value) returns (v: Value)
    requires Roomy(r) && Sends(t, e, id, s) && ComesVia(r, s, w)
    ensures Yields(e, r, v) && (id, w) in Writes(t, v).writes
    decreases t, e, 1
  {
    if t.Name? {
      GivenIsYielded(e, r, s, w);
      v := w;
    } else if t.Starred? {
      v := SourceIsWritten(t.value, e, r, id, s, w);
    } else if e.NamedExpr? {
      v := SourceIsWritten(t, e.value, r, id, s, w);
    } else if e.Choice? {
      if Sends(t, e.left, id, s) {
        v := SourceIsWritten(t, e.left, r, id, s, w);
      } else {
        v := SourceIsWritten(t, e.right, r, id, s, w);
      }
    } else if Literal(e) {
      v := LiteralIsWritten(t, e, r, id, s, w);
    } else {
      v := ReceivedIsWritten(t, id, true, w);
    }
  }

  lemma {:induction false} LiteralIsWritten(t: Node, e: Node, r: Reads, id: string, s: Source, w: Value) returns (v: Value)
    requires Roomy(r) && t.Display? && Literal(e) && Sends(t, e, id, s) && ComesVia(r, s, w)
    ensures Yields(e, r, v) && (id, w) in Writes(t, v).writes
    decreases t, e, 0
  {
    var ts, es := t.elts, AlignedNodes(t.elts, e.elts).value;
    var i :| 0 <= i < |ts| && Sends(ts[i], es[i], id, s) && forall j | 0 <= j < i :: CanComplete(ts[j], es[j]);
    var u := SourceIsWritten(ts[i], es[i], r, id, s, w);
    var us := AroundCompleting(ts, es, r, i, u);
    OneIsWritten(ts, us, i, (id, w));
    var items := GatheredYields(ts, e.elts, r, us);
    v := TupleOf(items);
  }

  lemma AroundCompleting(ts: seq<Node>, es: seq<Node>, r: Reads, i: nat, u: Value) returns (us: seq<Value>)
    requires Roomy(r) && |ts| == |es| && i < |ts| && Yields(es[i], r, u)
    requires forall j | 0 <= j < i :: CanComplete(ts[j], es[j])
    ensures YieldsAll(es, r, us) && us[i] == u && forall j | 0 <= j < i :: Writes(ts[j], us[j]).complete
  {
    var before := MostMetEach(ts[..i], es[..i], r);
    EachCompleted(ts[..i], before);
    var after := SomeBlankValues(es[i + 1..], r);
    us := before + [u] + after;
    forall j | 0 <= j < |es| ensures Yields(es[j], r, us[j]) {
      if j < i {
        assert es[..i][j] == es[j];
      } else if j > i {
        assert es[i + 1..][j - i - 1] == es[j];
      }
    }
    forall j | 0 <= j < i ensures Writes(ts[j], us[j]).complete {
      assert Writes(ts[..i][j], before[j]).complete;
    }
  }
}
