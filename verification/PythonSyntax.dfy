/** The Python syntax nodes the import analyzer looks at, and the breadth-first walk
    (`ast.walk`) it visits them with. Every other node kind is `Other`. */
module PythonSyntax {
  import opened Common

  /** One name of an import statement: `name` or `name as asname`. */
  datatype Alias = Alias(name: string, asname: Option<string>) {
    function Bound(): string {
      if asname.Some? then asname.value else name
    }
  }

  /** A keyword argument; `arg` is absent for `**mapping`. */
  datatype Keyword = Keyword(arg: Option<string>, actual: Node)

  datatype Node =
    | Import(names: seq<Alias>)
    | ImportFrom(level: nat, origin: Option<string>, names: seq<Alias>)
    | Assign(targets: seq<Node>, value: Node)
    | AnnAssign(target: Node, annotation: Node, init: Option<Node>)
    | NamedExpr(target: Node, value: Node)
    | Call(func: Node, args: seq<Node>, keywords: seq<Keyword>)
    | Name(id: string)
    | Attribute(value: Node, attr: string)
    | Display(elts: seq<Node>)  // a list or tuple literal, or such a target
    | Starred(value: Node)
    | Str(text: string)
    | Add(left: Node, right: Node)
    | Choice(test: Option<Node>, left: Node, right: Node)  // `left if test else right`, `left and right`, `left or right`
    | Other(parts: seq<Node>)

  function KeywordValues(keywords: seq<Keyword>): (r: seq<Node>)
    ensures |r| == |keywords|
    ensures forall i | 0 <= i < |r| :: r[i] == keywords[i].actual
  {
    seq(|keywords|, i requires 0 <= i < |keywords| => keywords[i].actual)
  }

  /** The direct sub-nodes, in field order. */
  function Children(n: Node): seq<Node> {
    match n
    case Import(_) => []
    case ImportFrom(_, _, _) => []
    case Assign(targets, value) => targets + [value]
    case AnnAssign(target, annotation, init) =>
      [target, annotation] + (if init.Some? then [init.value] else [])
    case NamedExpr(target, value) => [target, value]
    case Call(func, args, keywords) => [func] + args + KeywordValues(keywords)
    case Name(_) => []
    case Attribute(value, _) => [value]
    case Display(elts) => elts
    case Starred(value) => [value]
    case Str(_) => []
    case Add(left, right) => [left, right]
    case Choice(test, left, right) => (if test.Some? then [test.value] else []) + [left, right]
    case Other(parts) => parts
  }

  lemma ChildrenAreSmaller(n: Node)
    ensures forall c | c in Children(n) :: (n decreases to c)
    ensures forall i | 0 <= i < |Children(n)| :: (n decreases to Children(n)[i])
  {
    forall c | c in Children(n) ensures (n decreases to c) {
      ChildIsSmaller(n, c);
    }
    forall i | 0 <= i < |Children(n)| ensures (n decreases to Children(n)[i]) {
      ChildIsSmaller(n, Children(n)[i]);
    }
  }

  lemma ChildIsSmaller(n: Node, c: Node)
    requires c in Children(n)
    ensures n decreases to c
  {
    if n.Call? {
      if i :| 0 <= i < |n.keywords| && c == n.keywords[i].actual {
        assert n.keywords[i] in n.keywords;
      }
    }
  }

  /** Reference: all nodes of a tree, by structural recursion. */
  ghost function Nodes(n: Node): set<Node> {
    ChildrenAreSmaller(n);
    {n} + (set c, m | c in Children(n) && m in Nodes(c) :: m)
  }

  ghost function NodesOf(forest: seq<Node>): set<Node> {
    set t, m | t in forest && m in Nodes(t) :: m
  }

  ghost function Size(n: Node): nat
    decreases n, 1, 0
  {
    ChildrenAreSmaller(n);
    1 + SizeOf(n, Children(n))
  }

  ghost function SizeOf(parent: Node, forest: seq<Node>): nat
    requires forall i | 0 <= i < |forest| :: (parent decreases to forest[i])
    decreases parent, 0, |forest|
  {
    if forest == [] then 0 else Size(forest[0]) + SizeOf(parent, forest[1..])
  }

  ghost function Weight(forest: seq<Node>): nat {
    if forest == [] then 0 else Size(forest[0]) + Weight(forest[1..])
  }

  lemma {:induction false} SizeOfIsWeight(parent: Node, forest: seq<Node>)
    requires forall i | 0 <= i < |forest| :: (parent decreases to forest[i])
    ensures SizeOf(parent, forest) == Weight(forest)
    decreases |forest|
  {
    if forest != [] {
      SizeOfIsWeight(parent, forest[1..]);
    }
  }

  lemma {:induction false} WeightOfConcat(a: seq<Node>, b: seq<Node>)
    ensures Weight(a + b) == Weight(a) + Weight(b)
  {
    if a == [] {
      assert a + b == b;
    } else {
      assert (a + b)[1..] == a[1..] + b;
      WeightOfConcat(a[1..], b);
    }
  }

  /** Replacing the front of the queue by its children makes the queue lighter. */
  lemma QueueShrinks(queue: seq<Node>)
    requires queue != []
    ensures Weight(queue[1..] + Children(queue[0])) < Weight(queue)
  {
    ChildrenAreSmaller(queue[0]);
    SizeOfIsWeight(queue[0], Children(queue[0]));
    WeightOfConcat(queue[1..], Children(queue[0]));
  }

  /** The walk: take the front node, append its children to the queue, yield it. */
  method Walk(root: Node) returns (visited: seq<Node>)
    ensures forall n :: n in visited <==> n in Nodes(root)
  {
    visited := [];
    var queue := [root];
    while queue != []
      invariant forall n :: n in Nodes(root) <==> n in visited || n in NodesOf(queue)
      decreases Weight(queue)
    {
      QueueShrinks(queue);
      QueueNodes(queue);
      var node := queue[0];
      queue := queue[1..] + Children(node);
      visited := visited + [node];
    }
  }

  lemma QueueNodes(queue: seq<Node>)
    requires queue != []
    ensures NodesOf(queue) == {queue[0]} + NodesOf(queue[1..] + Children(queue[0]))
  {
    var n, rest := queue[0], queue[1..] + Children(queue[0]);
    assert n in Nodes(n) && n in queue;
    forall m ensures m in NodesOf(queue) <==> m == n || m in NodesOf(rest) {
      if m in NodesOf(queue) && m != n {
        var t :| t in queue && m in Nodes(t);
        if t == n {
          var c :| c in Children(n) && m in Nodes(c);
          assert c in rest;
        } else {
          assert t in rest;
        }
      }
      if m in NodesOf(rest) {
        var t :| t in rest && m in Nodes(t);
        assert t in queue[1..] || t in Children(n);
        assert t in Children(n) ==> m in Nodes(n);
      }
    }
  }
}
