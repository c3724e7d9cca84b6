/** The trigger graph of an expression: how it is built from the binary tree, and the
    propagation of `trigger` through it. Nodes are referred to by their composed names,
    which identify them (`TriggerExpr.ComposedNameInjective`). `None` stands for a
    `log.Fatalf` or a nil dereference. */
module TriggerGraph {
  import opened TriggerExpr
  import opened Parser

  datatype Kind = Literal | AndNode | OrNode

  datatype TriggerNode = TriggerNode(kind: Kind, predecessors: seq<string>, successors: seq<string>)

  type Nodes = map<string, TriggerNode>

  // ----- Structure -----

  /** The node whose completion completes `e`. */
  function SinkName(e: Expr): string {
    if e.Bin? && e.op.Seq? then SinkName(e.right) else ComposedName(e)
  }

  /** The literals that can fire first. */
  function SourceNames(e: Expr): seq<string> {
    match e
    case Lit(n) => [n]
    case Bin(op, l, r) => if op.Seq? then SourceNames(l) else SourceNames(l) + SourceNames(r)
  }

  function NodeNames(e: Expr): set<string> {
    match e
    case Lit(n) => {n}
    case Bin(op, l, r) => NodeNames(l) + NodeNames(r) + if op.Seq? then {} else {ComposedName(e)}
  }

  function AddSuccessors(nodes: Nodes, n: string, names: seq<string>): (r: Nodes)
    requires n in nodes
    ensures r.Keys == nodes.Keys
  {
    nodes[n := nodes[n].(successors := nodes[n].successors + names)]
  }

  function AddPredecessor(nodes: Nodes, n: string, p: string): (r: Nodes)
    requires n in nodes
    ensures r.Keys == nodes.Keys
  {
    nodes[n := nodes[n].(predecessors := nodes[n].predecessors + [p])]
  }

  function AddPredecessors(nodes: Nodes, names: seq<string>, p: string): (r: Nodes)
    requires forall n :: n in names ==> n in nodes
    ensures r.Keys == nodes.Keys
    decreases |names|
  {
    if names == [] then nodes else AddPredecessors(AddPredecessor(nodes, names[0], p), names[1..], p)
  }

  function OpKind(op: Op): Kind
    requires !op.Seq?
  {
    if op.And? then AndNode else OrNode
  }

  lemma {:induction false} EndpointsAreNodes(e: Expr)
    ensures SinkName(e) in NodeNames(e)
    ensures forall n :: n in SourceNames(e) ==> n in NodeNames(e)
  {
    if e.Bin? {
      EndpointsAreNodes(e.left);
      EndpointsAreNodes(e.right);
    }
  }

  function SequenceLinked(nodes: Nodes, sink: string, sources: seq<string>): (r: Nodes)
    requires sink in nodes && forall n :: n in sources ==> n in nodes
    ensures r.Keys == nodes.Keys
  {
    AddPredecessors(AddSuccessors(nodes, sink, sources), sources, sink)
  }

  function CompositeLinked(nodes: Nodes, kind: Kind, name: string, sinkL: string, sinkR: string): (r: Nodes)
    requires sinkL in nodes && sinkR in nodes
    ensures r.Keys == nodes.Keys + {name}
  {
    AddSuccessors(AddSuccessors(nodes, sinkL, [name]), sinkR, [name])[name := TriggerNode(kind, [sinkL, sinkR], [])]
  }

  /** The node table of `e` standing alone. */
  function Compile(e: Expr): (g: Nodes)
    ensures g.Keys == NodeNames(e)
  {
    match e
    case Lit(n) => map[n := TriggerNode(Literal, [], [])]
    case Bin(op, l, r) =>
      EndpointsAreNodes(l); EndpointsAreNodes(r);
      var both := Compile(l) + Compile(r);
      if op.Seq? then SequenceLinked(both, SinkName(l), SourceNames(r))
      else CompositeLinked(both, OpKind(op), ComposedName(e), SinkName(l), SinkName(r))
  }

  // ----- Propagation -----

  datatype Progress = Progress(toSatisfy: set<string>, satisfied: set<string>)

  function Enable(s: Progress, names: set<string>): Progress {
    s.(toSatisfy := s.toSatisfy + names)
  }

  function MarkSatisfied(s: Progress, n: string): Progress {
    Progress(s.toSatisfy - {n}, s.satisfied + {n})
  }

  predicate AllSatisfied(names: seq<string>, s: Progress) {
    forall n :: n in names ==> n in s.satisfied
  }

  /** `trigger` (literal) and `triggerOrAnd` (composite). Terminates on every graph: each
      recursive call satisfies one more node. */
  function Fire(g: Nodes, n: string, literal: bool, s: Progress): (r: Option<Progress>)
    ensures r.Some? ==> s.satisfied <= r.value.satisfied
    decreases g.Keys - s.satisfied, 0
  {
    if n !in s.toSatisfy || n in s.satisfied || n !in g || g[n].kind.Literal? != literal then None
    else
      assert n in g.Keys - s.satisfied && n !in g.Keys - MarkSatisfied(s, n).satisfied;
      Notify(g, g[n].successors, MarkSatisfied(s, n))
  }

  /** The loop over the successors of a node that has just been satisfied. */
  function Notify(g: Nodes, successors: seq<string>, s: Progress): (r: Option<Progress>)
    ensures r.Some? ==> s.satisfied <= r.value.satisfied
    decreases g.Keys - s.satisfied, |successors| + 1
  {
    if successors == [] then Some(s)
    else
      match NotifyOne(g, successors[0], s)
      case None => None
      case Some(t) =>
        assert g.Keys - t.satisfied <= g.Keys - s.satisfied;
        assert g.Keys - t.satisfied == g.Keys - s.satisfied || g.Keys - t.satisfied < g.Keys - s.satisfied;
        Notify(g, successors[1..], t)
  }

  function NotifyOne(g: Nodes, m: string, s: Progress): (r: Option<Progress>)
    ensures r.Some? ==> s.satisfied <= r.value.satisfied
    decreases g.Keys - s.satisfied, 1
  {
    if m !in g then None
    else if g[m].kind.OrNode? || (g[m].kind.AndNode? && AllSatisfied(g[m].predecessors, s)) then
      Fire(g, m, false, Enable(s, {m}))
    else Some(Enable(s, {m}))
  }

  class Graph {
    var sources: seq<string>
    var sink: string
    var allNodes: Nodes
    var toSatisfy: set<string>
    var satisfied: set<string>

    function State(): Progress
      reads this
    {
      Progress(toSatisfy, satisfied)
    }

    constructor ()
      ensures sources == [] && sink == "" && allNodes == map[] && toSatisfy == {} && satisfied == {}
    {
      sources, sink, allNodes := [], "", map[];
      toSatisfy, satisfied := {}, {};
    }

    /** Adds the nodes of the tree to `allNodes`, returning its sources and its sink; false stands for the nil
        dereference of an operator without operands. For the tree of a well-formed expression `e` these are its own nodes. */
    method BinaryTreeToTriggerNode(node: TreeNode, ghost e: Expr) returns (ok: bool, srcs: seq<string>, snk: string)
      modifies `allNodes
      ensures ok ==> old(allNodes).Keys <= allNodes.Keys && snk in allNodes && forall n :: n in srcs ==> n in allNodes
      ensures Fits(node, e, old(allNodes)) ==>
                ok && allNodes == old(allNodes) + Compile(e) && srcs == SourceNames(e) && snk == SinkName(e)
      decreases node
    {
      ghost var before := allNodes;
      if node.Nil? {
        return false, [], "";
      }
      if node.name != ";" && node.name != "&" && node.name != "|" {
        allNodes := allNodes[node.composedName := TriggerNode(Literal, [], [])];
        LiteralFits(node, e, before);
        return true, [node.composedName], node.composedName;
      }
      OperatorFits(node, e, before);
      ghost var l, r := if e.Bin? then e.left else e, if e.Bin? then e.right else e;
      var okLeft, sourcesOfLeft, sinkOfLeft := BinaryTreeToTriggerNode(node.left, l);
      if !okLeft {
        return false, [], "";
      }
      var okRight, sourcesOfRight, sinkOfRight := BinaryTreeToTriggerNode(node.right, r);
      if !okRight {
        return false, [], "";
      }
      if Fits(node, e, before) {
        CompileFrame(e, before, allNodes);
      }
      ok := true;
      if node.name == ";" {
        LinkSequence(sinkOfLeft, sourcesOfRight);
        srcs, snk := sourcesOfLeft, sinkOfRight;
      } else {
        LinkComposite(if node.name == "&" then AndNode else OrNode, node.composedName, sinkOfLeft, sinkOfRight);
        srcs, snk := sourcesOfLeft + sourcesOfRight, node.composedName;
      }
    }

    /** Case `;`: the left sink precedes every source of the right. */
    method LinkSequence(sinkOfLeft: string, sourcesOfRight: seq<string>)
      requires sinkOfLeft in allNodes && forall n :: n in sourcesOfRight ==> n in allNodes
      modifies `allNodes
      ensures allNodes == SequenceLinked(old(allNodes), sinkOfLeft, sourcesOfRight)
    {
      allNodes := AddSuccessors(allNodes, sinkOfLeft, sourcesOfRight);
      ghost var linked := allNodes;
      for idx := 0 to |sourcesOfRight|
        invariant allNodes.Keys == linked.Keys
        invariant AddPredecessors(linked, sourcesOfRight, sinkOfLeft)
               == AddPredecessors(allNodes, sourcesOfRight[idx..], sinkOfLeft)
      {
        allNodes := AddPredecessor(allNodes, sourcesOfRight[idx], sinkOfLeft);
        assert sourcesOfRight[idx..][1..] == sourcesOfRight[idx + 1..];
      }
    }

    /** Cases `&` and `|`: a new node after both sinks. */
    method LinkComposite(kind: Kind, name: string, sinkOfLeft: string, sinkOfRight: string)
      requires sinkOfLeft in allNodes && sinkOfRight in allNodes
      modifies `allNodes
      ensures allNodes == CompositeLinked(old(allNodes), kind, name, sinkOfLeft, sinkOfRight)
    {
      allNodes := AddSuccessors(allNodes, sinkOfLeft, [name]);
      allNodes := AddSuccessors(allNodes, sinkOfRight, [name]);
      allNodes := allNodes[name := TriggerNode(kind, [sinkOfLeft, sinkOfRight], [])];
    }

    predicate FullyTriggered()
      reads this
    {
      sink in satisfied
    }

    /** Fires a literal; false stands for a `log.Fatalf`, which ends the process. */
    method Trigger(nodeName: string) returns (ok: bool)
      modifies `toSatisfy, `satisfied
      ensures ok == Fire(allNodes, nodeName, true, old(State())).Some?
      ensures ok ==> Some(State()) == Fire(allNodes, nodeName, true, old(State()))
    {
      if nodeName !in toSatisfy || nodeName in satisfied || nodeName !in allNodes || !allNodes[nodeName].kind.Literal? {
        return false;
      }
      ok := Satisfy(nodeName);
    }

    method TriggerOrAnd(nodeName: string) returns (ok: bool)
      modifies `toSatisfy, `satisfied
      ensures ok == Fire(allNodes, nodeName, false, old(State())).Some?
      ensures ok ==> Some(State()) == Fire(allNodes, nodeName, false, old(State()))
      decreases allNodes.Keys - satisfied, 0
    {
      if nodeName !in toSatisfy || nodeName in satisfied || nodeName !in allNodes || allNodes[nodeName].kind.Literal? {
        return false;
      }
      ok := Satisfy(nodeName);
    }

    /** The common part of `trigger` and `triggerOrAnd`. */
    method Satisfy(nodeName: string) returns (ok: bool)
      requires nodeName in allNodes && nodeName !in satisfied
      modifies `toSatisfy, `satisfied
      ensures var r := Notify(allNodes, allNodes[nodeName].successors, MarkSatisfied(old(State()), nodeName));
              ok == r.Some? && (ok ==> Some(State()) == r)
      decreases allNodes.Keys - satisfied, 0, 0
    {
      ghost var start := State();
      satisfied := satisfied + {nodeName};
      toSatisfy := toSatisfy - {nodeName};
      assert nodeName in allNodes.Keys - start.satisfied && nodeName !in allNodes.Keys - satisfied;
      var successors := allNodes[nodeName].successors;
      for i := 0 to |successors|
        invariant start.satisfied + {nodeName} <= satisfied
        invariant Notify(allNodes, successors, MarkSatisfied(start, nodeName)) == Notify(allNodes, successors[i..], State())
      {
        var m := successors[i];
        assert successors[i..][0] == m && successors[i..][1..] == successors[i + 1..];
        if m !in allNodes {
          return false;
        }
        toSatisfy := toSatisfy + {m};
        var complete := allNodes[m].kind.OrNode?;
        if allNodes[m].kind.AndNode? {
          complete := forall p :: p in allNodes[m].predecessors ==> p in satisfied;
        }
        if complete {
          assert nodeName !in allNodes.Keys - satisfied;
          var done := TriggerOrAnd(m);
          if !done {
            return false;
          }
        }
      }
      ok := true;
    }
  }

  /** The tree of a well-formed expression, none of whose nodes is in the table yet. */
  ghost predicate Fits(node: TreeNode, e: Expr, nodes: Nodes) {
    WellFormed(e) && node == ToTree(e) && nodes.Keys !! NodeNames(e)
  }

  lemma {:induction false} LiteralFits(node: TreeNode, e: Expr, nodes: Nodes)
    requires node.Node? && node.name != ";" && node.name != "&" && node.name != "|"
    ensures Fits(node, e, nodes) ==>
              nodes[node.composedName := TriggerNode(Literal, [], [])] == nodes + Compile(e)
              && [node.composedName] == SourceNames(e) && node.composedName == SinkName(e)
  {
    if Fits(node, e, nodes) {
      TreeName(e);
    }
  }

  /** The operands of an operator fit one after the other. */
  lemma {:induction false} OperatorFits(node: TreeNode, e: Expr, nodes: Nodes)
    requires node.Node? && (node.name == ";" || node.name == "&" || node.name == "|")
    ensures Fits(node, e, nodes) ==>
              e.Bin? && node.name == [OpChar(e.op)] && node.composedName == ComposedName(e)
              && Fits(node.left, e.left, nodes) && Fits(node.right, e.right, nodes + Compile(e.left))
  {
    if Fits(node, e, nodes) {
      TreeName(e);
      NodeNamesFresh(e);
    }
  }

  /** Builds the graph of a tree, null if that fails; for a well-formed expression `e` this is its graph at the start. */
  method BinaryTreeToTriggerGraph(node: TreeNode, ghost e: Expr) returns (g: Graph?)
    ensures g != null ==> fresh(g) && !g.FullyTriggered()
    ensures WellFormed(e) && node == ToTree(e) ==>
              g != null && g.sources == SourceNames(e) && g.sink == SinkName(e) && g.allNodes == Compile(e) && g.State() == Initial(e)
  {
    var graph := new Graph();
    EmptyPlus(Compile(e));
    var ok, sources, sink := graph.BinaryTreeToTriggerNode(node, e);
    if !ok {
      return null;
    }
    graph.sources, graph.sink := sources, sink;
    graph.toSatisfy := Elements(sources);
    g := graph;
  }

  lemma {:induction false} EmptyPlus(g: Nodes)
    ensures map[] + g == g
  {
  }

  function Elements(names: seq<string>): set<string> {
    set n | n in names
  }

  function Initial(e: Expr): Progress {
    Progress(Elements(SourceNames(e)), {})
  }

  lemma {:induction false} TreeName(e: Expr)
    requires WellFormed(e)
    ensures e.Bin? ==> ToTree(e).name == [OpChar(e.op)]
    ensures e.Lit? ==> !IsOperatorChar(ToTree(e).name[0])
  {
  }

  lemma {:induction false} NodeNamesAreSubNames(e: Expr)
    ensures NodeNames(e) <= SubNames(e)
  {
    if e.Bin? {
      NodeNamesAreSubNames(e.left);
      NodeNamesAreSubNames(e.right);
    }
  }

  lemma {:induction false} NodeNamesFresh(e: Expr)
    requires WellFormed(e) && e.Bin?
    ensures NodeNames(e.left) !! NodeNames(e.right)
    ensures ComposedName(e) !in NodeNames(e.left) + NodeNames(e.right)
  {
    SiblingNamesDisjoint(e.left, e.right);
    OwnNameFresh(e);
    NodeNamesAreSubNames(e.left);
    NodeNamesAreSubNames(e.right);
  }

  lemma {:induction false} AddPredecessorsFrame(a: Nodes, b: Nodes, names: seq<string>, p: string)
    requires a.Keys !! b.Keys && forall n :: n in names ==> n in b
    ensures AddPredecessors(a + b, names, p) == a + AddPredecessors(b, names, p)
    decreases |names|
  {
    if names != [] {
      assert AddPredecessor(a + b, names[0], p) == a + AddPredecessor(b, names[0], p);
      AddPredecessorsFrame(a, AddPredecessor(b, names[0], p), names[1..], p);
    }
  }

  /** Linking the two halves of `e` next to other nodes leaves those untouched. */
  lemma {:induction false} CompileFrame(e: Expr, others: Nodes, nodes: Nodes)
    requires WellFormed(e) && e.Bin? && others.Keys !! NodeNames(e)
    requires nodes == others + Compile(e.left) + Compile(e.right)
    ensures SinkName(e.left) in nodes && SinkName(e.right) in nodes
    ensures forall n :: n in SourceNames(e.right) ==> n in nodes
    ensures e.op.Seq? ==> SequenceLinked(nodes, SinkName(e.left), SourceNames(e.right)) == others + Compile(e)
    ensures !e.op.Seq? ==>
      CompositeLinked(nodes, OpKind(e.op), ComposedName(e), SinkName(e.left), SinkName(e.right)) == others + Compile(e)
  {
    var both := Compile(e.left) + Compile(e.right);
    assert nodes == others + both;
    EndpointsAreNodes(e.left);
    EndpointsAreNodes(e.right);
    if e.op.Seq? {
      SequenceFrame(others, both, SinkName(e.left), SourceNames(e.right));
    } else {
      CompositeFrame(others, both, OpKind(e.op), ComposedName(e), SinkName(e.left), SinkName(e.right));
    }
  }

  lemma {:induction false} SequenceFrame(a: Nodes, b: Nodes, sink: string, sources: seq<string>)
    requires a.Keys !! b.Keys && sink in b && forall n :: n in sources ==> n in b
    ensures SequenceLinked(a + b, sink, sources) == a + SequenceLinked(b, sink, sources)
  {
    assert AddSuccessors(a + b, sink, sources) == a + AddSuccessors(b, sink, sources);
    AddPredecessorsFrame(a, AddSuccessors(b, sink, sources), sources, sink);
  }

  lemma {:induction false} CompositeFrame(a: Nodes, b: Nodes, kind: Kind, name: string, sinkL: string, sinkR: string)
    requires a.Keys !! b.Keys && sinkL in b && sinkR in b && name !in a
    ensures CompositeLinked(a + b, kind, name, sinkL, sinkR) == a + CompositeLinked(b, kind, name, sinkL, sinkR)
  {
  }
}
