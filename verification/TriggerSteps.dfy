/** Propagation through the compiled graph equals a step that follows the expression:
    the simulation between `TriggerGraph.Fire` on `Compile(e)` and `Step` on `e`. */
module TriggerSteps {
  import opened TriggerExpr
  import opened TriggerGraph

  // ----- A step on the expression -----

  datatype StepResult = Abort | Open(s: Progress) | Completed(s: Progress)

  /** A composite whose child has just been completed. */
  function Join(e: Expr, s: Progress): StepResult
    requires e.Bin? && !e.op.Seq?
  {
    var t := Enable(s, {ComposedName(e)});
    if e.op.Or? || (SinkName(e.left) in s.satisfied && SinkName(e.right) in s.satisfied) then
      if ComposedName(e) in s.satisfied then Abort else Completed(MarkSatisfied(t, ComposedName(e)))
    else Open(t)
  }

  function SourceSet(e: Expr): set<string> {
    set n | n in SourceNames(e)
  }

  function AfterLeft(e: Expr, r: StepResult): StepResult
    requires e.Bin?
  {
    if !r.Completed? then r
    else if e.op.Seq? then Open(Enable(r.s, SourceSet(e.right)))
    else Join(e, r.s)
  }

  function AfterRight(e: Expr, r: StepResult): StepResult
    requires e.Bin?
  {
    if !r.Completed? || e.op.Seq? then r else Join(e, r.s)
  }

  /** Firing literal `x` of `e`. */
  function Step(e: Expr, x: string, s: Progress): StepResult {
    match e
    case Lit(n) => if x !in s.toSatisfy || x in s.satisfied then Abort else Completed(MarkSatisfied(s, x))
    case Bin(_, l, r) => if x in Leaves(l) then AfterLeft(e, Step(l, x, s)) else AfterRight(e, Step(r, x, s))
  }

  // ----- Contexts -----

  /** The surroundings of a subexpression, innermost first. */
  datatype Context = Top | LeftOf(op: Op, right: Expr, up: Context) | RightOf(op: Op, left: Expr, up: Context)

  function Parent(c: Context, e: Expr): Expr
    requires !c.Top?
  {
    if c.LeftOf? then Bin(c.op, e, c.right) else Bin(c.op, c.left, e)
  }

  function Plug(c: Context, e: Expr): Expr
    decreases c
  {
    if c.Top? then e else Plug(c.up, Parent(c, e))
  }

  /** Where the completion of `e` leads in its context. */
  function SuccessorsIn(c: Context, e: Expr): seq<string>
    decreases c
  {
    match c
    case Top => []
    case LeftOf(op, r, _) => if op.Seq? then SourceNames(r) else [ComposedName(Parent(c, e))]
    case RightOf(op, _, up) => if op.Seq? then SuccessorsIn(up, Parent(c, e)) else [ComposedName(Parent(c, e))]
  }

  /** What happens in the context once `e` has stepped. */
  function Resume(c: Context, e: Expr, r: StepResult): Option<Progress>
    decreases c
  {
    match r
    case Abort => None
    case Open(s) => Some(s)
    case Completed(s) =>
      match c
      case Top => Some(s)
      case LeftOf(_, _, up) => Resume(up, Parent(c, e), AfterLeft(Parent(c, e), r))
      case RightOf(_, _, up) => Resume(up, Parent(c, e), AfterRight(Parent(c, e), r))
  }

  /** The context of the literal `x` of `e`. */
  function Locate(c: Context, e: Expr, x: string): Context
    decreases e
  {
    match e
    case Lit(_) => c
    case Bin(op, l, r) =>
      if x in Leaves(l) then Locate(LeftOf(op, r, c), l, x) else Locate(RightOf(op, l, c), r, x)
  }

  lemma {:induction false} LocatePlugs(c: Context, e: Expr, x: string)
    requires x in Leaves(e)
    ensures Plug(Locate(c, e, x), Lit(x)) == Plug(c, e)
    decreases e
  {
    if e.Bin? {
      if x in Leaves(e.left) {
        LocatePlugs(LeftOf(e.op, e.right, c), e.left, x);
      } else {
        LocatePlugs(RightOf(e.op, e.left, c), e.right, x);
      }
    }
  }

  /** Walking up from the literal is the recursive step. */
  lemma {:induction false} StepFromLiteral(c: Context, e: Expr, x: string, s: Progress)
    requires x in Leaves(e)
    ensures Resume(Locate(c, e, x), Lit(x), Step(Lit(x), x, s)) == Resume(c, e, Step(e, x, s))
    decreases e
  {
    if e.Bin? {
      if x in Leaves(e.left) {
        StepFromLiteral(LeftOf(e.op, e.right, c), e.left, x, s);
      } else {
        StepFromLiteral(RightOf(e.op, e.left, c), e.right, x, s);
      }
    }
  }

  // ----- The node table in context -----

  lemma {:induction false} PlugWellFormed(c: Context, e: Expr)
    requires WellFormed(Plug(c, e))
    ensures WellFormed(e)
    decreases c
  {
    if !c.Top? {
      PlugWellFormed(c.up, Parent(c, e));
    }
  }

  lemma {:induction false} AddPredecessorsEffect(nodes: Nodes, names: seq<string>, p: string, n: string)
    requires n in nodes && forall m :: m in names ==> m in nodes
    ensures var r := AddPredecessors(nodes, names, p);
            r[n].kind == nodes[n].kind && r[n].successors == nodes[n].successors
            && (n !in names ==> r[n] == nodes[n])
    decreases |names|
  {
    if names != [] {
      AddPredecessorsEffect(AddPredecessor(nodes, names[0], p), names[1..], p, n);
    }
  }

  lemma {:induction false} SourcesAreLiterals(e: Expr, n: string)
    requires WellFormed(e) && n in SourceNames(e)
    ensures n in Compile(e) && Compile(e)[n].kind == Literal && n in Leaves(e)
    decreases e, 1
  {
    EndpointsAreNodes(e);
    if e.Bin? {
      if n in SourceNames(e.left) {
        SourcesAreLiterals(e.left, n);
        NodeInLeft(e, n);
      } else {
        SourcesAreLiterals(e.right, n);
        NodeInRight(e, n);
      }
    }
  }

  ghost predicate SameButSuccessors(a: TriggerNode, b: TriggerNode, extra: seq<string>) {
    a.kind == b.kind && a.successors == b.successors + extra && (!b.kind.Literal? ==> a.predecessors == b.predecessors)
  }

  lemma {:induction false} NodeInLeft(e: Expr, n: string)
    requires WellFormed(e) && e.Bin? && n in NodeNames(e.left)
    ensures SameButSuccessors(Compile(e)[n], Compile(e.left)[n],
              if n != SinkName(e.left) then [] else if e.op.Seq? then SourceNames(e.right) else [ComposedName(e)])
  {
    var l, r := e.left, e.right;
    NodeNamesFresh(e);
    EndpointsAreNodes(l);
    EndpointsAreNodes(r);
    if e.op.Seq? {
      AddPredecessorsEffect(AddSuccessors(Compile(l) + Compile(r), SinkName(l), SourceNames(r)), SourceNames(r), SinkName(l), n);
    }
  }

  lemma {:induction false} NodeInRight(e: Expr, n: string)
    requires WellFormed(e) && e.Bin? && n in NodeNames(e.right)
    ensures SameButSuccessors(Compile(e)[n], Compile(e.right)[n],
              if n != SinkName(e.right) || e.op.Seq? then [] else [ComposedName(e)])
    decreases e, 0
  {
    var l, r := e.left, e.right;
    NodeNamesFresh(e);
    EndpointsAreNodes(l);
    EndpointsAreNodes(r);
    if e.op.Seq? {
      AddPredecessorsEffect(AddSuccessors(Compile(l) + Compile(r), SinkName(l), SourceNames(r)), SourceNames(r), SinkName(l), n);
      if n in SourceNames(r) {
        SourcesAreLiterals(r, n);
      }
    }
  }

  lemma {:induction false} NodeInContext(c: Context, e: Expr, n: string)
    requires WellFormed(Plug(c, e)) && n in NodeNames(e)
    ensures n in Compile(Plug(c, e))
    ensures SameButSuccessors(Compile(Plug(c, e))[n], Compile(e)[n], if n == SinkName(e) then SuccessorsIn(c, e) else [])
    decreases c
  {
    if !c.Top? {
      var p := Parent(c, e);
      PlugWellFormed(c.up, p);
      NodeInContext(c.up, p, n);
      NodeInParent(c, e, n);
      var inner := if n == SinkName(e) && n != SinkName(p) then SuccessorsIn(c, e) else [];
      var outer := if n == SinkName(p) then SuccessorsIn(c.up, p) else [];
      SameTransitive(Compile(Plug(c, e))[n], Compile(p)[n], Compile(e)[n], outer, inner);
      assert inner + outer == if n == SinkName(e) then SuccessorsIn(c, e) else [];
    }
  }

  lemma {:induction false} SameTransitive(a: TriggerNode, b: TriggerNode, c: TriggerNode, x: seq<string>,
                                          y: seq<string>)
    requires SameButSuccessors(a, b, x) && SameButSuccessors(b, c, y)
    ensures SameButSuccessors(a, c, y + x)
  {
    assert c.successors + y + x == c.successors + (y + x);
  }

  /** Being the sink of the parent and being linked to something in it exclude each other. */
  lemma {:induction false} NodeInParent(c: Context, e: Expr, n: string)
    requires !c.Top? && WellFormed(Parent(c, e)) && n in NodeNames(e)
    ensures var p := Parent(c, e);
            SameButSuccessors(Compile(p)[n], Compile(e)[n],
              if n == SinkName(e) && n != SinkName(p) then SuccessorsIn(c, e) else [])
            && (n == SinkName(p) ==> n == SinkName(e) && c.RightOf? && c.op.Seq?)
            && (n == SinkName(e) && c.RightOf? && c.op.Seq? ==> n == SinkName(p))
  {
    var p := Parent(c, e);
    NodeNamesFresh(p);
    EndpointsAreNodes(p.left);
    EndpointsAreNodes(p.right);
    if c.LeftOf? { NodeInLeft(p, n); } else { NodeInRight(p, n); }
  }

  lemma {:induction false} SinkHasNoSuccessors(e: Expr)
    requires WellFormed(e)
    ensures SinkName(e) in Compile(e) && Compile(e)[SinkName(e)].successors == []
  {
    EndpointsAreNodes(e);
    if e.Bin? && e.op.Seq? {
      SinkHasNoSuccessors(e.right);
      NodeInRight(e, SinkName(e));
    }
  }

  lemma {:induction false} SuccessorsOfSink(c: Context, e: Expr)
    requires WellFormed(Plug(c, e))
    ensures SinkName(e) in Compile(Plug(c, e))
    ensures Compile(Plug(c, e))[SinkName(e)].successors == SuccessorsIn(c, e)
  {
    PlugWellFormed(c, e);
    EndpointsAreNodes(e);
    SinkHasNoSuccessors(e);
    NodeInContext(c, e, SinkName(e));
  }

  lemma {:induction false} CompositeInContext(c: Context, e: Expr)
    requires WellFormed(Plug(c, e)) && e.Bin? && !e.op.Seq?
    ensures var n, g := ComposedName(e), Compile(Plug(c, e));
            n in g && g[n].kind == OpKind(e.op) && g[n].predecessors == [SinkName(e.left), SinkName(e.right)]
  {
    PlugWellFormed(c, e);
    NodeInContext(c, e, ComposedName(e));
  }

  // ----- Simulation -----

  lemma {:induction false} NotifyLiterals(g: Nodes, names: seq<string>, s: Progress)
    requires forall n :: n in names ==> n in g && g[n].kind.Literal?
    ensures Notify(g, names, s) == Some(Enable(s, set n | n in names))
    decreases |names|
  {
    if names == [] {
      assert Enable(s, set n | n in names) == s;
    } else {
      var t := Enable(s, {names[0]});
      NotifyLiterals(g, names[1..], t);
      assert (set n | n in names) == {names[0]} + set n | n in names[1..];
      assert Enable(t, set n | n in names[1..]) == Enable(s, set n | n in names);
    }
  }

  lemma {:induction false} SequelIsLiteral(c: Context, e: Expr)
    requires WellFormed(Plug(c, e)) && c.LeftOf? && c.op.Seq?
    ensures forall n :: n in SourceNames(c.right) ==> n in Compile(Plug(c, e)) && Compile(Plug(c, e))[n].kind.Literal?
  {
    var p := Parent(c, e);
    PlugWellFormed(c.up, p);
    forall n | n in SourceNames(c.right)
      ensures n in Compile(Plug(c, e)) && Compile(Plug(c, e))[n].kind.Literal?
    {
      SourcesAreLiterals(c.right, n);
      EndpointsAreNodes(c.right);
      NodeInRight(p, n);
      NodeInContext(c.up, p, n);
    }
  }

  /** Notifying the successors of the sink of `e` is resuming its context. */
  lemma {:induction false} NotifyIsResume(c: Context, e: Expr, s: Progress)
    requires WellFormed(Plug(c, e))
    ensures Notify(Compile(Plug(c, e)), SuccessorsIn(c, e), s) == Resume(c, e, Completed(s))
    decreases c
  {
    if c.Top? {
    } else if c.op.Seq? {
      if c.LeftOf? {
        SequelIsLiteral(c, e);
        NotifyLiterals(Compile(Plug(c, e)), SourceNames(c.right), s);
      } else {
        NotifyIsResume(c.up, Parent(c, e), s);
      }
    } else {
      NotifyComposite(c, e, s);
    }
  }

  lemma {:induction false} NotifyComposite(c: Context, e: Expr, s: Progress)
    requires WellFormed(Plug(c, e)) && !c.Top? && !c.op.Seq?
    ensures Notify(Compile(Plug(c, e)), [ComposedName(Parent(c, e))], s) == Resume(c.up, Parent(c, e), Join(Parent(c, e), s))
    decreases c, 0
  {
    var g, p, m := Compile(Plug(c, e)), Parent(c, e), ComposedName(Parent(c, e));
    CompositeInContext(c.up, p);
    SuccessorsOfSink(c.up, p);
    var t := MarkSatisfied(Enable(s, {m}), m);
    NotifyIsResume(c.up, p, t);
    assert Join(p, s).Completed? ==> Join(p, s).s == t;
    assert Fire(g, m, false, Enable(s, {m})) == if m in s.satisfied then None else Notify(g, g[m].successors, t);
    assert AllSatisfied(g[m].predecessors, s) <==> SinkName(p.left) in s.satisfied && SinkName(p.right) in s.satisfied;
    assert NotifyOne(g, m, s) == Resume(c.up, p, Join(p, s));
    assert [m][1..] == [];
  }

  function StepToProgress(r: StepResult): Option<Progress> {
    if r.Abort? then None else Some(r.s)
  }

  /** Triggering a literal of the compiled graph is one step on the expression. */
  lemma {:induction false} FireIsStep(e: Expr, x: string, s: Progress)
    requires WellFormed(e) && x in Leaves(e)
    ensures Fire(Compile(e), x, true, s) == StepToProgress(Step(e, x, s))
  {
    var c := Locate(Top, e, x);
    LocatePlugs(Top, e, x);
    StepFromLiteral(Top, e, x, s);
    PlugWellFormed(c, Lit(x));
    SuccessorsOfSink(c, Lit(x));
    NodeInContext(c, Lit(x), x);
    NotifyIsResume(c, Lit(x), MarkSatisfied(s, x));
  }

  /** A name that is no literal of the expression always aborts. */
  lemma {:induction false} FireNonLiteral(e: Expr, x: string, s: Progress)
    requires WellFormed(e) && x !in Leaves(e)
    ensures Fire(Compile(e), x, true, s) == None
  {
    if x in Compile(e) {
      LiteralNodesAreLeaves(e, x);
    }
  }

  lemma {:induction false} LiteralNodesAreLeaves(e: Expr, n: string)
    requires WellFormed(e) && n in NodeNames(e)
    ensures Compile(e)[n].kind.Literal? <==> n in Leaves(e)
  {
    if e.Bin? {
      SubNamesNonEmpty(e.left);
      SubNamesNonEmpty(e.right);
      NodeNamesAreSubNames(e.left);
      NodeNamesAreSubNames(e.right);
      SiblingNamesDisjoint(e.left, e.right);
      OwnNameFresh(e);
      if n in NodeNames(e.left) {
        LiteralNodesAreLeaves(e.left, n);
        NodeInLeft(e, n);
      } else if n in NodeNames(e.right) {
        LiteralNodesAreLeaves(e.right, n);
        NodeInRight(e, n);
      }
    }
  }

  /** Every literal has at most one predecessor, a source none; every composite has exactly two. */
  lemma {:induction false} Degrees(e: Expr, n: string)
    requires WellFormed(e) && n in NodeNames(e)
    ensures var node := Compile(e)[n];
            (node.kind.Literal? ==> |node.predecessors| <= 1 && (n in SourceNames(e) ==> node.predecessors == []))
            && (!node.kind.Literal? ==> |node.predecessors| == 2)
  {
    if e.Bin? {
      var l, r := e.left, e.right;
      NodeNamesFresh(e);
      EndpointsAreNodes(l);
      EndpointsAreNodes(r);
      if n in NodeNames(l) {
        Degrees(l, n);
      } else if n in NodeNames(r) {
        Degrees(r, n);
      }
      if e.op.Seq? {
        SequenceDegrees(e, n);
      }
    }
  }

  lemma {:induction false} SequenceDegrees(e: Expr, n: string)
    requires WellFormed(e) && e.Bin? && e.op.Seq? && n in NodeNames(e)
    ensures var both := Compile(e.left) + Compile(e.right);
            n in both && Compile(e)[n].kind == both[n].kind
            && Compile(e)[n].predecessors == both[n].predecessors + if n in SourceNames(e.right) then [SinkName(e.left)] else []
    ensures n in SourceNames(e.right) ==> n in NodeNames(e.right) && Compile(e.right)[n].kind.Literal?
  {
    var l, r := e.left, e.right;
    EndpointsAreNodes(l);
    EndpointsAreNodes(r);
    SourceNamesDistinct(r);
    var linked := AddSuccessors(Compile(l) + Compile(r), SinkName(l), SourceNames(r));
    AddPredecessorsOnce(linked, SourceNames(r), SinkName(l), n);
    if n in SourceNames(r) {
      SourcesAreLiterals(r, n);
    }
  }

  lemma {:induction false} AddPredecessorsOnce(nodes: Nodes, names: seq<string>, p: string, n: string)
    requires n in nodes && forall m :: m in names ==> m in nodes
    requires forall i, j :: 0 <= i < j < |names| ==> names[i] != names[j]
    ensures var r := AddPredecessors(nodes, names, p);
            r[n].kind == nodes[n].kind && r[n].predecessors == nodes[n].predecessors + if n in names then [p] else []
    decreases |names|
  {
    if names != [] {
      AddPredecessorsOnce(AddPredecessor(nodes, names[0], p), names[1..], p, n);
    }
  }

  lemma {:induction false} SourceNamesDistinct(e: Expr)
    requires WellFormed(e)
    ensures forall i, j :: 0 <= i < j < |SourceNames(e)| ==> SourceNames(e)[i] != SourceNames(e)[j]
    ensures forall n :: n in SourceNames(e) ==> n in Leaves(e)
  {
    if e.Bin? {
      SourceNamesDistinct(e.left);
      SourceNamesDistinct(e.right);
      var a, b := SourceNames(e.left), SourceNames(e.right);
      forall i, j | 0 <= i < |a| && 0 <= j < |b|
        ensures a[i] != b[j]
      {
        assert a[i] in Leaves(e.left) && b[j] in Leaves(e.right);
      }
    }
  }
}
