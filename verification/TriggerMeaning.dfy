/** What the compiled graph means. The progress of a graph is a function of the set of fired
    literals; a graph is fully triggered exactly when the events seen so far satisfy the
    expression; and a run can abort exactly when some `|` is not in tail position. */
module TriggerMeaning {
  import opened TriggerExpr
  import opened TriggerGraph
  import opened TriggerSteps

  type Fired = set<string>

  /** The subexpression is satisfied by the fired literals. */
  predicate Done(e: Expr, f: Fired) {
    match e
    case Lit(n) => n in f
    case Bin(op, l, r) => if op.Or? then Done(l, f) || Done(r, f) else Done(l, f) && Done(r, f)
  }

  /** Whether the right operand may start, given that the whole may. */
  predicate RightOn(e: Expr, f: Fired, on: bool)
    requires e.Bin?
  {
    on && (e.op.Seq? ==> Done(e.left, f))
  }

  /** No literal fired before its `;`-predecessors were done. */
  predicate Legal(e: Expr, f: Fired, on: bool) {
    match e
    case Lit(n) => n in f ==> on
    case Bin(_, l, r) => Legal(l, f, on) && Legal(r, f, RightOn(e, f, on))
  }

  /** Literals whose `;`-predecessors are done and which have not fired. */
  function Ready(e: Expr, f: Fired, on: bool): set<string> {
    match e
    case Lit(n) => if on && n !in f then {n} else {}
    case Bin(_, l, r) => Ready(l, f, on) + Ready(r, f, RightOn(e, f, on))
  }

  /** `&` nodes with exactly one operand done. */
  function HalfDone(e: Expr, f: Fired): set<string> {
    match e
    case Lit(_) => {}
    case Bin(op, l, r) =>
      HalfDone(l, f) + HalfDone(r, f) + if op.And? && Done(l, f) != Done(r, f) then {ComposedName(e)} else {}
  }

  /** Nodes whose subexpression is done. */
  function DoneNodes(e: Expr, f: Fired): set<string> {
    match e
    case Lit(n) => if n in f then {n} else {}
    case Bin(op, l, r) => DoneNodes(l, f) + DoneNodes(r, f) + if !op.Seq? && Done(e, f) then {ComposedName(e)} else {}
  }

  // ----- Progress as a sum of parts -----

  function Plus(a: Progress, b: Progress): Progress {
    Progress(a.toSatisfy + b.toSatisfy, a.satisfied + b.satisfied)
  }

  function NodeState(n: string, waiting: bool, done: bool): Progress {
    Progress(if waiting then {n} else {}, if done then {n} else {})
  }

  /** The contribution of the node of a composite. */
  function Own(e: Expr, f: Fired): Progress
    requires e.Bin?
  {
    NodeState(ComposedName(e), e.op.And? && Done(e.left, f) != Done(e.right, f), !e.op.Seq? && Done(e, f))
  }

  /** The progress of the nodes of `e` after the literals `f` have fired. */
  function Part(e: Expr, f: Fired, on: bool): Progress {
    match e
    case Lit(n) => NodeState(n, on && n !in f, n in f)
    case Bin(_, l, r) => Plus(Plus(Part(l, f, on), Part(r, f, RightOn(e, f, on))), Own(e, f))
  }

  lemma {:induction false} PartSplits(e: Expr, f: Fired, on: bool)
    ensures Part(e, f, on) == Progress(Ready(e, f, on) + HalfDone(e, f), DoneNodes(e, f))
  {
    if e.Bin? {
      PartSplits(e.left, f, on);
      PartSplits(e.right, f, RightOn(e, f, on));
    }
  }

  ghost predicate Outside(names: set<string>, p: Progress) {
    p.toSatisfy !! names && p.satisfied !! names
  }

  ghost predicate Inside(names: set<string>, p: Progress) {
    p.toSatisfy <= names && p.satisfied <= names
  }

  lemma {:induction false} PlusRotate(a: Progress, b: Progress, c: Progress, d: Progress)
    ensures Plus(Plus(Plus(a, b), c), d) == Plus(a, Plus(Plus(b, c), d))
    ensures Plus(Plus(Plus(a, b), c), d) == Plus(b, Plus(Plus(a, c), d))
  {
  }

  lemma {:induction false} PlusEnable(b: Progress, n: string, w: bool, d: bool, rest: Progress)
    ensures Enable(Plus(Plus(b, NodeState(n, w, d)), rest), {n}) == Plus(Plus(b, NodeState(n, true, d)), rest)
  {
  }

  lemma {:induction false} PlusMark(b: Progress, n: string, w: bool, d: bool, rest: Progress)
    requires Outside({n}, b) && Outside({n}, rest)
    ensures MarkSatisfied(Plus(Plus(b, NodeState(n, w, d)), rest), n) == Plus(Plus(b, NodeState(n, false, true)), rest)
    ensures n in Plus(Plus(b, NodeState(n, w, d)), rest).satisfied <==> d
  {
  }

  // ----- Locality -----

  ghost predicate AgreeOn(e: Expr, f: Fired, g: Fired) {
    forall n :: n in Leaves(e) ==> (n in f <==> n in g)
  }

  lemma {:induction false} Local(e: Expr, f: Fired, g: Fired, on: bool)
    requires AgreeOn(e, f, g)
    ensures Done(e, f) == Done(e, g) && Legal(e, f, on) == Legal(e, g, on)
    ensures Part(e, f, on) == Part(e, g, on) && Ready(e, f, on) == Ready(e, g, on)
  {
    if e.Bin? {
      Local(e.left, f, g, on);
      Local(e.right, f, g, RightOn(e, f, on));
    }
  }

  lemma {:induction false} PartInside(e: Expr, f: Fired, on: bool)
    ensures Inside(NodeNames(e), Part(e, f, on)) && Leaves(e) <= NodeNames(e)
  {
    if e.Bin? {
      PartInside(e.left, f, on);
      PartInside(e.right, f, RightOn(e, f, on));
    }
  }

  lemma {:induction false} ReadyFacts(e: Expr, f: Fired, on: bool)
    ensures Ready(e, f, on) <= Leaves(e) && Ready(e, f, on) !! f
    ensures Ready(e, f, on) != {} ==> on
  {
    if e.Bin? {
      ReadyFacts(e.left, f, on);
      ReadyFacts(e.right, f, RightOn(e, f, on));
    }
  }

  lemma {:induction false} DoneGrows(e: Expr, f: Fired, g: Fired)
    requires f <= g
    ensures Done(e, f) ==> Done(e, g)
  {
    if e.Bin? {
      DoneGrows(e.left, f, g);
      DoneGrows(e.right, f, g);
    }
  }

  /** Nothing of an operand that may not start has fired or is done. */
  lemma {:induction false} Untouched(e: Expr, f: Fired)
    requires Legal(e, f, false) || Leaves(e) !! f
    ensures Leaves(e) !! f && !Done(e, f) && Legal(e, f, true) && Legal(e, f, false)
    ensures Part(e, f, true) == Progress(SourceSet(e), {}) && Part(e, f, false) == Progress({}, {})
  {
    if e.Bin? {
      Untouched(e.left, f);
      Untouched(e.right, f);
    }
  }

  lemma {:induction false} SinkIsDone(e: Expr, f: Fired, on: bool)
    requires WellFormed(e) && Legal(e, f, on)
    ensures SinkName(e) in Part(e, f, on).satisfied <==> Done(e, f)
  {
    if e.Bin? {
      NodeNamesFresh(e);
      PartInside(e.left, f, on);
      PartInside(e.right, f, RightOn(e, f, on));
      EndpointsAreNodes(e.right);
      if e.op.Seq? {
        SinkIsDone(e.right, f, RightOn(e, f, on));
        if !Done(e.left, f) {
          Untouched(e.right, f);
        }
      }
    }
  }

  // ----- One step -----

  predicate Completes(e: Expr, f: Fired, x: string) {
    !Done(e, f) && Done(e, f + {x})
  }

  /** Firing `x` completes the second branch of a `|` whose first branch is done. */
  predicate Collides(e: Expr, f: Fired, x: string) {
    e.Bin? &&
    if x in Leaves(e.left) then
      Collides(e.left, f, x) || (e.op.Or? && Completes(e.left, f, x) && Done(e.right, f))
    else
      Collides(e.right, f, x) || (e.op.Or? && Completes(e.right, f, x) && Done(e.left, f))
  }

  function StepMeaning(e: Expr, f: Fired, on: bool, x: string, rest: Progress): StepResult {
    var s := Plus(Part(e, f + {x}, on), rest);
    if Collides(e, f, x) then Abort else if Completes(e, f, x) then Completed(s) else Open(s)
  }

  /** The recursive step is the change of the fired set, and keeps it legal. */
  lemma {:induction false} StepIsMeaning(e: Expr, f: Fired, on: bool, x: string, rest: Progress)
    requires WellFormed(e) && Legal(e, f, on) && x in Ready(e, f, on) && Outside(NodeNames(e), rest)
    ensures Legal(e, f + {x}, on)
    ensures Step(e, x, Plus(Part(e, f, on), rest)) == StepMeaning(e, f, on, x, rest)
    decreases e, 1
  {
    ReadyFacts(e, f, on);
    match e
    case Lit(n) =>
      assert MarkSatisfied(Plus(Part(e, f, on), rest), x) == Plus(Part(e, f + {x}, on), rest);
    case Bin(_, l, r) =>
      ReadyFacts(l, f, on);
      ReadyFacts(r, f, RightOn(e, f, on));
      if x in Leaves(l) { StepLeft(e, f, on, x, rest); } else { StepRight(e, f, on, x, rest); }
  }

  lemma {:induction false} OutsideParts(e: Expr, f: Fired, on: bool, rest: Progress)
    requires WellFormed(e) && e.Bin? && Outside(NodeNames(e), rest)
    ensures Outside(NodeNames(e.left), Plus(Plus(Part(e.right, f, on), Own(e, f)), rest))
    ensures Outside(NodeNames(e.right), Plus(Plus(Part(e.left, f, on), Own(e, f)), rest))
  {
    NodeNamesFresh(e);
    PartInside(e.left, f, on);
    PartInside(e.right, f, on);
  }

  lemma {:induction false} StepLeft(e: Expr, f: Fired, on: bool, x: string, rest: Progress)
    requires WellFormed(e) && e.Bin? && Legal(e, f, on) && Outside(NodeNames(e), rest)
    requires x in Leaves(e.left) && x in Ready(e.left, f, on) && on
    ensures Legal(e, f + {x}, on)
    ensures Step(e, x, Plus(Part(e, f, on), rest)) == StepMeaning(e, f, on, x, rest)
    decreases e, 0
  {
    var l, r, rOn := e.left, e.right, RightOn(e, f, on);
    PlusRotate(Part(l, f, on), Part(r, f, rOn), Own(e, f), rest);
    OutsideParts(e, f, rOn, rest);
    StepIsMeaning(l, f, on, x, Plus(Plus(Part(r, f, rOn), Own(e, f)), rest));
    AfterLeftIsMeaning(e, f, on, x, rest);
  }

  lemma {:induction false} AfterLeftIsMeaning(e: Expr, f: Fired, on: bool, x: string, rest: Progress)
    requires WellFormed(e) && e.Bin? && Legal(e, f, on) && Outside(NodeNames(e), rest)
    requires x in Leaves(e.left) && on && Legal(e.left, f + {x}, on)
    ensures Legal(e, f + {x}, on)
    ensures AfterLeft(e, StepMeaning(e.left, f, on, x, Plus(Plus(Part(e.right, f, RightOn(e, f, on)), Own(e, f)), rest)))
         == StepMeaning(e, f, on, x, rest)
  {
    LegalAfterLeft(e, f, on, x);
    if e.op.Seq? && Completes(e.left, f, x) {
      SequelIsEnabled(e, f, x, rest);
    } else if !Completes(e.left, f, x) {
      QuietLeft(e, f, on, x, rest);
    } else {
      Local(e.right, f, f + {x}, on);
      PlusRotate(Part(e.left, f + {x}, on), Part(e.right, f, on), Own(e, f), rest);
      JoinIsMeaning(e, f, on, x, rest);
    }
  }

  lemma {:induction false} LegalAfterLeft(e: Expr, f: Fired, on: bool, x: string)
    requires WellFormed(e) && e.Bin? && Legal(e, f, on)
    requires x in Leaves(e.left) && Legal(e.left, f + {x}, on)
    ensures Legal(e, f + {x}, on) && Done(e.right, f) == Done(e.right, f + {x})
  {
    Local(e.right, f, f + {x}, true);
    Local(e.right, f, f + {x}, false);
    DoneGrows(e.left, f, f + {x});
    if !RightOn(e, f, on) {
      Untouched(e.right, f);
    }
  }

  lemma {:induction false} QuietLeft(e: Expr, f: Fired, on: bool, x: string, rest: Progress)
    requires WellFormed(e) && e.Bin? && x in Leaves(e.left) && !Completes(e.left, f, x)
    ensures Plus(Part(e.left, f + {x}, on), Plus(Plus(Part(e.right, f, RightOn(e, f, on)), Own(e, f)), rest))
         == Plus(Part(e, f + {x}, on), rest)
    ensures !Completes(e, f, x)
  {
    Local(e.right, f, f + {x}, RightOn(e, f, on));
    DoneGrows(e.left, f, f + {x});
    PlusRotate(Part(e.left, f + {x}, on), Part(e.right, f, RightOn(e, f, on)), Own(e, f), rest);
    assert Own(e, f) == Own(e, f + {x});
  }

  /** Completing the left of a `;` makes exactly the sources of the right ready. */
  lemma {:induction false} SequelIsEnabled(e: Expr, f: Fired, x: string, rest: Progress)
    requires WellFormed(e) && e.Bin? && e.op.Seq? && Legal(e, f, true)
    requires x in Leaves(e.left) && Completes(e.left, f, x)
    ensures Legal(e.right, f + {x}, true) && !Done(e, f + {x})
    ensures Enable(Plus(Part(e.left, f + {x}, true), Plus(Plus(Part(e.right, f, false), Own(e, f)), rest)), SourceSet(e.right))
         == Plus(Part(e, f + {x}, true), rest)
  {
    Untouched(e.right, f);
    Untouched(e.right, f + {x});
    EnableSequel(Part(e.left, f + {x}, true), SourceSet(e.right), ComposedName(e), rest);
  }

  lemma {:induction false} EnableSequel(a: Progress, names: set<string>, n: string, rest: Progress)
    ensures var own, none := NodeState(n, false, false), Progress({}, {});
            Enable(Plus(a, Plus(Plus(none, own), rest)), names) == Plus(Plus(Plus(a, Progress(names, {})), own), rest)
  {
  }

  lemma {:induction false} StepRight(e: Expr, f: Fired, on: bool, x: string, rest: Progress)
    requires WellFormed(e) && e.Bin? && Legal(e, f, on) && Outside(NodeNames(e), rest)
    requires x in Leaves(e.right) && x in Ready(e.right, f, RightOn(e, f, on)) && RightOn(e, f, on)
    ensures Legal(e, f + {x}, on)
    ensures Step(e, x, Plus(Part(e, f, on), rest)) == StepMeaning(e, f, on, x, rest)
    decreases e, 0
  {
    var l, r := e.left, e.right;
    PlusRotate(Part(l, f, on), Part(r, f, on), Own(e, f), rest);
    OutsideParts(e, f, on, rest);
    StepIsMeaning(r, f, on, x, Plus(Plus(Part(l, f, on), Own(e, f)), rest));
    AfterRightIsMeaning(e, f, on, x, rest);
  }

  lemma {:induction false} AfterRightIsMeaning(e: Expr, f: Fired, on: bool, x: string, rest: Progress)
    requires WellFormed(e) && e.Bin? && Legal(e, f, on) && Outside(NodeNames(e), rest)
    requires x in Leaves(e.right) && RightOn(e, f, on) && Legal(e.right, f + {x}, on)
    ensures Legal(e, f + {x}, on)
    ensures AfterRight(e, StepMeaning(e.right, f, on, x, Plus(Plus(Part(e.left, f, on), Own(e, f)), rest)))
         == StepMeaning(e, f, on, x, rest)
  {
    Local(e.left, f, f + {x}, on);
    if !Completes(e.right, f, x) || e.op.Seq? {
      QuietRight(e, f, on, x, rest);
    } else {
      JoinRight(e, f, on, x, rest);
    }
  }

  lemma {:induction false} JoinRight(e: Expr, f: Fired, on: bool, x: string, rest: Progress)
    requires WellFormed(e) && e.Bin? && !e.op.Seq? && Outside(NodeNames(e), rest) && Legal(e.left, f, on)
    requires x in Leaves(e.right) && Completes(e.right, f, x) && Legal(e.right, f + {x}, on)
    ensures Join(e, Plus(Part(e.right, f + {x}, on), Plus(Plus(Part(e.left, f, on), Own(e, f)), rest)))
         == JoinMeaning(e, f, on, x, rest)
  {
    Local(e.left, f, f + {x}, on);
    PlusRotate(Part(e.left, f, on), Part(e.right, f + {x}, on), Own(e, f), rest);
    JoinIsMeaning(e, f, on, x, rest);
  }

  lemma {:induction false} QuietRight(e: Expr, f: Fired, on: bool, x: string, rest: Progress)
    requires WellFormed(e) && e.Bin? && x in Leaves(e.right) && RightOn(e, f, on)
    requires !Completes(e.right, f, x) || e.op.Seq?
    ensures Plus(Part(e.right, f + {x}, on), Plus(Plus(Part(e.left, f, on), Own(e, f)), rest))
         == Plus(Part(e, f + {x}, on), rest)
    ensures Completes(e, f, x) <==> Completes(e.right, f, x) && e.op.Seq?
  {
    Local(e.left, f, f + {x}, on);
    DoneGrows(e.right, f, f + {x});
    PlusRotate(Part(e.left, f, on), Part(e.right, f + {x}, on), Own(e, f), rest);
    assert Own(e, f) == Own(e, f + {x});
  }

  function JoinMeaning(e: Expr, f: Fired, on: bool, x: string, rest: Progress): StepResult
    requires e.Bin?
  {
    var s := Plus(Part(e, f + {x}, on), rest);
    if e.op.Or? && Done(e, f) then Abort else if Completes(e, f, x) then Completed(s) else Open(s)
  }

  /** One operand has just been completed and the composite not yet told. */
  lemma {:induction false} JoinIsMeaning(e: Expr, f: Fired, on: bool, x: string, rest: Progress)
    requires WellFormed(e) && e.Bin? && !e.op.Seq? && Outside(NodeNames(e), rest)
    requires Legal(e.left, f + {x}, on) && Legal(e.right, f + {x}, on)
    requires (Completes(e.left, f, x) && Done(e.right, f) == Done(e.right, f + {x}))
          || (Completes(e.right, f, x) && Done(e.left, f) == Done(e.left, f + {x}))
    ensures var both := Plus(Part(e.left, f + {x}, on), Part(e.right, f + {x}, on));
            Join(e, Plus(Plus(both, Own(e, f)), rest)) == JoinMeaning(e, f, on, x, rest)
  {
    var g, n := f + {x}, ComposedName(e);
    var both := Plus(Part(e.left, g, on), Part(e.right, g, on));
    var w, d := e.op.And? && Done(e.left, f) != Done(e.right, f), Done(e, f);
    var s := Plus(Plus(both, NodeState(n, w, d)), rest);
    NodeNamesFresh(e);
    PartInside(e.left, g, on);
    PartInside(e.right, g, on);
    JoinReadsSinks(e, g, on, Own(e, f), rest);
    PlusEnable(both, n, w, d, rest);
    PlusMark(both, n, true, d, rest);
    PlusMark(both, n, w, d, rest);
  }

  lemma {:induction false} JoinReadsSinks(e: Expr, g: Fired, on: bool, own: Progress, rest: Progress)
    requires WellFormed(e) && e.Bin? && Outside(NodeNames(e), rest) && Inside({ComposedName(e)}, own)
    requires Legal(e.left, g, on) && Legal(e.right, g, on)
    ensures var s := Plus(Plus(Plus(Part(e.left, g, on), Part(e.right, g, on)), own), rest);
            (SinkName(e.left) in s.satisfied <==> Done(e.left, g)) && (SinkName(e.right) in s.satisfied <==> Done(e.right, g))
  {
    NodeNamesFresh(e);
    PartInside(e.left, g, on);
    PartInside(e.right, g, on);
    EndpointsAreNodes(e.left);
    EndpointsAreNodes(e.right);
    SinkIsDone(e.left, g, on);
    SinkIsDone(e.right, g, on);
  }
}
