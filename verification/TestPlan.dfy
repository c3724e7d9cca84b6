/** A test plan, from the texts of its trigger expressions to the actions that its run executes. */
module TestPlan {
  import opened TriggerExpr
  import opened Parser
  import opened ParserExact
  import opened TriggerGraph
  import opened TriggerMeaning
  import opened TriggerRuns
  import opened Schedules
  import opened StateMachine

  datatype PlannedAction = PlannedAction(expression: string, definitions: map<string, TriggerDefinition>, async: bool)

  /** The expression of which this is the tree, if there is one. */
  function FromTree(t: TreeNode): Option<Expr> {
    match t
    case Nil => None
    case Node(name, composed, l, r) =>
      if l.Nil? && r.Nil? then if composed == name then Some(Lit(name)) else None
      else
        var left, right := FromTree(l), FromTree(r);
        if left.None? || right.None? || !(name == ";" || name == "&" || name == "|") then None
        else
          var e := Bin(if name == ";" then Seq else if name == "&" then And else Or, left.value, right.value);
          if ComposedName(e) == composed then Some(e) else None
  }

  lemma {:induction false} TreeOfExpr(t: TreeNode)
    ensures FromTree(t).Some? ==> ToTree(FromTree(t).value) == t
  {
    if t.Node? && !(t.left.Nil? && t.right.Nil?) {
      TreeOfExpr(t.left);
      TreeOfExpr(t.right);
    }
  }

  lemma {:induction false} FromToTree(e: Expr)
    ensures FromTree(ToTree(e)) == Some(e)
  {
    if e.Bin? {
      FromToTree(e.left);
      FromToTree(e.right);
    }
  }

  /** The well-formed expression that the front end makes of a text. */
  function Meaning(text: string): Option<Expr> {
    match ParseTree(text)
    case None => None
    case Some(tree) => Proper(FromTree(tree))
  }

  function Proper(e: Option<Expr>): Option<Expr> {
    if e.Some? && WellFormed(e.value) then e else None
  }

  lemma {:induction false} MeaningIsParsed(text: string)
    ensures Meaning(text).Some? ==> WellFormed(Meaning(text).value) && ParseTree(text) == Some(ToTree(Meaning(text).value))
  {
    if ParseTree(text).Some? {
      TreeOfExpr(ParseTree(text).value);
    }
  }

  /** A text in which no operands meet has a meaning if and only if it writes an expression, and then that one. */
  lemma {:induction false} MeaningIsWritten(text: string, e: Expr)
    requires WellFormed(e) && !Juxtaposed(text)
    ensures Meaning(text) == Some(e) <==> exists s :: ObeysPriority(s) && Text(s) == text && Strip(s) == e
  {
    ParsesExactly(text, e);
    FromToTree(e);
    MeaningIsParsed(text);
  }

  /** The front end on one action: the expression of its tree, and the graph compiled from it. */
  method ParseAction(text: string) returns (r: Option<Expr>)
    ensures r == Meaning(text)
  {
    var tree := ParseExpression(text);
    if tree.None? {
      return None;
    }
    r := Proper(FromTree(tree.value));
    if r.Some? {
      MeaningIsParsed(text);
      var graph := BinaryTreeToTriggerGraph(tree.value, r.value);
      assert graph != null && graph.State() == Initial(r.value) && graph.allNodes == Compile(r.value);
    }
  }

  /** The graph object of a text, offered one event after the other; None if the text has no meaning or the graph aborts. */
  method Watch(text: string, events: seq<string>) returns (full: Option<bool>)
    ensures full == None <==> Meaning(text) == None || Observe(Meaning(text).value, events) == None
    ensures full.Some? ==> (full.value <==> Holds(Meaning(text).value, events))
  {
    var tree := ParseExpression(text);
    var e := if tree.None? then None else Proper(FromTree(tree.value));
    if e.None? {
      return None;
    }
    MeaningIsParsed(text);
    var graph := BinaryTreeToTriggerGraph(tree.value, e.value);
    var ok := OfferAll(graph, e.value, events);
    if !ok {
      return None;
    }
    ObserveMeaning(e.value, events);
    full := Some(graph.FullyTriggered());
  }

  /** False if the graph aborts. */
  method OfferAll(graph: Graph, e: Expr, events: seq<string>) returns (ok: bool)
    requires WellFormed(e) && graph.allNodes == Compile(e) && graph.State() == Initial(e)
    modifies graph`toSatisfy, graph`satisfied
    ensures ok == Observe(e, events).Some? && (ok ==> Observe(e, events) == Some(graph.State()))
  {
    for i := 0 to |events|
      invariant Observe(e, events[..i]) == Some(graph.State())
    {
      assert events[..i + 1] == events[..i] + [events[i]];
      ObserveSnoc(e, events[..i], events[i]);
      if events[i] in graph.toSatisfy && events[i] in Leaves(e) {
        ok := graph.Trigger(events[i]);
        if !ok {
          ObserveStuck(e, events, i + 1);
          return;
        }
      }
    }
    assert events[..|events|] == events;
    ok := true;
  }

  lemma {:induction false} ObserveStuck(e: Expr, events: seq<string>, i: nat)
    requires i <= |events| && Observe(e, events[..i]) == None
    ensures Observe(e, events) == None
    decreases |events| - i
  {
    if i == |events| {
      assert events[..i] == events;
    } else {
      assert events[..i + 1][..i] == events[..i];
      ObserveStuck(e, events, i + 1);
    }
  }

  /** The two sequences are related element by element. */
  ghost predicate Pairwise(related: (PlannedAction, Action) -> bool, xs: seq<PlannedAction>, ys: seq<Action>) {
    |xs| == |ys| && forall i :: 0 <= i < |xs| ==> related(xs[i], ys[i])
  }

  lemma {:induction false} PairwiseSnoc(related: (PlannedAction, Action) -> bool, xs: seq<PlannedAction>,
                                        ys: seq<Action>,
                                        x: PlannedAction, y: Action)
    requires Pairwise(related, xs, ys) && related(x, y)
    ensures Pairwise(related, xs + [x], ys + [y])
  {
  }

  /** The action is what the front end makes of the planned one. */
  predicate ReadsAction(p: PlannedAction, a: Action) {
    Meaning(p.expression) == Some(a.expr) && a.definitions == p.definitions && a.async == p.async
  }

  method ReadAction(p: PlannedAction) returns (r: Option<Action>)
    ensures if r.Some? then ReadsAction(p, r.value) else Meaningless(p)
  {
    var e := ParseAction(p.expression);
    r := if e.None? then None else Some(Action(e.value, p.definitions, p.async));
  }

  lemma {:induction false} ReadOneMore(plan: seq<PlannedAction>, i: nat, actions: seq<Action>, a: Action)
    requires i < |plan| && Pairwise(ReadsAction, plan[..i], actions) && ReadsAction(plan[i], a)
    ensures Pairwise(ReadsAction, plan[..i + 1], actions + [a])
  {
    PairwiseSnoc(ReadsAction, plan[..i], actions, plan[i], a);
    assert plan[..i] + [plan[i]] == plan[..i + 1];
  }

  predicate Meaningless(p: PlannedAction) {
    Meaning(p.expression).None?
  }

  /** The actions of a plan; None if an expression has no meaning, as the one of `bad`. */
  method ReadPlan(plan: seq<PlannedAction>) returns (r: Option<seq<Action>>, ghost bad: nat)
    ensures r.Some? ==> Pairwise(ReadsAction, plan, r.value)
    ensures r.None? ==> bad < |plan| && Meaningless(plan[bad])
  {
    bad := 0;
    var actions: seq<Action> := [];
    for i := 0 to |plan|
      invariant Pairwise(ReadsAction, plan[..i], actions)
    {
      var a := ReadAction(plan[i]);
      if a.None? {
        return None, i;
      }
      ReadOneMore(plan, i, actions, a.value);
      actions := actions + [a.value];
    }
    assert plan[..|plan|] == plan;
    r := Some(actions);
  }

  lemma {:induction false} ReadIsWellFormed(plan: seq<PlannedAction>, actions: seq<Action>)
    requires Pairwise(ReadsAction, plan, actions)
    ensures forall i :: 0 <= i < |actions| ==> WellFormed(actions[i].expr)
    ensures forall p :: p in plan ==> !Meaningless(p)
  {
    forall i | 0 <= i < |actions|
      ensures !Meaningless(plan[i]) && WellFormed(actions[i].expr)
    {
      assert ReadsAction(plan[i], actions[i]);
      MeaningIsParsed(plan[i].expression);
    }
  }

  /** Every action executed is the next of the plan, and ran at the first moment at which the triggers fired in its
      graph satisfy its expression. */
  ghost predicate RanInOrder(states: seq<Action>, executed: seq<Execution>) {
    |executed| <= |states|
    && forall i :: 0 <= i < |executed| ==> executed[i].action == i && FirstHolds(states[i].expr, executed[i].trace)
  }

  /** Reads a plan and runs it under any schedule; null if an expression has no meaning. Only an action whose own triggers
      can abort its graph can have ended the process. */
  method RunPlan(plan: seq<PlannedAction>, schedule: seq<Choice>) returns (m: Machine?, ghost views: seq<View>)
    ensures m == null <==> exists p :: p in plan && Meaningless(p)
    ensures m != null ==> fresh(m) && m.Valid() && Pairwise(ReadsAction, plan, m.states)
    ensures m != null && !m.aborted ==> m.released == Channels(schedule) && RanInOrder(m.states, m.executed)
    ensures m != null && !m.aborted ==>
              IsRun(m.states, views, schedule) && IsStart(views[0]) && views[|schedule|] == m.Seen()
    ensures m != null && !m.aborted ==> NoneMissed(m.states, views, schedule) && OnTime(m.states, views, schedule)
    ensures m != null && m.aborted ==>
              exists i :: 0 <= i < |m.states| && MayAbort(m.states[i])
  {
    var actions, bad := ReadPlan(plan);
    if actions.None? {
      return null, [];
    }
    ReadIsWellFormed(plan, actions.value);
    m := new Machine(actions.value);
    views := m.Run(schedule);
    if !m.aborted {
      RanAll(m);
    }
  }

  lemma {:induction false} RanAll(m: Machine)
    requires m.Valid() && !m.aborted
    ensures RanInOrder(m.states, m.executed)
  {
    forall i | 0 <= i < |m.executed|
      ensures m.executed[i].action == i && FirstHolds(m.states[i].expr, m.executed[i].trace)
    {
      assert RanInTime(m.states[i], m.graphs[i], i, m.executed[i]);
    }
  }
}
