/** Whole runs of a compiled trigger graph. */
module TriggerRuns {
  import opened TriggerExpr
  import opened TriggerGraph
  import opened TriggerSteps
  import opened TriggerMeaning

  // ----- Any sequence of trigger calls -----

  /** The graph of `e` after the trigger calls `xs`, or None once one of them aborted. */
  function Run(e: Expr, xs: seq<string>): Option<Progress> {
    RunFrom(e, Initial(e), xs)
  }

  function RunFrom(e: Expr, s: Progress, xs: seq<string>): Option<Progress>
    decreases |xs|
  {
    if xs == [] then Some(s)
    else
      match Fire(Compile(e), xs[0], true, s)
      case None => None
      case Some(t) => RunFrom(e, t, xs[1..])
  }

  function NameSet(xs: seq<string>): set<string> {
    set x | x in xs
  }

  lemma {:induction false} InitialIsUntouched(e: Expr)
    ensures Legal(e, {}, true) && Initial(e) == Part(e, {}, true)
  {
    Untouched(e, {});
  }

  /** One trigger call on a graph whose fired literals are `f`: it aborts unless the literal is
      ready and does not complete a `|` for the second time. */
  lemma {:induction false} FireMeaning(e: Expr, f: Fired, x: string)
    requires WellFormed(e) && Legal(e, f, true)
    ensures Fire(Compile(e), x, true, Part(e, f, true))
         == if x in Ready(e, f, true) && !Collides(e, f, x) then Some(Part(e, f + {x}, true)) else None
    ensures x in Ready(e, f, true) ==> Legal(e, f + {x}, true)
  {
    if x in Ready(e, f, true) {
      FireReady(e, f, x);
    } else if x in Leaves(e) {
      PartSplits(e, f, true);
      LeavesAreNotHalfDone(e, f);
    } else {
      FireNonLiteral(e, x, Part(e, f, true));
    }
  }

  lemma {:induction false} FireReady(e: Expr, f: Fired, x: string)
    requires WellFormed(e) && Legal(e, f, true) && x in Ready(e, f, true)
    ensures Fire(Compile(e), x, true, Part(e, f, true)) == if Collides(e, f, x) then None else Some(Part(e, f + {x}, true))
    ensures Legal(e, f + {x}, true)
  {
    var none := Progress({}, {});
    ReadyFacts(e, f, true);
    FireIsStep(e, x, Part(e, f, true));
    PlusNone(Part(e, f, true));
    PlusNone(Part(e, f + {x}, true));
    StepIsMeaning(e, f, true, x, none);
  }

  lemma {:induction false} PlusNone(p: Progress)
    ensures Plus(p, Progress({}, {})) == p
  {
  }

  lemma {:induction false} LeavesAreNotHalfDone(e: Expr, f: Fired)
    requires WellFormed(e)
    ensures HalfDone(e, f) !! Leaves(e) && HalfDone(e, f) <= NodeNames(e)
  {
    if e.Bin? {
      LeavesAreNotHalfDone(e.left, f);
      LeavesAreNotHalfDone(e.right, f);
      NodeNamesFresh(e);
      PartInside(e.left, f, true);
      PartInside(e.right, f, true);
    }
  }

  lemma {:induction false} ConsSet(xs: seq<string>)
    requires xs != []
    ensures NameSet(xs) == {xs[0]} + NameSet(xs[1..])
  {
    assert xs == [xs[0]] + xs[1..];
  }

  lemma {:induction false} RunFromMeaning(e: Expr, f: Fired, xs: seq<string>)
    requires WellFormed(e) && Legal(e, f, true) && RunFrom(e, Part(e, f, true), xs).Some?
    ensures Legal(e, f + NameSet(xs), true) && RunFrom(e, Part(e, f, true), xs).value == Part(e, f + NameSet(xs), true)
    decreases |xs|
  {
    if xs == [] {
      assert f + NameSet(xs) == f;
    } else {
      FireMeaning(e, f, xs[0]);
      RunFromMeaning(e, f + {xs[0]}, xs[1..]);
      ConsSet(xs);
      assert f + {xs[0]} + NameSet(xs[1..]) == f + NameSet(xs);
    }
  }

  /** Compiled graph means the expression: after any run that has not aborted, the literals to satisfy
      are those ready, the composites to satisfy are the half-done `&` nodes, the satisfied nodes are
      those whose subexpression is done, and the sink is satisfied iff the whole expression is done. */
  lemma {:induction false} RunMeaning(e: Expr, xs: seq<string>)
    requires WellFormed(e) && Run(e, xs).Some?
    ensures var f, s := NameSet(xs), Run(e, xs).value;
            Legal(e, f, true)
            && s.toSatisfy == Ready(e, f, true) + HalfDone(e, f)
            && s.satisfied == DoneNodes(e, f)
            && (SinkName(e) in s.satisfied <==> Done(e, f))
  {
    var f := NameSet(xs);
    InitialIsUntouched(e);
    RunFromMeaning(e, {}, xs);
    assert {} + f == f;
    PartSplits(e, f, true);
    SinkIsDone(e, f, true);
  }

  // ----- Sequences of events, as the state machine feeds them -----

  /** Events whose literal is not to be satisfied are skipped. */
  function Observe(e: Expr, events: seq<string>): Option<Progress> {
    if events == [] then Some(Initial(e))
    else
      match Observe(e, events[..|events| - 1])
      case None => None
      case Some(s) =>
        var x := events[|events| - 1];
        if x in s.toSatisfy && x in Leaves(e) then Fire(Compile(e), x, true, s) else Some(s)
  }

  /** The meaning of an expression as a property of a sequence of events. */
  ghost predicate Holds(e: Expr, events: seq<string>)
    decreases e
  {
    match e
    case Lit(n) => n in events
    case Bin(And, l, r) => Holds(l, events) && Holds(r, events)
    case Bin(Or, l, r) => Holds(l, events) || Holds(r, events)
    case Bin(Seq, l, r) => exists k :: 0 <= k <= |events| && Holds(l, events[..k]) && Holds(r, events[k..])
  }

  /** The literals that fire when the events are offered one by one. */
  function Accepted(e: Expr, events: seq<string>): Fired {
    if events == [] then {}
    else
      var f := Accepted(e, events[..|events| - 1]);
      if events[|events| - 1] in Ready(e, f, true) then f + {events[|events| - 1]} else f
  }

  lemma {:induction false} ReadyOfOperand(e: Expr, f: Fired, x: string)
    requires WellFormed(e) && e.Bin?
    ensures x in Leaves(e.left) ==> (x in Ready(e, f, true) <==> x in Ready(e.left, f, true))
    ensures x in Leaves(e.right) ==> (x in Ready(e, f, true) <==> x in Ready(e.right, f, RightOn(e, f, true)))
  {
    ReadyFacts(e.left, f, true);
    ReadyFacts(e.right, f, RightOn(e, f, true));
  }

  /** What the left operand (or either operand of `&` and `|`) accepts does not depend on its sibling. */
  lemma {:induction false} AcceptedByOperand(e: Expr, events: seq<string>)
    requires WellFormed(e) && e.Bin?
    ensures AgreeOn(e.left, Accepted(e, events), Accepted(e.left, events))
    ensures !e.op.Seq? ==> AgreeOn(e.right, Accepted(e, events), Accepted(e.right, events))
    decreases |events|
  {
    if events != [] {
      var before, x := events[..|events| - 1], events[|events| - 1];
      var f := Accepted(e, before);
      AcceptedByOperand(e, before);
      ReadyOfOperand(e, f, x);
      Local(e.left, f, Accepted(e.left, before), true);
      ReadyFacts(e, f, true);
      ReadyFacts(e.left, Accepted(e.left, before), true);
      if !e.op.Seq? {
        Local(e.right, f, Accepted(e.right, before), true);
        ReadyFacts(e.right, Accepted(e.right, before), true);
      }
    }
  }

  /** The number of events after which `e` is first done; all of them if it never is. */
  function FirstDone(e: Expr, events: seq<string>): (k: nat)
    ensures k <= |events|
  {
    if events != [] && Done(e, Accepted(e, events[..|events| - 1])) then FirstDone(e, events[..|events| - 1]) else |events|
  }

  lemma {:induction false} FirstDoneFacts(e: Expr, events: seq<string>, k: nat)
    requires k <= |events| && Done(e, Accepted(e, events[..k]))
    ensures FirstDone(e, events) <= k
    ensures Done(e, Accepted(e, events[..FirstDone(e, events)]))
    decreases |events|
  {
    assert events[..|events|] == events;
    if events != [] {
      var before := events[..|events| - 1];
      if k < |events| {
        assert before[..k] == events[..k];
        FirstDoneFacts(e, before, k);
        AcceptedGrows(e, events, k, |events| - 1);
        DoneGrows(e, Accepted(e, events[..k]), Accepted(e, before));
        assert before[..FirstDone(e, before)] == events[..FirstDone(e, events)];
      } else if Done(e, Accepted(e, before)) {
        assert before[..|before|] == before;
        FirstDoneFacts(e, before, |before|);
        assert before[..FirstDone(e, before)] == events[..FirstDone(e, events)];
      }
    }
  }

  lemma {:induction false} AcceptedGrows(e: Expr, events: seq<string>, i: nat, j: nat)
    requires i <= j <= |events|
    ensures Accepted(e, events[..i]) <= Accepted(e, events[..j])
    decreases j - i
  {
    if i < j {
      AcceptedGrows(e, events, i, j - 1);
      assert events[..j][..j - 1] == events[..j - 1];
    }
  }

  /** The right operand of `;` accepts from the point where the left one is done. */
  lemma {:induction false} AcceptedBySequel(e: Expr, events: seq<string>)
    requires WellFormed(e) && e.Bin? && e.op.Seq?
    ensures AgreeOn(e.right, Accepted(e, events),
              if Done(e.left, Accepted(e.left, events)) then Accepted(e.right, events[FirstDone(e.left, events)..]) else {})
    decreases |events|
  {
    if events != [] {
      var before, x := events[..|events| - 1], events[|events| - 1];
      var f := Accepted(e, before);
      AcceptedBySequel(e, before);
      AcceptedByOperand(e, before);
      Local(e.left, f, Accepted(e.left, before), true);
      ReadyOfOperand(e, f, x);
      ReadyFacts(e, f, true);
      if Done(e.left, f) {
        SequelGoesOn(e, events);
      } else {
        ReadyFacts(e.right, f, false);
        assert events[|events|..] == [];
      }
    }
  }

  lemma {:induction false} SequelGoesOn(e: Expr, events: seq<string>)
    requires WellFormed(e) && e.Bin? && e.op.Seq? && events != []
    requires var before := events[..|events| - 1];
             Done(e.left, Accepted(e, before)) && Done(e.left, Accepted(e.left, before))
             && AgreeOn(e.right, Accepted(e, before), Accepted(e.right, before[FirstDone(e.left, before)..]))
    ensures Done(e.left, Accepted(e.left, events))
    ensures AgreeOn(e.right, Accepted(e, events), Accepted(e.right, events[FirstDone(e.left, events)..]))
  {
    var before, x := events[..|events| - 1], events[|events| - 1];
    var f, k := Accepted(e, before), FirstDone(e.left, before);
    var g := Accepted(e.right, before[k..]);
    assert Accepted(e.right, events[k..]) == if x in Ready(e.right, g, true) then g + {x} else g by {
      assert events[k..][..|events[k..]| - 1] == before[k..] && events[k..][|events[k..]| - 1] == x;
    }
    ReadyFacts(e.right, g, true);
    assert x in Leaves(e.right) ==> (x in Ready(e, f, true) <==> x in Ready(e.right, g, true)) by {
      Local(e.right, f, g, true);
      ReadyOfOperand(e, f, x);
    }
    DoneGrows(e.left, Accepted(e.left, before), Accepted(e.left, events));
  }

  lemma {:induction false} HoldsAfterMore(e: Expr, more: seq<string>, events: seq<string>)
    requires Holds(e, events)
    ensures Holds(e, more + events)
    decreases e
  {
    if e.Bin? {
      match e.op
      case And => HoldsAfterMore(e.left, more, events); HoldsAfterMore(e.right, more, events);
      case Or => if Holds(e.left, events) { HoldsAfterMore(e.left, more, events); } else { HoldsAfterMore(e.right, more, events); }
      case Seq =>
        var k :| 0 <= k <= |events| && Holds(e.left, events[..k]) && Holds(e.right, events[k..]);
        HoldsAfterMore(e.left, more, events[..k]);
        var j := |more| + k;
        assert (more + events)[..j] == more + events[..k] && (more + events)[j..] == events[k..];
    }
  }

  /** Offering events one by one recognises the declarative meaning. */
  lemma {:induction false} AcceptedIsHolds(e: Expr, events: seq<string>)
    requires WellFormed(e)
    ensures Done(e, Accepted(e, events)) <==> Holds(e, events)
    decreases e
  {
    var f := Accepted(e, events);
    match e
    case Lit(n) => AcceptedLiteral(n, events);
    case Bin(op, l, r) =>
      AcceptedByOperand(e, events);
      Local(l, f, Accepted(l, events), true);
      AcceptedIsHolds(l, events);
      if op.Seq? {
        SequenceIsHolds(e, events);
      } else {
        Local(r, f, Accepted(r, events), true);
        AcceptedIsHolds(r, events);
      }
  }

  lemma {:induction false} AcceptedLiteral(n: string, events: seq<string>)
    ensures n in Accepted(Lit(n), events) <==> n in events
    decreases |events|
  {
    if events != [] {
      AcceptedLiteral(n, events[..|events| - 1]);
      assert events == events[..|events| - 1] + [events[|events| - 1]];
    }
  }

  lemma {:induction false} SequenceIsHolds(e: Expr, events: seq<string>)
    requires WellFormed(e) && e.Bin? && e.op.Seq?
    ensures Done(e, Accepted(e, events)) <==> Holds(e, events)
    decreases e, 0
  {
    var l, r, f, k := e.left, e.right, Accepted(e, events), FirstDone(e.left, events);
    AcceptedByOperand(e, events);
    Local(l, f, Accepted(l, events), true);
    AcceptedBySequel(e, events);
    if Done(l, f) {
      assert events[..|events|] == events;
      FirstDoneFacts(l, events, |events|);
      AcceptedIsHolds(l, events[..k]);
      AcceptedIsHolds(r, events[k..]);
      Local(r, f, Accepted(r, events[k..]), true);
    }
    if Holds(e, events) {
      var j :| 0 <= j <= |events| && Holds(l, events[..j]) && Holds(r, events[j..]);
      AcceptedIsHolds(l, events[..j]);
      EarliestIsEnough(l, r, events, j);
    }
  }

  /** If the left is done after `j` events and the rest satisfies the right, so does what follows the
      first point where the left is done. */
  lemma {:induction false} EarliestIsEnough(l: Expr, r: Expr, events: seq<string>, j: nat)
    requires j <= |events| && Done(l, Accepted(l, events[..j])) && Holds(r, events[j..])
    ensures Done(l, Accepted(l, events)) && Holds(r, events[FirstDone(l, events)..])
  {
    var k := FirstDone(l, events);
    assert events[..|events|] == events;
    FirstDoneFacts(l, events, j);
    AcceptedGrows(l, events, j, |events|);
    DoneGrows(l, Accepted(l, events[..j]), Accepted(l, events));
    HoldsAfterMore(r, events[k..j], events[j..]);
    assert events[k..] == events[k..j] + events[j..];
  }

  /** After any sequence of events that has not aborted the graph, it is fully triggered iff the
      events satisfy the expression. */
  lemma {:induction false} ObserveMeaning(e: Expr, events: seq<string>)
    requires WellFormed(e) && Observe(e, events).Some?
    ensures Legal(e, Accepted(e, events), true)
    ensures Observe(e, events).value == Part(e, Accepted(e, events), true)
    ensures SinkName(e) in Observe(e, events).value.satisfied <==> Holds(e, events)
    decreases |events|
  {
    var f := Accepted(e, events);
    if events == [] {
      InitialIsUntouched(e);
    } else {
      var g := Accepted(e, events[..|events| - 1]);
      ObserveMeaning(e, events[..|events| - 1]);
      FireMeaning(e, g, events[|events| - 1]);
      PartSplits(e, g, true);
      LeavesAreNotHalfDone(e, g);
      ReadyFacts(e, g, true);
    }
    SinkIsDone(e, f, true);
    AcceptedIsHolds(e, events);
  }

  lemma {:induction false} ObserveSnoc(e: Expr, events: seq<string>, x: string)
    requires Observe(e, events).Some?
    ensures Observe(e, events + [x]) ==
            var t := Observe(e, events).value;
            if x in t.toSatisfy && x in Leaves(e) then Fire(Compile(e), x, true, t) else Some(t)
  {
    assert (events + [x])[..|events + [x]| - 1] == events;
  }

  /** None of the first `k` moments satisfies the expression. */
  ghost predicate NoneBefore(e: Expr, events: seq<string>, k: nat)
    requires k <= |events| + 1
  {
    forall j :: 0 <= j < k ==> !Holds(e, events[..j])
  }

  /** The events satisfy the expression with the last one, and not before. */
  ghost predicate FirstHolds(e: Expr, events: seq<string>) {
    Holds(e, events) && NoneBefore(e, events, |events|)
  }

  lemma {:induction false} MomentPassed(e: Expr, events: seq<string>, x: string)
    requires NoneBefore(e, events, |events|) && !Holds(e, events)
    ensures NoneBefore(e, events + [x], |events + [x]|)
  {
    forall j | 0 <= j < |events + [x]| ensures !Holds(e, (events + [x])[..j]) {
      assert (events + [x])[..j] == events[..j];
      assert j == |events| ==> events[..j] == events;
    }
  }

  // ----- When a run can abort -----

  /** Every `|` is in tail position: completing it completes the whole expression at once. */
  predicate OrsInTail(e: Expr, tail: bool) {
    match e
    case Lit(_) => true
    case Bin(Or, l, r) => tail && OrsInTail(l, true) && OrsInTail(r, true)
    case Bin(And, l, r) => OrsInTail(l, false) && OrsInTail(r, false)
    case Bin(Seq, l, r) => OrsInTail(l, false) && OrsInTail(r, tail)
  }

  /** A run as the state machine drives it: each call names a literal to be satisfied, no call is made
      once the graph is fully triggered, and none after an abort. */
  predicate LegalRun(e: Expr, xs: seq<string>) {
    LegalFrom(e, Initial(e), xs)
  }

  predicate LegalFrom(e: Expr, s: Progress, xs: seq<string>)
    decreases |xs|
  {
    xs == [] ||
    (xs[0] in Leaves(e) && xs[0] in s.toSatisfy && SinkName(e) !in s.satisfied
     && match Fire(Compile(e), xs[0], true, s)
        case None => |xs| == 1
        case Some(t) => LegalFrom(e, t, xs[1..]))
  }

  lemma {:induction false} NoCollisionInTail(e: Expr, f: Fired, on: bool, x: string, tail: bool)
    requires WellFormed(e) && OrsInTail(e, tail) && x in Ready(e, f, on)
    requires tail ==> !Done(e, f)
    ensures !Collides(e, f, x)
  {
    if e.Bin? {
      ReadyFacts(e.left, f, on);
      ReadyFacts(e.right, f, RightOn(e, f, on));
      var inner := tail && !e.op.And?;
      if x in Leaves(e.left) {
        NoCollisionInTail(e.left, f, on, x, inner && e.op.Or?);
      } else {
        NoCollisionInTail(e.right, f, RightOn(e, f, on), x, inner);
      }
    }
  }

  /** The literals that complete `e` without ever completing two branches of a `|`. */
  function Finish(e: Expr): seq<string> {
    match e
    case Lit(n) => [n]
    case Bin(op, l, r) => if op.Or? then Finish(l) else Finish(l) + Finish(r)
  }

  /** A run that aborts in `e`; if `tail`, then before `e` is done. */
  function Clash(e: Expr, tail: bool): seq<string> {
    match e
    case Lit(_) => []
    case Bin(Or, l, r) =>
      if !tail then Finish(l) + Finish(r) else if !OrsInTail(l, true) then Clash(l, true) else Clash(r, true)
    case Bin(And, l, r) => if !OrsInTail(l, false) then Clash(l, false) else Clash(r, false)
    case Bin(Seq, l, r) => if !OrsInTail(l, false) then Clash(l, false) else Finish(l) + Clash(r, tail)
  }

  /** The names fire in turn without colliding, and `e` is done exactly at the end. */
  predicate Finishes(e: Expr, f: Fired, on: bool, xs: seq<string>)
    decreases |xs|
  {
    if xs == [] then Done(e, f)
    else !Done(e, f) && xs[0] in Ready(e, f, on) && !Collides(e, f, xs[0]) && Finishes(e, f + {xs[0]}, on, xs[1..])
  }

  /** The last name collides, the others do not; if `open`, then `e` is not done before. */
  predicate Crashes(e: Expr, f: Fired, on: bool, xs: seq<string>, open: bool)
    decreases |xs|
  {
    xs != [] && xs[0] in Ready(e, f, on) && (open ==> !Done(e, f))
    && if |xs| == 1 then Collides(e, f, xs[0])
       else !Collides(e, f, xs[0]) && Crashes(e, f + {xs[0]}, on, xs[1..], open)
  }

  /** First the left operand of `;` or `&`, then the rest. */
  lemma {:induction false} FinishLeft(e: Expr, f: Fired, on: bool, xs: seq<string>, ys: seq<string>)
    requires WellFormed(e) && e.Bin? && !e.op.Or?
    requires Finishes(e.left, f, on, xs) && Finishes(e, f + NameSet(xs), on, ys)
    ensures Finishes(e, f, on, xs + ys)
    decreases |xs|
  {
    if xs == [] {
      assert xs + ys == ys && f + NameSet(xs) == f;
    } else {
      assert (xs + ys)[1..] == xs[1..] + ys;
      ReadyFacts(e.left, f, on);
      ConsSet(xs);
      assert f + {xs[0]} + NameSet(xs[1..]) == f + NameSet(xs);
      FinishLeft(e, f + {xs[0]}, on, xs[1..], ys);
    }
  }

  lemma {:induction false} FinishRight(e: Expr, f: Fired, on: bool, ys: seq<string>)
    requires WellFormed(e) && e.Bin? && !e.op.Or? && Done(e.left, f) && Finishes(e.right, f, on, ys)
    ensures Finishes(e, f, on, ys)
    decreases |ys|
  {
    if ys != [] {
      ReadyFacts(e.right, f, on);
      DoneGrows(e.left, f, f + {ys[0]});
      FinishRight(e, f + {ys[0]}, on, ys[1..]);
    }
  }

  lemma {:induction false} FinishFirstBranch(e: Expr, f: Fired, on: bool, xs: seq<string>)
    requires WellFormed(e) && e.Bin? && e.op.Or? && !Done(e.right, f) && Finishes(e.left, f, on, xs)
    ensures Finishes(e, f, on, xs)
    decreases |xs|
  {
    if xs != [] {
      ReadyFacts(e.left, f, on);
      Local(e.right, f, f + {xs[0]}, on);
      FinishFirstBranch(e, f + {xs[0]}, on, xs[1..]);
    }
  }

  lemma {:induction false} FinishFinishes(e: Expr, f: Fired)
    requires WellFormed(e) && Leaves(e) !! f
    ensures NameSet(Finish(e)) <= Leaves(e) && Finish(e) != []
    ensures Finishes(e, f, true, Finish(e)) && Done(e, f + NameSet(Finish(e)))
    decreases e
  {
    Untouched(e, f);
    match e
    case Lit(n) =>
      assert Finish(e)[1..] == [];
    case Bin(op, l, r) =>
      FinishFinishes(l, f);
      if op.Or? {
        Untouched(r, f);
        FinishFirstBranch(e, f, true, Finish(l));
      } else {
        var g := f + NameSet(Finish(l));
        FinishFinishes(r, g);
        FinishRight(e, g, true, Finish(r));
        FinishLeft(e, f, true, Finish(l), Finish(r));
        DoneGrows(l, g, f + NameSet(Finish(e)));
        assert f + NameSet(Finish(e)) == g + NameSet(Finish(r));
      }
  }

  lemma {:induction false} CrashLeft(e: Expr, f: Fired, on: bool, xs: seq<string>, inner: bool, open: bool)
    requires WellFormed(e) && e.Bin? && !Done(e.right, f) && (e.op.Or? && open ==> inner)
    requires Crashes(e.left, f, on, xs, inner)
    ensures Crashes(e, f, on, xs, open)
    decreases |xs|
  {
    ReadyFacts(e.left, f, on);
    Local(e.right, f, f + {xs[0]}, on);
    if |xs| > 1 {
      CrashLeft(e, f + {xs[0]}, on, xs[1..], inner, open);
    }
  }

  lemma {:induction false} CrashRight(e: Expr, f: Fired, on: bool, xs: seq<string>, inner: bool, open: bool)
    requires WellFormed(e) && e.Bin? && (Done(e.left, f) <==> e.op.Seq?) && (!e.op.And? && open ==> inner)
    requires Crashes(e.right, f, on, xs, inner)
    ensures Crashes(e, f, on, xs, open)
    decreases |xs|
  {
    ReadyFacts(e.right, f, on);
    Local(e.left, f, f + {xs[0]}, on);
    if |xs| > 1 {
      CrashRight(e, f + {xs[0]}, on, xs[1..], inner, open);
    }
  }

  /** A crash after the left operand has been completed. */
  lemma {:induction false} CrashAfterLeft(e: Expr, f: Fired, on: bool, xs: seq<string>, ys: seq<string>, open: bool)
    requires WellFormed(e) && e.Bin? && !Done(e.right, f) && (open ==> !e.op.Or?)
    requires Finishes(e.left, f, on, xs) && Crashes(e, f + NameSet(xs), on, ys, open)
    ensures Crashes(e, f, on, xs + ys, open)
    decreases |xs|
  {
    if xs == [] {
      assert xs + ys == ys && f + NameSet(xs) == f;
    } else {
      assert (xs + ys)[1..] == xs[1..] + ys;
      ReadyFacts(e.left, f, on);
      ConsSet(xs);
      assert f + {xs[0]} + NameSet(xs[1..]) == f + NameSet(xs);
      Local(e.right, f, f + {xs[0]}, on);
      CrashAfterLeft(e, f + {xs[0]}, on, xs[1..], ys, open);
    }
  }

  /** Completing the second branch of a `|` whose first branch is done. */
  lemma {:induction false} SecondBranchCrashes(e: Expr, f: Fired, on: bool, ys: seq<string>)
    requires WellFormed(e) && e.Bin? && e.op.Or? && Done(e.left, f) && ys != [] && Finishes(e.right, f, on, ys)
    ensures Crashes(e, f, on, ys, false)
    decreases |ys|
  {
    ReadyFacts(e.right, f, on);
    DoneGrows(e.left, f, f + {ys[0]});
    if |ys| > 1 {
      SecondBranchCrashes(e, f + {ys[0]}, on, ys[1..]);
    } else {
      assert ys[1..] == [];
    }
  }

  lemma {:induction false} ClashCrashes(e: Expr, f: Fired, tail: bool)
    requires WellFormed(e) && Leaves(e) !! f && !OrsInTail(e, tail)
    ensures Crashes(e, f, true, Clash(e, tail), tail)
    decreases e
  {
    var l, r := e.left, e.right;
    Untouched(l, f);
    Untouched(r, f);
    FinishFinishes(l, f);
    var g := f + NameSet(Finish(l));
    match e.op
    case And =>
      if !OrsInTail(l, false) {
        ClashCrashes(l, f, false);
        CrashLeft(e, f, true, Clash(l, false), false, tail);
      } else {
        ClashCrashes(r, f, false);
        CrashRight(e, f, true, Clash(r, false), false, tail);
      }
    case Seq =>
      if !OrsInTail(l, false) {
        ClashCrashes(l, f, false);
        CrashLeft(e, f, true, Clash(l, false), false, tail);
      } else {
        ClashCrashes(r, g, tail);
        CrashRight(e, g, true, Clash(r, tail), tail, tail);
        CrashAfterLeft(e, f, true, Finish(l), Clash(r, tail), tail);
      }
    case Or =>
      if !tail {
        FinishFinishes(r, g);
        SecondBranchCrashes(e, g, true, Finish(r));
        CrashAfterLeft(e, f, true, Finish(l), Finish(r), false);
      } else if !OrsInTail(l, true) {
        ClashCrashes(l, f, true);
        CrashLeft(e, f, true, Clash(l, true), true, true);
      } else {
        ClashCrashes(r, f, true);
        CrashRight(e, f, true, Clash(r, true), true, true);
      }
  }

  /** What a call on a ready literal does, seen from the graph. */
  lemma {:induction false} ReadyCall(e: Expr, f: Fired, x: string)
    requires WellFormed(e) && Legal(e, f, true)
    ensures x in Leaves(e) && x in Part(e, f, true).toSatisfy <==> x in Ready(e, f, true)
    ensures SinkName(e) in Part(e, f, true).satisfied <==> Done(e, f)
  {
    ReadyFacts(e, f, true);
    PartSplits(e, f, true);
    LeavesAreNotHalfDone(e, f);
    SinkIsDone(e, f, true);
  }

  /** A crash of the fired set is an aborting run of the graph. */
  lemma {:induction false} CrashIsAbort(e: Expr, f: Fired, xs: seq<string>)
    requires WellFormed(e) && Legal(e, f, true) && Crashes(e, f, true, xs, true)
    ensures LegalFrom(e, Part(e, f, true), xs) && RunFrom(e, Part(e, f, true), xs) == None
    decreases |xs|
  {
    ReadyCall(e, f, xs[0]);
    FireMeaning(e, f, xs[0]);
    if |xs| > 1 {
      CrashIsAbort(e, f + {xs[0]}, xs[1..]);
    }
  }

  lemma {:induction false} TailRunSucceeds(e: Expr, f: Fired, xs: seq<string>)
    requires WellFormed(e) && OrsInTail(e, true) && Legal(e, f, true) && LegalFrom(e, Part(e, f, true), xs)
    ensures RunFrom(e, Part(e, f, true), xs).Some?
    decreases |xs|
  {
    if xs != [] {
      ReadyCall(e, f, xs[0]);
      NoCollisionInTail(e, f, true, xs[0], true);
      FireMeaning(e, f, xs[0]);
      TailRunSucceeds(e, f + {xs[0]}, xs[1..]);
    }
  }

  /** No run of the graph that stops once it is fully triggered aborts, if and only if every `|` of the
      expression is in tail position. */
  lemma {:induction false} NeverAbortsIffOrsInTail(e: Expr)
    requires WellFormed(e)
    ensures (forall xs :: LegalRun(e, xs) ==> Run(e, xs).Some?) <==> OrsInTail(e, true)
  {
    InitialIsUntouched(e);
    if OrsInTail(e, true) {
      forall xs | LegalRun(e, xs)
        ensures Run(e, xs).Some?
      {
        TailRunSucceeds(e, {}, xs);
      }
    } else {
      ClashCrashes(e, {}, true);
      CrashIsAbort(e, {}, Clash(e, true));
      assert LegalRun(e, Clash(e, true)) && Run(e, Clash(e, true)).None?;
    }
  }

  /** The smallest instance: after `a`, the losing branch `b` of `(a|b);c` is still to be satisfied, and firing it aborts. */
  lemma {:induction false} LosingBranchAborts(a: string, b: string, c: string)
    requires WellFormed(Bin(Seq, Bin(Or, Lit(a), Lit(b)), Lit(c)))
    ensures var e := Bin(Seq, Bin(Or, Lit(a), Lit(b)), Lit(c));
            LegalRun(e, [a, b]) && Run(e, [a, b]) == None
  {
    var e := Bin(Seq, Bin(Or, Lit(a), Lit(b)), Lit(c));
    InitialIsUntouched(e);
    assert Clash(e, true) == [a] + [b];
    ClashCrashes(e, {}, true);
    CrashIsAbort(e, {}, [a, b]);
  }
}
