/** Exactly when the triggers that a plan defines can abort its graph. */
module TriggerAborts {
  import opened TriggerExpr
  import opened TriggerGraph
  import opened TriggerSteps
  import opened TriggerMeaning
  import opened TriggerRuns

  /** Calls as the state machine makes them: each names something defined that is to be satisfied, and none is made once
      the graph is full or has aborted. */
  predicate DrivenFrom(e: Expr, defined: set<string>, s: Progress, xs: seq<string>)
    decreases |xs|
  {
    xs == [] ||
    (xs[0] in defined && xs[0] in s.toSatisfy && SinkName(e) !in s.satisfied
     && match Fire(Compile(e), xs[0], true, s)
        case None => |xs| == 1
        case Some(t) => DrivenFrom(e, defined, t, xs[1..]))
  }

  /** The expression can be satisfied by triggers that are defined. */
  predicate Completable(e: Expr, defined: set<string>) {
    match e
    case Lit(n) => n in defined
    case Bin(op, l, r) =>
      if op.Or? then Completable(l, defined) || Completable(r, defined) else Completable(l, defined) && Completable(r, defined)
  }

  /** Both branches of a `|` outside tail position can be satisfied, or a definition bears the name of an `&` node of
      which an operand can be satisfied; in a place that can be reached. */
  predicate CanAbort(e: Expr, defined: set<string>, tail: bool) {
    match e
    case Lit(_) => false
    case Bin(Or, l, r) =>
      (!tail && Completable(l, defined) && Completable(r, defined)) || CanAbort(l, defined, tail) || CanAbort(r, defined, tail)
    case Bin(And, l, r) =>
      CanAbort(l, defined, false) || CanAbort(r, defined, false)
      || (ComposedName(e) in defined && (Completable(l, defined) || Completable(r, defined)))
    case Bin(Seq, l, r) => CanAbort(l, defined, false) || (Completable(l, defined) && CanAbort(r, defined, tail))
  }

  // ----- An abort has its reason -----

  lemma {:induction false} DoneIsCompletable(e: Expr, defined: set<string>, f: Fired)
    requires Done(e, f) && f <= defined
    ensures Completable(e, defined)
  {
    if e.Bin? {
      if Done(e.left, f) {
        DoneIsCompletable(e.left, defined, f);
      }
      if Done(e.right, f) {
        DoneIsCompletable(e.right, defined, f);
      }
    }
  }

  lemma {:induction false} CollisionCanAbort(e: Expr, defined: set<string>, f: Fired, on: bool, x: string, tail: bool)
    requires WellFormed(e) && x in Ready(e, f, on) && f + {x} <= defined && Collides(e, f, x) && (tail ==> !Done(e, f))
    ensures CanAbort(e, defined, tail)
  {
    var l, r := e.left, e.right;
    ReadyFacts(l, f, on);
    ReadyFacts(r, f, RightOn(e, f, on));
    if e.op.Or? && !tail && Done(l, f + {x}) && Done(r, f + {x}) {
      DoneIsCompletable(l, defined, f + {x});
      DoneIsCompletable(r, defined, f + {x});
    }
    DoneGrows(l, f, f + {x});
    DoneGrows(r, f, f + {x});
    if x in Leaves(l) && Collides(l, f, x) {
      CollisionCanAbort(l, defined, f, on, x, tail && e.op.Or?);
    } else if x !in Leaves(l) && Collides(r, f, x) {
      if e.op.Seq? {
        DoneIsCompletable(l, defined, f);
      }
      CollisionCanAbort(r, defined, f, RightOn(e, f, on), x, tail && !e.op.And?);
    }
  }

  lemma {:induction false} NotStarted(e: Expr, f: Fired)
    requires Legal(e, f, false)
    ensures !Done(e, f) && HalfDone(e, f) == {}
  {
    if e.Bin? {
      NotStarted(e.left, f);
      NotStarted(e.right, f);
    }
  }

  lemma {:induction false} HalfDoneCanAbort(e: Expr, defined: set<string>, f: Fired, on: bool, n: string, tail: bool)
    requires Legal(e, f, on) && f <= defined && n in HalfDone(e, f) && n in defined
    ensures CanAbort(e, defined, tail)
  {
    var l, r := e.left, e.right;
    if n in HalfDone(l, f) {
      HalfDoneCanAbort(l, defined, f, on, n, tail && e.op.Or?);
    } else if n in HalfDone(r, f) {
      if e.op.Seq? && !Done(l, f) {
        NotStarted(r, f);
      }
      if Done(l, f) {
        DoneIsCompletable(l, defined, f);
      }
      HalfDoneCanAbort(r, defined, f, RightOn(e, f, on), n, tail && !e.op.And?);
    } else {
      DoneIsCompletable(if Done(l, f) then l else r, defined, f);
    }
  }

  /** A call on something defined aborts only if the definitions can abort the graph. */
  lemma {:induction false} AbortHasReason(e: Expr, defined: set<string>, f: Fired, x: string)
    requires WellFormed(e) && Legal(e, f, true) && !Done(e, f) && f <= defined && x in defined
    requires x in Part(e, f, true).toSatisfy && Fire(Compile(e), x, true, Part(e, f, true)).None?
    ensures CanAbort(e, defined, true)
  {
    PartSplits(e, f, true);
    FireMeaning(e, f, x);
    if x in Ready(e, f, true) {
      CollisionCanAbort(e, defined, f, true, x, true);
    } else {
      HalfDoneCanAbort(e, defined, f, true, x, true);
    }
  }

  lemma {:induction false} AbortedRun(e: Expr, defined: set<string>, f: Fired, xs: seq<string>)
    requires WellFormed(e) && Legal(e, f, true) && f <= defined
    requires DrivenFrom(e, defined, Part(e, f, true), xs) && RunFrom(e, Part(e, f, true), xs).None?
    ensures CanAbort(e, defined, true)
    decreases |xs|
  {
    var x := xs[0];
    SinkIsDone(e, f, true);
    FireMeaning(e, f, x);
    if Fire(Compile(e), x, true, Part(e, f, true)).None? {
      AbortHasReason(e, defined, f, x);
    } else {
      AbortedRun(e, defined, f + {x}, xs[1..]);
    }
  }

  // ----- A reason leads to an abort -----

  /** Triggers that complete `e` without ever completing two branches of a `|`. */
  function FinishBy(e: Expr, defined: set<string>): seq<string> {
    match e
    case Lit(n) => [n]
    case Bin(op, l, r) =>
      if !op.Or? then FinishBy(l, defined) + FinishBy(r, defined)
      else if Completable(l, defined) then FinishBy(l, defined)
      else FinishBy(r, defined)
  }

  lemma {:induction false} FinishSecondBranch(e: Expr, f: Fired, on: bool, xs: seq<string>)
    requires WellFormed(e) && e.Bin? && e.op.Or? && !Done(e.left, f) && Finishes(e.right, f, on, xs)
    ensures Finishes(e, f, on, xs)
    decreases |xs|
  {
    if xs != [] {
      ReadyFacts(e.right, f, on);
      Local(e.left, f, f + {xs[0]}, on);
      FinishSecondBranch(e, f + {xs[0]}, on, xs[1..]);
    }
  }

  lemma {:induction false} FinishBoth(e: Expr, f: Fired, xs: seq<string>, ys: seq<string>)
    requires WellFormed(e) && e.Bin? && !e.op.Or? && Finishes(e.left, f, true, xs) && Done(e.left, f + NameSet(xs))
    requires Finishes(e.right, f + NameSet(xs), true, ys) && Done(e.right, f + NameSet(xs) + NameSet(ys))
    ensures Finishes(e, f, true, xs + ys) && Done(e, f + NameSet(xs + ys))
  {
    var g := f + NameSet(xs);
    FinishRight(e, g, true, ys);
    FinishLeft(e, f, true, xs, ys);
    assert f + NameSet(xs + ys) == g + NameSet(ys);
    DoneGrows(e.left, g, g + NameSet(ys));
  }

  lemma {:induction false} FinishByFinishes(e: Expr, defined: set<string>, f: Fired)
    requires WellFormed(e) && Leaves(e) !! f && Completable(e, defined)
    ensures var xs := FinishBy(e, defined);
            NameSet(xs) <= Leaves(e) * defined && xs != [] && Finishes(e, f, true, xs) && Done(e, f + NameSet(xs))
    decreases e
  {
    Untouched(e, f);
    match e
    case Lit(n) =>
      assert FinishBy(e, defined)[1..] == [];
    case Bin(op, l, r) =>
      if !op.Or? {
        FinishByFinishes(l, defined, f);
        FinishByFinishes(r, defined, f + NameSet(FinishBy(l, defined)));
        FinishBoth(e, f, FinishBy(l, defined), FinishBy(r, defined));
        JoinedNames(FinishBy(l, defined), FinishBy(r, defined));
      } else if Completable(l, defined) {
        FinishByFinishes(l, defined, f);
        Untouched(r, f);
        FinishFirstBranch(e, f, true, FinishBy(l, defined));
      } else {
        FinishByFinishes(r, defined, f);
        Untouched(l, f);
        FinishSecondBranch(e, f, true, FinishBy(r, defined));
      }
  }

  /** The last call collides or names a half-done `&` node, the others are harmless; if `open`, then `e` is not done
      before. */
  predicate Fails(e: Expr, f: Fired, on: bool, xs: seq<string>, open: bool)
    decreases |xs|
  {
    xs != [] && (open ==> !Done(e, f))
    && if |xs| == 1 then (xs[0] in Ready(e, f, on) && Collides(e, f, xs[0])) || xs[0] in HalfDone(e, f)
       else xs[0] in Ready(e, f, on) && !Collides(e, f, xs[0]) && Fails(e, f + {xs[0]}, on, xs[1..], open)
  }

  lemma {:induction false} CrashFails(e: Expr, f: Fired, on: bool, xs: seq<string>, open: bool)
    requires Crashes(e, f, on, xs, open)
    ensures Fails(e, f, on, xs, open)
    decreases |xs|
  {
    if |xs| > 1 {
      CrashFails(e, f + {xs[0]}, on, xs[1..], open);
    }
  }

  lemma {:induction false} FailLeft(e: Expr, f: Fired, on: bool, xs: seq<string>, inner: bool, open: bool)
    requires WellFormed(e) && e.Bin? && !Done(e.right, f) && (e.op.Or? && open ==> inner)
    requires Fails(e.left, f, on, xs, inner)
    ensures Fails(e, f, on, xs, open)
    decreases |xs|
  {
    ReadyFacts(e.left, f, on);
    if |xs| > 1 {
      Local(e.right, f, f + {xs[0]}, on);
      FailLeft(e, f + {xs[0]}, on, xs[1..], inner, open);
    }
  }

  lemma {:induction false} FailRight(e: Expr, f: Fired, on: bool, xs: seq<string>, inner: bool, open: bool)
    requires WellFormed(e) && e.Bin? && (Done(e.left, f) <==> e.op.Seq?) && (!e.op.And? && open ==> inner)
    requires Fails(e.right, f, on, xs, inner)
    ensures Fails(e, f, on, xs, open)
    decreases |xs|
  {
    ReadyFacts(e.right, f, on);
    if |xs| > 1 {
      Local(e.left, f, f + {xs[0]}, on);
      FailRight(e, f + {xs[0]}, on, xs[1..], inner, open);
    }
  }

  /** A failure after the left operand has been completed. */
  lemma {:induction false} FailAfterLeft(e: Expr, f: Fired, on: bool, xs: seq<string>, ys: seq<string>, open: bool)
    requires WellFormed(e) && e.Bin? && !Done(e.right, f) && (open ==> !e.op.Or?)
    requires Finishes(e.left, f, on, xs) && Fails(e, f + NameSet(xs), on, ys, open)
    ensures Fails(e, f, on, xs + ys, open)
    decreases |xs|
  {
    if xs == [] {
      assert xs + ys == ys && f + NameSet(xs) == f;
    } else {
      assert (xs + ys)[1..] == xs[1..] + ys;
      ReadyFacts(e.left, f, on);
      ConsSet(xs);
      assert f + {xs[0]} + NameSet(xs[1..]) == f + NameSet(xs);
      Local(e.right, f, f + {xs[0]}, on);
      FailAfterLeft(e, f + {xs[0]}, on, xs[1..], ys, open);
    }
  }

  /** A failure after the right operand of an `&` has been completed, the left one being untouched. */
  lemma {:induction false} FailAfterRight(e: Expr, f: Fired, on: bool, xs: seq<string>, ys: seq<string>, open: bool)
    requires WellFormed(e) && e.Bin? && e.op.And? && !Done(e.left, f)
    requires Finishes(e.right, f, on, xs) && Fails(e, f + NameSet(xs), on, ys, open)
    ensures Fails(e, f, on, xs + ys, open)
    decreases |xs|
  {
    if xs == [] {
      assert xs + ys == ys && f + NameSet(xs) == f;
    } else {
      assert (xs + ys)[1..] == xs[1..] + ys;
      ReadyFacts(e.right, f, on);
      ConsSet(xs);
      assert f + {xs[0]} + NameSet(xs[1..]) == f + NameSet(xs);
      Local(e.left, f, f + {xs[0]}, on);
      FailAfterRight(e, f + {xs[0]}, on, xs[1..], ys, open);
    }
  }

  /** Calls that abort in `e`; if `tail`, then before `e` is done. */
  function ClashBy(e: Expr, defined: set<string>, tail: bool): seq<string> {
    match e
    case Lit(_) => []
    case Bin(Or, l, r) =>
      if !tail && Completable(l, defined) && Completable(r, defined) then FinishBy(l, defined) + FinishBy(r, defined)
      else if CanAbort(l, defined, tail) then ClashBy(l, defined, tail)
      else ClashBy(r, defined, tail)
    case Bin(And, l, r) =>
      if CanAbort(l, defined, false) then ClashBy(l, defined, false)
      else if CanAbort(r, defined, false) then ClashBy(r, defined, false)
      else FinishBy(if Completable(l, defined) then l else r, defined) + [ComposedName(e)]
    case Bin(Seq, l, r) =>
      if CanAbort(l, defined, false) then ClashBy(l, defined, false) else FinishBy(l, defined) + ClashBy(r, defined, tail)
  }

  lemma {:induction false} ClashByFails(e: Expr, defined: set<string>, f: Fired, tail: bool)
    requires WellFormed(e) && Leaves(e) !! f && CanAbort(e, defined, tail)
    ensures Fails(e, f, true, ClashBy(e, defined, tail), tail) && NameSet(ClashBy(e, defined, tail)) <= defined
    decreases e, 1
  {
    Untouched(e.left, f);
    Untouched(e.right, f);
    match e.op
    case And => AndFails(e, defined, f, tail);
    case Or => OrFails(e, defined, f, tail);
    case Seq =>
      var l, r := e.left, e.right;
      if CanAbort(l, defined, false) {
        ClashByFails(l, defined, f, false);
        FailLeft(e, f, true, ClashBy(l, defined, false), false, tail);
      } else {
        var xs, ys := FinishBy(l, defined), ClashBy(r, defined, tail);
        FinishByFinishes(l, defined, f);
        var g := f + NameSet(xs);
        ClashByFails(r, defined, g, tail);
        FailRight(e, g, true, ys, tail, tail);
        FailAfterLeft(e, f, true, xs, ys, tail);
        JoinedNames(xs, ys);
      }
  }

  lemma {:induction false} JoinedNames(xs: seq<string>, ys: seq<string>)
    ensures NameSet(xs + ys) == NameSet(xs) + NameSet(ys)
  {
  }

  lemma {:induction false} OrFails(e: Expr, defined: set<string>, f: Fired, tail: bool)
    requires WellFormed(e) && Leaves(e) !! f && CanAbort(e, defined, tail) && e.Bin? && e.op.Or?
    requires !Done(e.left, f) && !Done(e.right, f)
    ensures Fails(e, f, true, ClashBy(e, defined, tail), tail) && NameSet(ClashBy(e, defined, tail)) <= defined
    decreases e, 0
  {
    var l, r := e.left, e.right;
    if !tail && Completable(l, defined) && Completable(r, defined) {
      var xs, ys := FinishBy(l, defined), FinishBy(r, defined);
      FinishByFinishes(l, defined, f);
      var g := f + NameSet(xs);
      FinishByFinishes(r, defined, g);
      SecondBranchCrashes(e, g, true, ys);
      CrashFails(e, g, true, ys, false);
      FailAfterLeft(e, f, true, xs, ys, false);
      JoinedNames(xs, ys);
    } else if CanAbort(l, defined, tail) {
      ClashByFails(l, defined, f, tail);
      FailLeft(e, f, true, ClashBy(l, defined, tail), tail, tail);
    } else {
      ClashByFails(r, defined, f, tail);
      FailRight(e, f, true, ClashBy(r, defined, tail), tail, tail);
    }
  }

  lemma {:induction false} AndFails(e: Expr, defined: set<string>, f: Fired, tail: bool)
    requires WellFormed(e) && Leaves(e) !! f && CanAbort(e, defined, tail) && e.Bin? && e.op.And?
    requires !Done(e.left, f) && !Done(e.right, f)
    ensures Fails(e, f, true, ClashBy(e, defined, tail), tail) && NameSet(ClashBy(e, defined, tail)) <= defined
    decreases e, 0
  {
    var l, r, n := e.left, e.right, ComposedName(e);
    if CanAbort(l, defined, false) {
      ClashByFails(l, defined, f, false);
      FailLeft(e, f, true, ClashBy(l, defined, false), false, tail);
    } else if CanAbort(r, defined, false) {
      ClashByFails(r, defined, f, false);
      FailRight(e, f, true, ClashBy(r, defined, false), false, tail);
    } else {
      var first := if Completable(l, defined) then l else r;
      var xs := FinishBy(first, defined);
      FinishByFinishes(first, defined, f);
      JoinedNames(xs, [n]);
      HalfDoneFails(e, f, xs, first == l, tail);
    }
  }

  /** One operand of an `&` is completed, and then its node is called. */
  lemma {:induction false} HalfDoneFails(e: Expr, f: Fired, xs: seq<string>, left: bool, open: bool)
    requires WellFormed(e) && e.Bin? && e.op.And? && !Done(e.left, f) && !Done(e.right, f)
    requires var first := if left then e.left else e.right;
             NameSet(xs) <= Leaves(first) && Finishes(first, f, true, xs) && Done(first, f + NameSet(xs))
    ensures Fails(e, f, true, xs + [ComposedName(e)], open)
  {
    var g := f + NameSet(xs);
    if left {
      Local(e.right, f, g, true);
      FailAfterLeft(e, f, true, xs, [ComposedName(e)], open);
    } else {
      Local(e.left, f, g, true);
      FailAfterRight(e, f, true, xs, [ComposedName(e)], open);
    }
  }

  lemma {:induction false} FailIsAbort(e: Expr, defined: set<string>, f: Fired, xs: seq<string>)
    requires WellFormed(e) && Legal(e, f, true) && Fails(e, f, true, xs, true) && NameSet(xs) <= defined
    ensures DrivenFrom(e, defined, Part(e, f, true), xs) && RunFrom(e, Part(e, f, true), xs) == None
    decreases |xs|
  {
    var x := xs[0];
    assert x in NameSet(xs);
    PartSplits(e, f, true);
    SinkIsDone(e, f, true);
    FireMeaning(e, f, x);
    LeavesAreNotHalfDone(e, f);
    ReadyFacts(e, f, true);
    if |xs| > 1 {
      ConsSet(xs);
      FailIsAbort(e, defined, f + {x}, xs[1..]);
    }
  }

  /** The triggers defined can abort the graph, before it is full, if and only if they can satisfy both branches of a `|`
      outside tail position, or one operand of an `&` whose node's name is defined as well. */
  lemma {:induction false} AbortsIff(e: Expr, defined: set<string>)
    requires WellFormed(e)
    ensures (exists xs :: DrivenFrom(e, defined, Initial(e), xs) && RunFrom(e, Initial(e), xs).None?) <==> CanAbort(e, defined, true)
  {
    InitialIsUntouched(e);
    if CanAbort(e, defined, true) {
      ClashByFails(e, defined, {}, true);
      FailIsAbort(e, defined, {}, ClashBy(e, defined, true));
    }
    if xs :| DrivenFrom(e, defined, Initial(e), xs) && RunFrom(e, Initial(e), xs).None? {
      AbortedRun(e, defined, {}, xs);
    }
  }
}
