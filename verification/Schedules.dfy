/** Runs of the state machine seen from outside: what each choice of the scheduler may do, and what
    follows for a whole schedule about the triggers that it brings. */
module Schedules {
  import opened TriggerExpr
  import opened TriggerGraph
  import opened TriggerSteps
  import opened TriggerMeaning
  import opened TriggerRuns

  datatype TriggerDefinition = Timeout | Observed

  /** An action of the plan: its trigger expression, its trigger definitions by name, its mode. */
  datatype Action = Action(expr: Expr, definitions: map<string, TriggerDefinition>, async: bool)

  predicate IsTimeout(a: Action, name: string) {
    name in a.definitions && a.definitions[name].Timeout?
  }

  /** The triggers that a notification of observed ones brings to an action, and those that a timeout does. */
  function ObservedIn(a: Action, hits: set<string>): set<string> {
    set t | t in hits && t in a.definitions && a.definitions[t].Observed?
  }

  function TimedOut(a: Action, name: string): set<string> {
    if IsTimeout(a, name) then {name} else {}
  }

  /** What the environment and the scheduler do: a notification arrives that satisfies the triggers `hits`, a timer wakes
      up, a timeout notification is taken from its channel, an asynchronous action is done. */
  datatype Choice = Notified(hits: set<string>, id: nat) | TimerWakes(name: string) | TimeoutTaken | ActionDone

  /** An action that has run, with the graph it had then, the triggers fired in it, in order, and what it was brought
      since it had become current. */
  datatype Execution = Execution(action: nat, graph: Progress, trace: seq<string>, heard: seq<set<string>>)

  /** What can be seen of the machine. */
  datatype View = View(next: nat, async: bool, waiting: set<string>, fired: set<string>, heard: seq<set<string>>,
                       running: multiset<string>, queue: seq<string>, ran: seq<Execution>)

  predicate IsCurrent(states: seq<Action>, v: View, i: int) {
    v.next == i && i < |states| && !v.async
  }

  /** The current action stays: what was waiting for its triggers has been fired, and nothing else. */
  ghost predicate Waits(v: View, h: set<string>, v': View) {
    v'.ran == v.ran && v'.next == v.next && !v'.async && v'.heard == v.heard + [h]
    && v.fired <= v'.fired <= v.fired + h
    && forall t :: t in v.waiting && t in h && ValidName(t) ==> t in v'.fired
  }

  /** Action `i` has run; the next one is current, unless this one is still being executed. */
  ghost predicate HasRun(states: seq<Action>, i: nat, heard: seq<set<string>>, trace: seq<string>,
                         ran: seq<Execution>, v': View)
    requires i < |states|
  {
    |v'.ran| == |ran| + 1 && v'.ran[..|ran|] == ran && v'.fired == {} && v'.heard == []
    && v'.async == states[i].async && v'.next == (if v'.async then i else i + 1)
    && v'.ran[|ran|].action == i && v'.ran[|ran|].heard == heard && v'.ran[|ran|].trace == trace
  }

  /** The current action runs. */
  ghost predicate Runs(states: seq<Action>, v: View, h: set<string>, v': View)
    requires v.next < |states|
  {
    |v'.ran| > |v.ran|
    && (var trace := v'.ran[|v.ran|].trace;
        HasRun(states, v.next, v.heard + [h], trace, v.ran, v') && NameSet(trace) <= v.fired + h)
  }

  ghost predicate Serves(states: seq<Action>, v: View, h: set<string>, v': View)
    requires v.next < |states|
  {
    v.running <= v'.running && (Waits(v, h, v') || Runs(states, v, h, v'))
  }

  lemma {:induction false} RunServes(states: seq<Action>, v: View, h: set<string>, trace: seq<string>, v': View)
    requires v.next < |states| && HasRun(states, v.next, v.heard + [h], trace, v.ran, v')
    requires NameSet(trace) <= v.fired + h && v.running <= v'.running
    ensures Serves(states, v, h, v')
  {
  }

  lemma {:induction false} ServesWithout(states: seq<Action>, v: View, queue: seq<string>, h: set<string>, v': View)
    requires v.next < |states| && Serves(states, v.(queue := queue), h, v')
    ensures Serves(states, v, h, v')
  {
  }

  /** The triggers that the choice brings to the current action; None if it is no notification. */
  function Brings(states: seq<Action>, v: View, c: Choice): Option<set<string>> {
    if v.next >= |states| || v.async then None
    else
      match c
      case Notified(hits, _) => Some(ObservedIn(states[v.next], hits))
      case TimeoutTaken => if v.queue == [] then None else Some(TimedOut(states[v.next], v.queue[0]))
      case _ => None
  }

  function BroughtBy(states: seq<Action>, v: View, c: Choice): seq<set<string>> {
    match Brings(states, v, c) case None => [] case Some(h) => [h]
  }

  function QueueAfter(v: View, c: Choice): seq<string> {
    match c
    case TimerWakes(name) => if name in v.running then v.queue + [name] else v.queue
    case TimeoutTaken => if v.queue == [] then [] else v.queue[1..]
    case _ => v.queue
  }

  /** What one choice may do. */
  ghost predicate Moves(states: seq<Action>, v: View, c: Choice, v': View) {
    v'.queue == QueueAfter(v, c)
    && match Brings(states, v, c)
       case Some(h) => Serves(states, v, h, v')
       case None =>
         if c.ActionDone? && v.async then
           Finishes(v, v')
         else if c.TimerWakes? && c.name in v.running then
           v' == v.(running := v.running - multiset{c.name}, queue := v'.queue)
         else v' == v.(queue := v'.queue)
  }

  /** An asynchronous action is done: the next one is current. */
  ghost predicate Finishes(v: View, v': View) {
    v'.next == v.next + 1 && !v'.async && v'.fired == {} && v'.heard == [] && v'.ran == v.ran && v.running <= v'.running
    && v'.queue == v.queue
  }

  lemma {:induction false} FinishMoves(states: seq<Action>, v: View, v': View)
    requires v.async && Finishes(v, v')
    ensures Moves(states, v, ActionDone, v')
  {
  }

  lemma {:induction false} ServiceMoves(states: seq<Action>, v: View, c: Choice, h: set<string>, v': View)
    requires Brings(states, v, c) == Some(h) && Serves(states, v, h, v') && v'.queue == QueueAfter(v, c)
    ensures Moves(states, v, c, v')
  {
  }

  /** The views before, between and after the choices of a schedule. */
  ghost predicate IsRun(states: seq<Action>, views: seq<View>, schedule: seq<Choice>) {
    |views| == |schedule| + 1 && forall k :: 0 <= k < |schedule| ==> Moves(states, views[k], schedule[k], views[k + 1])
  }

  /** The choices of a schedule, one more at a time. */
  lemma {:induction false} RunNext(states: seq<Action>, views: seq<View>, schedule: seq<Choice>, k: nat, v: View)
    requires k < |schedule| && IsRun(states, views, schedule[..k]) && Moves(states, views[k], schedule[k], v)
    ensures IsRun(states, views + [v], schedule[..k + 1])
  {
    RunSnoc(states, views, schedule[..k], schedule[k], v);
    assert schedule[..k + 1] == schedule[..k] + [schedule[k]];
  }

  lemma {:induction false} RunSnoc(states: seq<Action>, views: seq<View>, schedule: seq<Choice>, c: Choice, v: View)
    requires IsRun(states, views, schedule) && Moves(states, views[|schedule|], c, v)
    ensures IsRun(states, views + [v], schedule + [c])
  {
    var all, cs := views + [v], schedule + [c];
    forall k | 0 <= k < |cs| ensures Moves(states, all[k], cs[k], all[k + 1]) {
      if k < |schedule| {
        assert all[k] == views[k] && all[k + 1] == views[k + 1] && cs[k] == schedule[k];
      }
    }
  }

  // ----- One name at a time -----

  predicate AllSingle(heard: seq<set<string>>) {
    forall k :: 0 <= k < |heard| ==> |heard[k]| <= 1
  }

  /** The names heard, in order, if every notification brings at most one. */
  ghost function Flat(heard: seq<set<string>>): seq<string> {
    if heard == [] then []
    else
      var h := heard[|heard| - 1];
      Flat(heard[..|heard| - 1]) + if h == {} then [] else var x :| x in h; [x]
  }

  // ----- What follows for a schedule -----

  /** What the choices from number `j` up to number `k` bring to the actions current then. */
  function History(states: seq<Action>, views: seq<View>, schedule: seq<Choice>, j: nat, k: nat): seq<set<string>>
    requires |views| == |schedule| + 1 && k <= |schedule|
    decreases k
  {
    if k <= j then []
    else History(states, views, schedule, j, k - 1) + BroughtBy(states, views[k - 1], schedule[k - 1])
  }

  /** The action becomes current with the view `k`. */
  predicate Becomes(states: seq<Action>, views: seq<View>, k: nat, i: int)
    requires k < |views|
  {
    IsCurrent(states, views[k], i) && (k > 0 ==> !IsCurrent(states, views[k - 1], i))
  }

  lemma {:induction false} NextStays(states: seq<Action>, v: View, c: Choice, v': View)
    requires Moves(states, v, c, v')
    ensures v.next <= v'.next
  {
  }

  /** An action that is current after a choice, and was next before it, was current before it. */
  lemma {:induction false} StaysCurrent(states: seq<Action>, v: View, c: Choice, v': View)
    requires Moves(states, v, c, v') && IsCurrent(states, v', v.next)
    ensures !v.async && v.fired <= v'.fired && v'.ran == v.ran && v'.heard == v.heard + BroughtBy(states, v, c)
  {
  }

  lemma {:induction false} NextGrows(states: seq<Action>, views: seq<View>, schedule: seq<Choice>, j: nat, k: nat)
    requires IsRun(states, views, schedule) && j <= k <= |schedule|
    ensures views[j].next <= views[k].next
    decreases k
  {
    if j < k {
      NextGrows(states, views, schedule, j, k - 1);
      NextStays(states, views[k - 1], schedule[k - 1], views[k]);
    }
  }

  /** While an action is current, it hears everything and forgets nothing. */
  ghost predicate Remembers(v: View, v': View, heard: seq<set<string>>) {
    !v.async && v.fired <= v'.fired && v'.ran == v.ran && v'.heard == v.heard + heard
  }

  lemma {:induction false} HearsAll(states: seq<Action>, views: seq<View>, schedule: seq<Choice>, j: nat, k: nat, i: nat)
    requires IsRun(states, views, schedule) && j <= k <= |schedule|
    requires IsCurrent(states, views[k], i) && views[j].next == i
    ensures Remembers(views[j], views[k], History(states, views, schedule, j, k))
    decreases k
  {
    if j < k {
      NextGrows(states, views, schedule, j, k - 1);
      NextStays(states, views[k - 1], schedule[k - 1], views[k]);
      assert views[k - 1].next == i;
      StaysCurrent(states, views[k - 1], schedule[k - 1], views[k]);
      HearsAll(states, views, schedule, j, k - 1, i);
      RemembersMore(views[j], views[k - 1], views[k], History(states, views, schedule, j, k - 1),
                    BroughtBy(states, views[k - 1], schedule[k - 1]));
    }
  }

  lemma {:induction false} RemembersMore(u: View, v: View, w: View, a: seq<set<string>>,
                                         b: seq<set<string>>)
    requires Remembers(u, v, a) && Remembers(v, w, b)
    ensures Remembers(u, w, a + b)
  {
  }

  /** A view from which a run may start. */
  predicate IsStart(v: View) {
    v.next == 0 && !v.async && v.fired == {} && v.heard == [] && v.ran == []
  }

  /** What an action has heard is what the schedule has brought since it became current. */
  lemma {:induction false} HeardIsHistory(states: seq<Action>, views: seq<View>, schedule: seq<Choice>, j: nat, k: nat,
                                          i: nat)
    requires IsRun(states, views, schedule) && IsStart(views[0]) && j <= k <= |schedule|
    requires Becomes(states, views, j, i) && IsCurrent(states, views[k], i)
    ensures views[k].heard == History(states, views, schedule, j, k)
  {
    HearsAll(states, views, schedule, j, k, i);
    if j > 0 {
      BeginsUnheard(states, views[j - 1], schedule[j - 1], views[j], i);
    }
  }

  lemma {:induction false} BeginsUnheard(states: seq<Action>, v: View, c: Choice, v': View, i: nat)
    requires Moves(states, v, c, v') && IsCurrent(states, v', i) && !IsCurrent(states, v, i)
    ensures v'.heard == []
  {
  }

  /** The notification brings a trigger that is waiting. */
  predicate IsHit(states: seq<Action>, v: View, c: Choice, t: string) {
    c.Notified? && v.next < |states| && !v.async && t in v.waiting && ValidName(t) && t in c.hits
    && t in states[v.next].definitions && states[v.next].definitions[t].Observed?
  }

  /** A trigger that was waiting when a notification brought it has fired, unless its action has run. */
  ghost predicate NoneMissed(states: seq<Action>, views: seq<View>, schedule: seq<Choice>) {
    |views| == |schedule| + 1
    && forall k, t :: 0 <= k < |schedule| && IsHit(states, views[k], schedule[k], t) ==>
         t in views[|schedule|].fired || !IsCurrent(states, views[|schedule|], views[k].next)
  }

  lemma {:induction false} NoneIsMissed(states: seq<Action>, views: seq<View>, schedule: seq<Choice>)
    requires IsRun(states, views, schedule)
    ensures NoneMissed(states, views, schedule)
  {
    var n := |schedule|;
    forall k, t | 0 <= k < n && IsHit(states, views[k], schedule[k], t) && IsCurrent(states, views[n], views[k].next)
      ensures t in views[n].fired
    {
      var i := views[k].next;
      assert Moves(states, views[k], schedule[k], views[k + 1]);
      NextGrows(states, views, schedule, k, k + 1);
      NextGrows(states, views, schedule, k + 1, n);
      HearsAll(states, views, schedule, k + 1, n, i);
    }
  }

  /** The choice after view `k` makes the current action run. */
  predicate RunsAt(views: seq<View>, k: nat)
    requires k + 1 < |views|
  {
    |views[k].ran| < |views[k + 1].ran|
  }

  lemma {:induction false} RanGrows(states: seq<Action>, views: seq<View>, schedule: seq<Choice>, j: nat, k: nat)
    requires IsRun(states, views, schedule) && j <= k <= |schedule|
    ensures views[j].ran <= views[k].ran
    decreases k
  {
    if j < k {
      RanGrows(states, views, schedule, j, k - 1);
      assert Moves(states, views[k - 1], schedule[k - 1], views[k]);
      RanPrefix(states, views[k - 1], schedule[k - 1], views[k]);
    }
  }

  lemma {:induction false} RanPrefix(states: seq<Action>, v: View, c: Choice, v': View)
    requires Moves(states, v, c, v')
    ensures v.ran <= v'.ran
  {
  }

  /** The first moment at which what was heard satisfies the expression. */
  ghost predicate HeardFirst(a: Action, heard: seq<set<string>>) {
    AllSingle(heard) ==> FirstHolds(a.expr, Flat(heard))
  }

  /** Every action has run with the first name that it had to hear. */
  ghost predicate AllInTime(states: seq<Action>, ran: seq<Execution>) {
    forall k :: 0 <= k < |ran| ==> ran[k].action < |states| && HeardFirst(states[ran[k].action], ran[k].heard)
  }

  lemma {:induction false} NextInTime(states: seq<Action>, before: seq<Execution>, ran: seq<Execution>)
    requires AllInTime(states, before) && |ran| == |before| + 1 && ran[..|before|] == before
    requires ran[|before|].action < |states| && HeardFirst(states[ran[|before|].action], ran[|before|].heard)
    ensures AllInTime(states, ran)
  {
    assert forall k :: 0 <= k < |before| ==> ran[k] == before[k];
  }

  ghost predicate HeardNever(a: Action, heard: seq<set<string>>) {
    AllSingle(heard) ==> !Holds(a.expr, Flat(heard))
  }

  /** Where every notification brings at most one trigger: an action runs with the first one that makes what it has been
      brought since it became current satisfy its expression; one that is still current has been brought nothing that
      does. */
  ghost predicate OnTime(states: seq<Action>, views: seq<View>, schedule: seq<Choice>) {
    |views| == |schedule| + 1
    && (forall j, i :: 0 <= j < |views| && Becomes(states, views, j, i) && IsCurrent(states, views[|schedule|], i) ==>
          HeardNever(states[i], History(states, views, schedule, j, |schedule|)))
    && (forall j, k :: 0 <= j <= k < |schedule| && RunsAt(views, k) && Becomes(states, views, j, views[k].next) ==>
          HeardFirst(states[views[k].next], History(states, views, schedule, j, k + 1)))
  }

  lemma {:induction false} RunsOnHistory(states: seq<Action>, views: seq<View>, schedule: seq<Choice>, j: nat, k: nat)
    requires IsRun(states, views, schedule) && IsStart(views[0])
    requires j <= k < |schedule| && RunsAt(views, k) && Becomes(states, views, j, views[k].next)
    ensures var n := |views[k].ran|;
            n < |views[|schedule|].ran|
            && views[|schedule|].ran[n].action == views[k].next
            && views[|schedule|].ran[n].heard == History(states, views, schedule, j, k + 1)
  {
    assert Moves(states, views[k], schedule[k], views[k + 1]);
    HeardIsHistory(states, views, schedule, j, k, views[k].next);
    RanGrows(states, views, schedule, k + 1, |schedule|);
  }

  lemma {:induction false} RunIsOnTime(states: seq<Action>, views: seq<View>, schedule: seq<Choice>)
    requires IsRun(states, views, schedule) && IsStart(views[0])
    requires var last := views[|schedule|];
             AllInTime(states, last.ran)
             && (last.next < |states| && !last.async ==> HeardNever(states[last.next], last.heard))
    ensures OnTime(states, views, schedule)
  {
    var n := |schedule|;
    forall j, i | 0 <= j < |views| && Becomes(states, views, j, i) && IsCurrent(states, views[n], i)
      ensures HeardNever(states[i], History(states, views, schedule, j, n))
    {
      HeardIsHistory(states, views, schedule, j, n, i);
    }
    forall j, k | 0 <= j <= k < n && RunsAt(views, k) && Becomes(states, views, j, views[k].next)
      ensures HeardFirst(states[views[k].next], History(states, views, schedule, j, k + 1))
    {
      RunsOnHistory(states, views, schedule, j, k);
    }
  }
}
