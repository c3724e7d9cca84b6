/** The state machine of the test coordinator: one trigger graph per action of the plan,
    notifications that advance the current graph, synchronous and asynchronous actions,
    and the timers of timeout triggers. */
module StateMachine {
  import opened TriggerExpr
  import opened TriggerGraph
  import opened TriggerSteps
  import opened TriggerMeaning
  import opened TriggerRuns
  import opened TriggerAborts
  import opened Schedules

  /** A notification. Which observed triggers it satisfies is an input (`hits`); `id` names the
      channel on which the notifier blocks, if it does. */
  datatype Notification =
    | TimeoutNotification(name: string)
    | StateNotification(hits: set<string>, id: nat)

  predicate Satisfies(d: TriggerDefinition, name: string, n: Notification) {
    match n
    case TimeoutNotification(t) => d.Timeout? && t == name
    case StateNotification(hits, _) => d.Observed? && name in hits
  }

  /** The triggers that the notification brings to the action. */
  function BroughtTo(a: Action, n: Notification): set<string> {
    match n
    case TimeoutNotification(name) => TimedOut(a, name)
    case StateNotification(hits, _) => ObservedIn(a, hits)
  }

  function BlockingChannel(n: Notification): multiset<nat> {
    if n.StateNotification? then multiset{n.id} else multiset{}
  }

  /** The triggers that the action defines can abort its graph. */
  predicate MayAbort(a: Action) {
    CanAbort(a.expr, a.definitions.Keys, true)
  }

  function Timeouts(a: Action, names: set<string>): set<string> {
    set n | n in names && IsTimeout(a, n)
  }

  ghost predicate IsFull(a: Action, s: Progress) {
    SinkName(a.expr) in s.satisfied
  }

  /** A graph that the trigger calls of `trace` have led to, none of which came after it was full. */
  ghost predicate Reached(a: Action, s: Progress, f: Fired, trace: seq<string>) {
    Legal(a.expr, f, true) && s == Part(a.expr, f, true)
    && Observe(a.expr, trace) == Some(s) && NameSet(trace) == f && NoneBefore(a.expr, trace, |trace|)
  }

  lemma {:induction false} ValidNodeIsLeaf(e: Expr, n: string)
    requires n in NodeNames(e) && ValidName(n)
    ensures n in Leaves(e)
  {
    if e.Bin? {
      if n in NodeNames(e.left) {
        ValidNodeIsLeaf(e.left, n);
      } else if n in NodeNames(e.right) {
        ValidNodeIsLeaf(e.right, n);
      } else {
        assert ComposedName(e)[0] == '(';
      }
    }
  }

  lemma {:induction false} ReadyPersists(e: Expr, f: Fired, x: string, t: string, on: bool, on': bool)
    requires t in Ready(e, f, on) && t != x && (on ==> on')
    ensures t in Ready(e, f + {x}, on')
  {
    if e.Bin? {
      DoneGrows(e.left, f, f + {x});
      if t in Ready(e.left, f, on) {
        ReadyPersists(e.left, f, x, t, on, on');
      } else {
        ReadyPersists(e.right, f, x, t, RightOn(e, f, on), RightOn(e, f + {x}, on'));
      }
    }
  }

  lemma {:induction false} StartsUntouched(a: Action)
    requires WellFormed(a.expr)
    ensures Reached(a, Initial(a.expr), {}, []) && !IsFull(a, Initial(a.expr))
  {
    InitialIsUntouched(a.expr);
    assert NameSet([]) == {};
  }

  lemma {:induction false} WaitingIsNode(a: Action, s: Progress, f: Fired, trace: seq<string>)
    requires WellFormed(a.expr) && Reached(a, s, f, trace)
    ensures s.toSatisfy <= NodeNames(a.expr)
  {
    PartInside(a.expr, f, true);
  }

  /** A trigger name that is to be satisfied is a ready literal. */
  lemma {:induction false} DefinedIsReady(a: Action, s: Progress, f: Fired, trace: seq<string>, t: string)
    requires WellFormed(a.expr) && Reached(a, s, f, trace)
    ensures ValidName(t) ==> (t in s.toSatisfy <==> t in Ready(a.expr, f, true))
    ensures t in s.toSatisfy ==> t in NodeNames(a.expr) && (ValidName(t) <==> t in Leaves(a.expr))
    ensures t in s.toSatisfy && ValidName(t) ==> t !in f
  {
    PartInside(a.expr, f, true);
    ReadyCall(a.expr, f, t);
    ReadyFacts(a.expr, f, true);
    if t in s.toSatisfy && ValidName(t) {
      ValidNodeIsLeaf(a.expr, t);
    }
    if t in Leaves(a.expr) {
      LeafIsValid(a.expr, t);
    }
  }

  lemma {:induction false} LeafIsValid(e: Expr, t: string)
    requires WellFormed(e) && t in Leaves(e)
    ensures ValidName(t)
  {
    if e.Bin? {
      LeafIsValid(if t in Leaves(e.left) then e.left else e.right, t);
    }
  }

  /** One trigger call of the current graph, by a trigger that is defined. */
  lemma {:induction false} Advance(a: Action, s: Progress, f: Fired, trace: seq<string>, name: string)
    requires WellFormed(a.expr) && Reached(a, s, f, trace) && name in s.toSatisfy && !IsFull(a, s)
    requires f <= a.definitions.Keys && name in a.definitions
    ensures var r := Fire(Compile(a.expr), name, true, s);
            if r.Some? then Reached(a, r.value, f + {name}, trace + [name]) else MayAbort(a)
  {
    DefinedIsReady(a, s, f, trace, name);
    FireMeaning(a.expr, f, name);
    ReadyCall(a.expr, f, name);
    ObserveSnoc(a.expr, trace, name);
    ObserveMeaning(a.expr, trace);
    MomentPassed(a.expr, trace, name);
    TraceGrows(trace, name);
    if Fire(Compile(a.expr), name, true, s).None? {
      AbortHasReason(a.expr, a.definitions.Keys, f, name);
    }
  }

  /** A graph becomes full at the first moment that satisfies the expression. */
  lemma {:induction false} FullIsFirst(a: Action, s: Progress, f: Fired, trace: seq<string>)
    requires WellFormed(a.expr) && Reached(a, s, f, trace)
    ensures IsFull(a, s) <==> FirstHolds(a.expr, trace)
  {
    ObserveMeaning(a.expr, trace);
  }

  lemma {:induction false} TraceGrows(trace: seq<string>, name: string)
    ensures NameSet(trace + [name]) == NameSet(trace) + {name}
  {
  }

  /** The other literals to be satisfied stay so. */
  ghost predicate StillWaiting(s: Progress, s': Progress, name: string) {
    forall t :: ValidName(t) && t in s.toSatisfy && t != name ==> t in s'.toSatisfy
  }

  lemma {:induction false} OthersStay(a: Action, s: Progress, f: Fired, trace: seq<string>, name: string, s': Progress)
    requires WellFormed(a.expr) && Reached(a, s, f, trace) && s' == Part(a.expr, f + {name}, true)
    ensures StillWaiting(s, s', name)
  {
    forall t | ValidName(t) && t in s.toSatisfy && t != name ensures t in s'.toSatisfy {
      DefinedIsReady(a, s, f, trace, t);
      ReadyPersists(a.expr, f, name, t, true, true);
      PartSplits(a.expr, f + {name}, true);
    }
  }

  lemma {:induction false} CallAborts(a: Action, s: Progress, f: Fired, trace: seq<string>, name: string)
    requires WellFormed(a.expr) && Reached(a, s, f, trace) && name in s.toSatisfy && !IsFull(a, s)
    requires f <= a.definitions.Keys && name in a.definitions && Fire(Compile(a.expr), name, true, s).None?
    ensures MayAbort(a)
  {
    Advance(a, s, f, trace, name);
  }

  lemma {:induction false} CallAdvances(a: Action, s: Progress, f: Fired, trace: seq<string>, name: string,
                                        s': Progress)
    requires WellFormed(a.expr) && Reached(a, s, f, trace) && name in s.toSatisfy && !IsFull(a, s)
    requires f <= a.definitions.Keys && name in a.definitions && Fire(Compile(a.expr), name, true, s) == Some(s')
    ensures Reached(a, s', f + {name}, trace + [name]) && StillWaiting(s, s', name) && f + {name} <= a.definitions.Keys
    ensures name !in f
  {
    FireMeaning(a.expr, f, name);
    ReadyFacts(a.expr, f, true);
    Advance(a, s, f, trace, name);
    OthersStay(a, s, f, trace, name, s');
  }

  /** The timeout trigger of the notification being processed, until it has been visited. */
  function Unserved(n: Notification, visited: set<string>): set<string> {
    if n.TimeoutNotification? && n.name !in visited then {n.name} else {}
  }

  ghost predicate Past(states: seq<Action>, graphs: seq<Progress>, executed: seq<Execution>) {
    |executed| <= |states| && |graphs| == |states| && forall i :: 0 <= i < |executed| ==> RanInTime(states[i], graphs[i], i, executed[i])
  }

  ghost predicate RanInTime(a: Action, graph: Progress, i: nat, x: Execution) {
    x.action == i && IsFull(a, x.graph) && graph == x.graph && FirstHolds(a.expr, x.trace)
  }

  ghost predicate Future(states: seq<Action>, graphs: seq<Progress>, next: nat) {
    |graphs| == |states| && forall i :: next < i < |states| ==> graphs[i] == Initial(states[i].expr)
  }

  /** Only the current graph is touched. */
  lemma {:induction false} OthersUntouched(states: seq<Action>, graphs: seq<Progress>, executed: seq<Execution>,
                                           next: nat, graph: Progress)
    requires next < |states| && |executed| == next && Past(states, graphs, executed) && Future(states, graphs, next)
    ensures Past(states, graphs[next := graph], executed) && Future(states, graphs[next := graph], next)
  {
  }

  lemma {:induction false} OfferedSets(visited: set<string>, name: string, brought: set<string>, added: seq<string>)
    requires visited * brought <= NameSet(added) <= brought && name in brought
    ensures (visited + {name}) * brought <= NameSet(added + [name]) <= brought
  {
    TraceGrows(added, name);
  }

  /** What a call on the current graph leads to. */
  ghost predicate Led(states: seq<Action>, graphs: seq<Progress>, executed: seq<Execution>, i: nat, f: Fired,
                      trace: seq<string>, name: string, graph: Progress)
    requires i < |states| == |graphs|
  {
    Past(states, graphs[i := graph], executed) && Future(states, graphs[i := graph], i) && name !in f
    && Reached(states[i], graph, f + {name}, trace + [name]) && f + {name} <= states[i].definitions.Keys
    && StillWaiting(graphs[i], graph, name)
  }

  lemma {:induction false} MachineCalled(states: seq<Action>, graphs: seq<Progress>, executed: seq<Execution>, i: nat,
                                         f: Fired, trace: seq<string>, name: string, graph: Option<Progress>)
    requires i < |states| && |executed| == i && Past(states, graphs, executed) && Future(states, graphs, i)
    requires WellFormed(states[i].expr) && Reached(states[i], graphs[i], f, trace) && !IsFull(states[i], graphs[i])
    requires name in graphs[i].toSatisfy && f <= states[i].definitions.Keys && name in states[i].definitions
    requires graph == Fire(Compile(states[i].expr), name, true, graphs[i])
    ensures if graph.Some? then Led(states, graphs, executed, i, f, trace, name, graph.value) else MayAbort(states[i])
  {
    if graph.None? {
      CallAborts(states[i], graphs[i], f, trace, name);
    } else {
      CallAdvances(states[i], graphs[i], f, trace, name, graph.value);
      OthersUntouched(states, graphs, executed, i, graph.value);
    }
  }

  lemma {:induction false} NameAdded(added: seq<string>, name: string)
    ensures NoRepeats(added) && name !in NameSet(added) ==> NoRepeats(added + [name])
    ensures NameSet(added + [name]) == NameSet(added) + {name}
  {
    TraceGrows(added, name);
    if NoRepeats(added) && name !in NameSet(added) {
      assert forall i :: 0 <= i < |added| ==> added[i] in NameSet(added);
    }
  }

  // ----- Firing what is heard -----

  predicate NoRepeats(xs: seq<string>) {
    forall i, j :: 0 <= i < j < |xs| ==> xs[i] != xs[j]
  }

  lemma {:induction false} AtMostOne(xs: seq<string>, x: string)
    requires NoRepeats(xs) && forall k :: 0 <= k < |xs| ==> xs[k] == x
    ensures xs == [] || xs == [x]
  {
    if xs != [] {
      assert xs[0] == x && xs[|xs| - 1] == x;
    }
  }

  /** Of a single trigger, at most that one is fired. */
  lemma {:induction false} SingleAdded(added: seq<string>, h: set<string>)
    requires NoRepeats(added) && NameSet(added) <= h && |h| <= 1
    ensures h == {} ==> added == []
    ensures forall x :: x in h ==> h == {x} && (added == [] || added == [x])
  {
    if added != [] {
      assert added[0] in NameSet(added);
    }
    forall x | x in h ensures h == {x} && (added == [] || added == [x]) {
      assert h - {x} == {} by {
        assert |h - {x}| == |h| - 1;
      }
      assert forall k :: 0 <= k < |added| ==> added[k] in NameSet(added);
      AtMostOne(added, x);
    }
  }

  lemma {:induction false} OnlyAdded(added: seq<string>, h: set<string>)
    requires NoRepeats(added) && NameSet(added) <= h && added != []
    ensures |h| <= 1 ==> h == NameSet(added)
  {
    if |h| <= 1 {
      SingleAdded(added, h);
      assert added[0] in NameSet(added);
    }
  }

  lemma {:induction false} FlatSnoc(heard: seq<set<string>>, h: set<string>)
    ensures AllSingle(heard + [h]) <==> AllSingle(heard) && |h| <= 1
    ensures h == {} ==> Flat(heard + [h]) == Flat(heard)
    ensures forall x :: h == {x} ==> Flat(heard + [h]) == Flat(heard) + [x]
  {
    assert (heard + [h])[..|heard|] == heard;
    assert (heard + [h])[|heard|] == h;
    if AllSingle(heard + [h]) {
      forall k | 0 <= k < |heard| ensures |heard[k]| <= 1 {
        assert (heard + [h])[k] == heard[k];
      }
    }
  }

  /** The graph is the one to which the names heard lead, one by one. */
  ghost predicate FollowsHeard(a: Action, s: Progress, heard: seq<set<string>>) {
    AllSingle(heard) ==> Observe(a.expr, Flat(heard)) == Some(s)
  }

  /** Firing what was waiting keeps the graph on the names heard. */
  lemma {:induction false} FollowsOn(a: Action, s: Progress, f: Fired, trace: seq<string>, heard: seq<set<string>>,
                                     h: set<string>, added: seq<string>, s': Progress)
    requires WellFormed(a.expr) && Reached(a, s, f, trace) && FollowsHeard(a, s, heard)
    requires NoRepeats(added) && NameSet(added) <= h && Observe(a.expr, trace + added) == Some(s')
    requires |h| <= 1 ==> forall t :: t in s.toSatisfy && ValidName(t) && t in h ==> t in NameSet(added)
    ensures FollowsHeard(a, s', heard + [h])
  {
    FlatSnoc(heard, h);
    if AllSingle(heard + [h]) {
      SingleAdded(added, h);
      assert trace + [] == trace;
      if x :| x in h {
        FollowsOne(a.expr, s, trace, Flat(heard), x, added, s');
      }
    }
  }

  /** The same graph, reached by two ways, goes on alike. */
  lemma {:induction false} FollowsOne(e: Expr, s: Progress, trace: seq<string>, flat: seq<string>, x: string,
                                      added: seq<string>, s': Progress)
    requires WellFormed(e) && Observe(e, trace) == Some(s) == Observe(e, flat) && Observe(e, trace + added) == Some(s')
    requires added == [] || added == [x]
    requires x in s.toSatisfy && ValidName(x) ==> x in NameSet(added)
    ensures Observe(e, flat + [x]) == Some(s')
  {
    ObserveSnoc(e, trace, x);
    ObserveSnoc(e, flat, x);
    if added == [] {
      assert trace + [] == trace;
      if x in Leaves(e) {
        LeafIsValid(e, x);
      }
    }
  }

  /** No graph that is not full yet has heard what satisfies its expression. */
  lemma {:induction false} NotFullIsNever(a: Action, s: Progress, heard: seq<set<string>>)
    requires WellFormed(a.expr) && FollowsHeard(a, s, heard) && !IsFull(a, s)
    ensures HeardNever(a, heard)
  {
    if AllSingle(heard) {
      ObserveMeaning(a.expr, Flat(heard));
    }
  }

  lemma {:induction false} HoldsLater(e: Expr, events: seq<string>, j: nat)
    requires WellFormed(e) && j <= |events| && Holds(e, events[..j])
    ensures Holds(e, events)
  {
    AcceptedIsHolds(e, events[..j]);
    AcceptedGrows(e, events, j, |events|);
    assert events[..|events|] == events;
    DoneGrows(e, Accepted(e, events[..j]), Accepted(e, events));
    AcceptedIsHolds(e, events);
  }

  /** An action runs with the first name that makes what it has heard satisfy its expression. */
  lemma {:induction false} FullIsFirstHeard(a: Action, s: Progress, heard: seq<set<string>>, h: set<string>, s': Progress)
    requires WellFormed(a.expr) && FollowsHeard(a, s, heard) && !IsFull(a, s)
    requires FollowsHeard(a, s', heard + [h]) && IsFull(a, s')
    ensures HeardFirst(a, heard + [h])
  {
    FlatSnoc(heard, h);
    if AllSingle(heard + [h]) {
      var events := Flat(heard + [h]);
      ObserveMeaning(a.expr, events);
      NotFullIsNever(a, s, heard);
      if h != {} {
        var x :| x in h;
        SingleAdded([], h);
        forall j | 0 <= j < |events| ensures !Holds(a.expr, events[..j]) {
          assert events[..j] == Flat(heard)[..j];
          if Holds(a.expr, events[..j]) {
            HoldsLater(a.expr, Flat(heard), j);
          }
        }
      }
    }
  }

  lemma {:induction false} StaysUntouched(states: seq<Action>, graphs: seq<Progress>, next: nat)
    requires Future(states, graphs, next)
    ensures Future(states, graphs, next + 1) && (next + 1 < |states| ==> graphs[next + 1] == Initial(states[next + 1].expr))
  {
  }

  function Channel(c: Choice): multiset<nat> {
    if c.Notified? then multiset{c.id} else multiset{}
  }

  function Channels(schedule: seq<Choice>): multiset<nat> {
    if schedule == [] then multiset{}
    else Channels(schedule[..|schedule| - 1]) + Channel(schedule[|schedule| - 1])
  }

  lemma {:induction false} ChannelsNext(schedule: seq<Choice>, k: nat)
    requires k < |schedule|
    ensures Channels(schedule[..k + 1]) == Channels(schedule[..k]) + Channel(schedule[k])
  {
    assert schedule[..k + 1][..k] == schedule[..k];
  }

  class Machine {
    const states: seq<Action>
    var nextState: nat
    var asyncActionInExecution: bool
    var graphs: seq<Progress>
    /** Timers asleep, and timeout notifications waiting in the channel. */
    var running: multiset<string>
    var timeoutNotificationCh: seq<string>
    /** A `log.Fatalf` has ended the process. */
    var aborted: bool
    var released: multiset<nat>
    ghost var executed: seq<Execution>
    /** The literals fired in the current graph, and their order. */
    ghost var fired: Fired
    ghost var trace: seq<string>
    /** The triggers that each notification has brought since the current action became current. */
    ghost var heard: seq<set<string>>

    ghost function Seen(): View
      reads this
    {
      View(nextState, asyncActionInExecution, if nextState < |graphs| then graphs[nextState].toSatisfy else {},
           fired, heard, running, timeoutNotificationCh, executed)
    }

    ghost predicate Shape()
      reads `nextState, `asyncActionInExecution, `graphs
    {
      |graphs| == |states| && nextState <= |states| && (asyncActionInExecution ==> nextState < |states|)
      && forall i :: 0 <= i < |states| ==> WellFormed(states[i].expr)
    }

    ghost function Ran(): nat
      reads `nextState, `asyncActionInExecution
    {
      nextState + if asyncActionInExecution then 1 else 0
    }

    /** The executed actions are a prefix of the plan, in order and once each; each ran when its graph was fully
        triggered, at the first moment at which the triggers fired satisfy its expression, and that graph has not been
        touched since. */
    ghost predicate PastIsSound()
      requires Shape()
      reads `nextState, `asyncActionInExecution, `graphs, `executed
    {
      |executed| == Ran() && Past(states, graphs, executed)
    }

    /** Later graphs are untouched. */
    ghost predicate FutureIsUntouched()
      requires Shape()
      reads `nextState, `asyncActionInExecution, `graphs
    {
      Future(states, graphs, nextState)
    }

    ghost predicate HasCurrent()
      reads `nextState, `asyncActionInExecution
    {
      !asyncActionInExecution && nextState < |states|
    }

    /** The graph being advanced is the one its fired literals led to, and is not full. */
    ghost predicate CurrentIsSound()
      requires Shape()
      reads `nextState, `asyncActionInExecution, `graphs, `fired, `trace
    {
      HasCurrent() ==>
        Reached(states[nextState], graphs[nextState], fired, trace) && !IsFull(states[nextState], graphs[nextState])
        && fired <= states[nextState].definitions.Keys
    }

    /** Every timeout trigger to be satisfied has a running timer or a queued notification. For the first
        action this holds once its graph has made progress. */
    ghost predicate TimersCover(except: set<string>)
      requires Shape()
      reads `nextState, `asyncActionInExecution, `graphs, `fired, `running, `timeoutNotificationCh
    {
      HasCurrent() && (nextState > 0 || fired != {}) ==>
        forall t :: t in Timeouts(states[nextState], graphs[nextState].toSatisfy) && t !in except ==>
          t in running || t in timeoutNotificationCh
    }

    /** Only an action whose own triggers can abort its graph can have ended the process. */
    ghost predicate Alive()
      reads `aborted
    {
      aborted ==> exists i :: 0 <= i < |states| && MayAbort(states[i])
    }

    ghost predicate ValidExcept(except: set<string>)
      reads `nextState, `asyncActionInExecution, `graphs, `running, `timeoutNotificationCh, `aborted, `executed, `fired, `trace
    {
      Alive()
      && (!aborted ==> Shape() && PastIsSound() && FutureIsUntouched() && CurrentIsSound() && TimersCover(except))
    }

    /** The current graph is where the names heard lead, and each action has run with the first name that it had to hear. */
    ghost predicate HeardIsSound()
      requires Shape()
      reads `nextState, `asyncActionInExecution, `graphs, `executed, `heard
    {
      (HasCurrent() ==> FollowsHeard(states[nextState], graphs[nextState], heard)) && AllInTime(states, executed)
    }

    ghost predicate Valid()
      reads this
    {
      ValidExcept({}) && (!aborted ==> HeardIsSound())
    }

    constructor (actions: seq<Action>)
      requires forall i :: 0 <= i < |actions| ==> WellFormed(actions[i].expr)
      ensures Valid() && !aborted && states == actions && IsStart(Seen()) && released == multiset{}
    {
      states := actions;
      nextState, asyncActionInExecution, aborted := 0, false, false;
      graphs := seq(|actions|, i requires 0 <= i < |actions| => Initial(actions[i].expr));
      running, timeoutNotificationCh, released := multiset{}, [], multiset{};
      executed, fired, trace, heard := [], {}, [], [];
      new;
      if states != [] {
        StartsUntouched(states[0]);
      }
    }

    /** Starts one timer for every timeout trigger that is to be satisfied now. */
    method SetTimeoutForTimeoutTriggers()
      requires Shape() && nextState < |states|
      modifies `running
      ensures old(running) <= running && running == old(running) + multiset(Timeouts(states[nextState], graphs[nextState].toSatisfy))
      ensures TimersCover({})
    {
      var names := Timeouts(states[nextState], graphs[nextState].toSatisfy);
      ghost var all := names;
      while names != {}
        invariant names <= all
        invariant running == old(running) + multiset(all - names)
        decreases names
      {
        var name :| name in names;
        running := running + multiset{name};
        assert all - (names - {name}) == all - names + {name};
        names := names - {name};
      }
      assert all - {} == all;
    }

    /** `waitForTimeout` wakes up. */
    method TimerFires(name: string)
      requires Valid() && !aborted && name in running
      modifies `running, `timeoutNotificationCh
      ensures Valid()
      ensures running == old(running) - multiset{name} && timeoutNotificationCh == old(timeoutNotificationCh) + [name]
    {
      running := running - multiset{name};
      timeoutNotificationCh := timeoutNotificationCh + [name];
    }

    /** The loop of `run` takes a notification of observed triggers. */
    method TakeState(hits: set<string>, id: nat)
      requires Valid() && !aborted
      modifies this
      ensures Valid()
      ensures !aborted ==> released == old(released) + multiset{id} && Moves(states, old(Seen()), Notified(hits, id), Seen())
    {
      ProcessNotification(StateNotification(hits, id));
      if !aborted && old(HasCurrent()) {
        ServiceMoves(states, old(Seen()), Notified(hits, id), ObservedIn(states[old(nextState)], hits), Seen());
      }
    }

    /** The loop of `run` takes a timeout notification. */
    method TakeTimeout()
      requires Valid() && !aborted && timeoutNotificationCh != []
      modifies this
      ensures Valid() && timeoutNotificationCh == old(timeoutNotificationCh[1..])
      ensures !aborted ==> released == old(released) && Moves(states, old(Seen()), TimeoutTaken, Seen())
    {
      var name := timeoutNotificationCh[0];
      assert timeoutNotificationCh == [name] + timeoutNotificationCh[1..];
      timeoutNotificationCh := timeoutNotificationCh[1..];
      assert Seen() == old(Seen()).(queue := timeoutNotificationCh);
      ProcessNotification(TimeoutNotification(name));
      if !aborted && old(HasCurrent()) {
        ServesWithout(states, old(Seen()), timeoutNotificationCh, TimedOut(states[old(nextState)], name), Seen());
        ServiceMoves(states, old(Seen()), TimeoutTaken, TimedOut(states[old(nextState)], name), Seen());
      }
    }

    /** Runs the current action, whose graph has just become full. */
    method RunAction()
      requires Shape() && PastIsSound() && FutureIsUntouched() && HasCurrent()
      requires IsFull(states[nextState], graphs[nextState]) && FirstHolds(states[nextState].expr, trace)
      modifies `nextState, `asyncActionInExecution, `running, `executed, `fired, `trace, `heard
      ensures Shape() && PastIsSound() && FutureIsUntouched() && CurrentIsSound() && TimersCover({})
      ensures old(running) <= running && HasRun(states, old(nextState), old(heard), old(trace), old(executed), Seen())
      ensures HasCurrent() ==> graphs[nextState] == Initial(states[nextState].expr)
    {
      executed := executed + [Execution(nextState, graphs[nextState], trace, heard)];
      fired, trace, heard := {}, [], [];
      if !states[nextState].async {
        GoOn();
      } else {
        asyncActionInExecution := true;
      }
    }

    /** The next action becomes current, if there is one: its graph is untouched and its first timers start. */
    method GoOn()
      requires Shape() && HasCurrent() && |executed| == nextState + 1 && FutureIsUntouched()
      requires Past(states, graphs, executed) && fired == {} && trace == [] && heard == []
      modifies `nextState, `running
      ensures Shape() && nextState == old(nextState) + 1 && PastIsSound() && FutureIsUntouched()
      ensures CurrentIsSound() && TimersCover({}) && old(running) <= running
      ensures HasCurrent() ==> graphs[nextState] == Initial(states[nextState].expr)
    {
      StaysUntouched(states, graphs, nextState);
      nextState := nextState + 1;
      if nextState < |states| {
        StartsUntouched(states[nextState]);
        SetTimeoutForTimeoutTriggers();
      }
    }

    /** The notification satisfies the definition of `name` in the current action. */
    predicate Wants(name: string, n: Notification): (r: bool)
      requires nextState < |states|
      reads `nextState
      ensures r <==> name in BroughtTo(states[nextState], n)
    {
      var definitions := states[nextState].definitions;
      name in definitions && Satisfies(definitions[name], name, n)
    }

    /** The machine is between two steps of an iteration over the current graph. */
    ghost predicate Iterating()
      reads `nextState, `asyncActionInExecution, `graphs, `aborted, `executed, `fired, `trace
    {
      !aborted && Alive() && Shape() && HasCurrent() && PastIsSound() && FutureIsUntouched() && CurrentIsSound()
    }

    /** Action `i` has just run, on the graph to which `t` has led. */
    ghost predicate JustRan(i: nat, h: seq<set<string>>, t: seq<string>, before: seq<Execution>)
      reads this
    {
      i < |states| && !aborted && ValidExcept({}) && HasRun(states, i, h, t, before, Seen())
      && IsFull(states[i], graphs[i]) && Observe(states[i].expr, t) == Some(graphs[i])
      && (HasCurrent() ==> graphs[nextState] == Initial(states[nextState].expr))
    }

    /** A trigger call has gone well; the graph may be full now. */
    ghost predicate Advanced()
      reads `nextState, `asyncActionInExecution, `graphs, `aborted, `executed, `fired, `trace
    {
      !aborted && Shape() && HasCurrent() && PastIsSound() && FutureIsUntouched()
      && Reached(states[nextState], graphs[nextState], fired, trace) && fired <= states[nextState].definitions.Keys
    }

    /** `triggerGraph.trigger` on the graph of the current action. */
    method TriggerCurrent(name: string)
      requires Iterating() && name in graphs[nextState].toSatisfy && name in states[nextState].definitions
      modifies `graphs, `aborted, `fired, `trace
      ensures if aborted then Alive() else Advanced()
      ensures !aborted ==> fired == old(fired) + {name} && trace == old(trace) + [name]
      ensures !aborted ==> StillWaiting(old(graphs[nextState]), graphs[nextState], name) && name !in old(fired)
    {
      var graph := Fire(Compile(states[nextState].expr), name, true, graphs[nextState]);
      MachineCalled(states, graphs, executed, nextState, fired, trace, name, graph);
      if graph.None? {
        assert MayAbort(states[nextState]);
        aborted := true;
        return;
      }
      ghost var i, before := nextState, graphs;
      graphs := graphs[nextState := graph.value];
      fired, trace := fired + {name}, trace + [name];
      assert |graphs| == |before| && graphs[i] == graph.value;
      assert PastIsSound() && FutureIsUntouched();
      assert Reached(states[i], graphs[i], fired, trace);
    }

    /** The iteration has fired the names added, each once. */
    ghost predicate Adding(t: seq<string>, f: set<string>, added: seq<string>)
      reads `trace, `fired
    {
      trace == t + added && fired == f + NameSet(added) && NoRepeats(added)
    }

    /** One iteration of the loop of `processNotification`, for a trigger that the notification satisfies. */
    method Visit(name: string) returns (ran: bool)
      requires Iterating() && name in graphs[nextState].toSatisfy && name in states[nextState].definitions
      modifies `nextState, `asyncActionInExecution, `graphs, `running, `aborted, `executed, `fired, `trace, `heard
      ensures Alive() && (aborted ==> ran) && old(running) <= running
      ensures !aborted ==> name !in old(fired)
      ensures !aborted && ran ==> JustRan(old(nextState), old(heard), old(trace) + [name], old(executed))
      ensures !ran ==> Iterating() && nextState == old(nextState) && executed == old(executed) && heard == old(heard)
      ensures !ran ==> TimersCover({}) && trace == old(trace) + [name] && fired == old(fired) + {name}
      ensures !ran ==> StillWaiting(old(graphs[nextState]), graphs[nextState], name)
    {
      TriggerCurrent(name);
      if aborted {
        return true;
      }
      ran := RunWhenFull();
    }

    /** After a trigger call: the action runs if the graph is full, else timers start for what is to be satisfied now. */
    method RunWhenFull() returns (ran: bool)
      requires Advanced()
      modifies `nextState, `asyncActionInExecution, `running, `executed, `fired, `trace, `heard
      ensures old(running) <= running
      ensures ran ==> JustRan(old(nextState), old(heard), old(trace), old(executed))
      ensures !ran ==> Iterating() && TimersCover({}) && nextState == old(nextState) && executed == old(executed)
      ensures !ran ==> fired == old(fired) && trace == old(trace) && heard == old(heard)
    {
      ran := SinkName(states[nextState].expr) in graphs[nextState].satisfied;
      FullIsFirst(states[nextState], graphs[nextState], fired, trace);
      if ran {
        RunAction();
      } else {
        SetTimeoutForTimeoutTriggers();
      }
    }

    /** The names visited have been offered the notification, those waiting from the start are waiting or visited. */
    ghost predicate Offering(n: Notification, start: set<string>, visited: set<string>, t: seq<string>, f: set<string>,
                             added: seq<string>)
      reads this
    {
      Iterating() && visited <= NodeNames(states[nextState].expr) && TimersCover(Unserved(n, visited))
      && (n.TimeoutNotification? && n.name !in visited ==> graphs[nextState].toSatisfy == start)
      && (forall x :: x in start && ValidName(x) && x !in visited ==> x in graphs[nextState].toSatisfy)
      && visited * BroughtTo(states[nextState], n) <= NameSet(added) <= BroughtTo(states[nextState], n)
      && Adding(t, f, added)
    }

    /** One name of the iteration. */
    method Offer(name: string, n: Notification, ghost start: set<string>, ghost visited: set<string>, ghost t: seq<string>,
                 ghost f: set<string>, ghost added: seq<string>) returns (ran: bool, ghost added': seq<string>)
      requires Offering(n, start, visited, t, f, added) && name in graphs[nextState].toSatisfy
      modifies `nextState, `asyncActionInExecution, `graphs, `running, `aborted, `executed, `fired, `trace, `heard
      ensures Alive() && (aborted ==> ran) && old(running) <= running
      ensures !aborted ==> NoRepeats(added') && NameSet(added') <= BroughtTo(states[old(nextState)], n)
      ensures !aborted && ran ==> added' != [] && JustRan(old(nextState), old(heard), t + added', old(executed))
      ensures !ran ==> Offering(n, start, visited + {name}, t, f, added')
      ensures !ran ==> nextState == old(nextState) && executed == old(executed) && heard == old(heard)
    {
      WaitingIsNode(states[nextState], graphs[nextState], fired, trace);
      if !Wants(name, n) {
        return false, added;
      }
      added' := added + [name];
      NameAdded(added, name);
      assert t + added + [name] == t + added';
      OfferedSets(visited, name, BroughtTo(states[nextState], n), added);
      ran := Visit(name);
    }

    /** Go iterates over `toSatisfy` while `trigger` changes it: names present from the start are
        visited unless removed, names added on the way may be visited or not. */
    method IterateToSatisfy(n: Notification) returns (ran: bool, ghost added: seq<string>)
      requires !aborted && ValidExcept(Unserved(n, {})) && HasCurrent()
      modifies `nextState, `asyncActionInExecution, `graphs, `running, `aborted, `executed, `fired, `trace, `heard
      ensures Alive() && (aborted ==> ran) && old(running) <= running
      ensures !aborted ==> NoRepeats(added) && NameSet(added) <= BroughtTo(states[old(nextState)], n)
      ensures !aborted && ran ==> added != [] && JustRan(old(nextState), old(heard), old(trace) + added, old(executed))
      ensures !ran ==> ValidExcept({}) && HasCurrent() && executed == old(executed) && nextState == old(nextState)
      ensures !ran ==> forall t :: t in old(graphs[nextState].toSatisfy) && ValidName(t) && t in BroughtTo(states[nextState], n)
                                   ==> t in NameSet(added)
      ensures !ran ==> trace == old(trace) + added && fired == old(fired) + NameSet(added) && heard == old(heard)
    {
      var start := graphs[nextState].toSatisfy;
      var visited: set<string> := {};
      added := [];
      while true
        invariant Offering(n, start, visited, old(trace), old(fired), added)
        invariant nextState == old(nextState) && executed == old(executed) && heard == old(heard) && old(running) <= running
        decreases NodeNames(states[nextState].expr) - visited
      {
        var pending := start * graphs[nextState].toSatisfy - visited;
        var enabled := graphs[nextState].toSatisfy - start - visited;
        var stop: bool := *;
        if pending == {} && (enabled == {} || stop) {
          break;
        }
        var name :| name in pending + enabled;
        ran, added := Offer(name, n, start, visited, old(trace), old(fired), added);
        if ran {
          return;
        }
        visited := visited + {name};
      }
      ran := false;
    }

    /** The current action is offered what the notification brings. */
    method ServeCurrent(n: Notification)
      requires !aborted && ValidExcept(Unserved(n, {})) && HeardIsSound() && HasCurrent()
      modifies `nextState, `asyncActionInExecution, `graphs, `running, `aborted, `executed, `fired, `trace, `heard
      ensures Valid()
      ensures !aborted ==> Serves(states, old(Seen()), BroughtTo(states[old(nextState)], n), Seen())
    {
      ghost var i, graph, before, v := nextState, graphs[nextState], heard, Seen();
      ghost var brought := BroughtTo(states[i], n);
      heard := heard + [brought];
      var ran, added := IterateToSatisfy(n);
      if aborted {
        return;
      }
      ServedAsHeard(states[i], graph, old(fired), old(trace), before, n, added, graphs[i], ran);
      if ran {
        NextInTime(states, v.ran, executed);
        RunServes(states, v, brought, old(trace) + added, Seen());
      } else {
        assert Waits(v, brought, Seen());
      }
    }

    /** A blocked notifier is released exactly once, whatever the notification led to. */
    method ProcessNotification(n: Notification)
      requires !aborted && ValidExcept(Unserved(n, {})) && HeardIsSound()
      modifies this
      ensures Valid() && timeoutNotificationCh == old(timeoutNotificationCh)
      ensures !aborted ==> released == old(released) + BlockingChannel(n)
      ensures !aborted && !old(HasCurrent()) ==> Seen() == old(Seen())
      ensures !aborted && old(HasCurrent()) ==> Serves(states, old(Seen()), BroughtTo(states[old(nextState)], n), Seen())
    {
      if nextState < |states| && !asyncActionInExecution {
        ServeCurrent(n);
        if aborted {
          return;
        }
      }
      released := released + BlockingChannel(n);
    }

    /** The channel of an asynchronous action reports that it is done. */
    method ProcessAsyncDone()
      requires Valid() && !aborted && asyncActionInExecution
      modifies `nextState, `asyncActionInExecution, `running, `fired, `trace, `heard
      ensures Valid() && Moves(states, old(Seen()), ActionDone, Seen())
    {
      asyncActionInExecution := false;
      fired, trace, heard := {}, [], [];
      GoOn();
      FinishMoves(states, old(Seen()), Seen());
    }

    /** One choice of the scheduler; one that is not possible in the current state is passed over. */
    method Take(c: Choice)
      requires Valid() && !aborted
      modifies this
      ensures Valid()
      ensures !aborted ==> released == old(released) + Channel(c) && Moves(states, old(Seen()), c, Seen())
    {
      match c {
        case Notified(hits, id) =>
          TakeState(hits, id);
        case TimerWakes(name) =>
          if name in running {
            TimerFires(name);
          }
        case TimeoutTaken =>
          if timeoutNotificationCh != [] {
            TakeTimeout();
          }
        case ActionDone =>
          if asyncActionInExecution {
            ProcessAsyncDone();
          }
      }
    }

    /** Any finite schedule of the loop of `run` and of its environment. */
    method Run(schedule: seq<Choice>) returns (ghost views: seq<View>)
      requires Valid() && !aborted && released == multiset{}
      modifies this
      ensures Valid()
      ensures !aborted ==> released == Channels(schedule)
      ensures !aborted ==> IsRun(states, views, schedule) && views[0] == old(Seen()) && views[|schedule|] == Seen()
      ensures !aborted ==> NoneMissed(states, views, schedule)
      ensures !aborted && IsStart(old(Seen())) ==> OnTime(states, views, schedule)
    {
      views := TakeAll(schedule);
      if !aborted {
        NoneIsMissed(states, views, schedule);
        if IsStart(old(Seen())) {
          SeenIsOnTime(this);
          RunIsOnTime(states, views, schedule);
        }
      }
    }

    /** Takes the choices one by one. */
    method TakeAll(schedule: seq<Choice>) returns (ghost views: seq<View>)
      requires Valid() && !aborted && released == multiset{}
      modifies this
      ensures Valid()
      ensures !aborted ==> released == Channels(schedule)
      ensures !aborted ==> IsRun(states, views, schedule) && views[0] == old(Seen()) && views[|schedule|] == Seen()
    {
      views := [Seen()];
      for k := 0 to |schedule|
        invariant Valid() && !aborted && released == Channels(schedule[..k])
        invariant IsRun(states, views, schedule[..k]) && views[0] == old(Seen()) && views[k] == Seen()
      {
        Take(schedule[k]);
        if aborted {
          return;
        }
        ChannelsNext(schedule, k);
        RunNext(states, views, schedule, k, Seen());
        views := views + [Seen()];
      }
      assert schedule[..|schedule|] == schedule;
    }
  }

  lemma {:induction false} SeenIsOnTime(m: Machine)
    requires m.Valid() && !m.aborted
    ensures var v := m.Seen();
            AllInTime(m.states, v.ran)
            && (v.next < |m.states| && !v.async ==> HeardNever(m.states[v.next], v.heard))
  {
    if m.HasCurrent() {
      NotFullIsNever(m.states[m.nextState], m.graphs[m.nextState], m.heard);
    }
  }

  /** After a notification the graph is still where the names heard lead, and an action has run in time. */
  lemma {:induction false} ServedAsHeard(a: Action, s: Progress, f: Fired, trace: seq<string>, heard: seq<set<string>>,
                                         n: Notification, added: seq<string>, s': Progress, ran: bool)
    requires WellFormed(a.expr) && Reached(a, s, f, trace) && FollowsHeard(a, s, heard) && !IsFull(a, s)
    requires NoRepeats(added) && Observe(a.expr, trace + added) == Some(s')
    requires NameSet(added) <= BroughtTo(a, n)
    requires if ran then added != [] && IsFull(a, s')
             else forall t :: t in s.toSatisfy && ValidName(t) && t in BroughtTo(a, n) ==> t in NameSet(added)
    ensures NameSet(trace + added) == f + NameSet(added)
    ensures FollowsHeard(a, s', heard + [BroughtTo(a, n)])
    ensures ran ==> HeardFirst(a, heard + [BroughtTo(a, n)])
  {
    var h := BroughtTo(a, n);
    if ran {
      OnlyAdded(added, h);
    }
    FollowsOn(a, s, f, trace, heard, h, added, s');
    if ran {
      FullIsFirstHeard(a, s, heard, h, s');
    }
  }
}
