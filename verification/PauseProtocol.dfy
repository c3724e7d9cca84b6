/** Pausing a controller before its reads: any number of readers, the ongoing-read mutex, the
    shared pause table and its channels, and a plan of synchronous pauseController (with
    avoidOngoingRead) and resumeController actions at beforeControllerRead. */
module PauseProtocol {
  import opened TriggerExpr

  type Scope = string

  const ALL: Scope := "all"

  datatype Read = Get(key: string) | List(resourceType: string)

  datatype Act = Pause(scope: Scope) | Resume(scope: Scope)

  predicate HasPrefix(s: string, p: string) {
    p <= s
  }

  predicate InScope(op: Read, s: Scope) {
    s == ALL ||
    match op
    case Get(key) => s == key
    case List(t) => HasPrefix(s, t + "/")
  }

  /** The channel on which the before-read hook may park the read, given the scopes to pause: "all" is
      looked up first; a List takes any matching entry of the map it ranges over. */
  predicate MayParkOn(op: Read, paused: set<Scope>, s: Scope) {
    s in paused && InScope(op, s) && (s == ALL || ALL !in paused)
  }

  // ----- The protocol -----

  /** Readers outside the hooks are not listed; a listed one holds the ongoing-read lock. */
  datatype Phase = Entered(op: Read) | Parked(op: Read, scope: Scope) | Reading(op: Read)

  datatype State = State(
    readers: map<nat, Phase>,
    ongoingReadLock: Option<nat>,
    shouldPause: set<Scope>,
    created: set<Scope>,
    closed: set<Scope>,
    pc: nat,
    marked: bool,
    crashed: bool)

  datatype Event =
    | LockForRead(reader: nat, op: Read)
    | LookUp(reader: nat, parkOn: Option<Scope>)
    | WakeUp(reader: nat)
    | UnlockAfterRead(reader: nat)
    | MarkPause
    | ReturnFromPause
    | RunResume

  const INITIAL: State := State(map[], None, {}, {}, {}, 0, false, false)

  predicate Current(plan: seq<Act>, s: State, pause: bool) {
    s.pc < |plan| && plan[s.pc].Pause? == pause
  }

  /** The effect of an event, None if it cannot happen. A pause creates the channel of its scope once and never anew;
      closing a channel that does not exist or is closed already ends the process. */
  function Apply(plan: seq<Act>, s: State, e: Event): Option<State> {
    if s.crashed then None else
    match e
    case LockForRead(t, op) =>
      if t !in s.readers && s.ongoingReadLock.None? then
        Some(s.(readers := s.readers[t := Entered(op)], ongoingReadLock := Some(t)))
      else None
    case LookUp(t, parkOn) =>
      if t !in s.readers || !s.readers[t].Entered? then None
      else
        var op := s.readers[t].op;
        (match parkOn
         case Some(scope) =>
           if MayParkOn(op, s.shouldPause, scope) then Some(s.(readers := s.readers[t := Parked(op, scope)])) else None
         case None =>
           if exists scope :: scope in s.shouldPause && MayParkOn(op, s.shouldPause, scope) then None
           else Some(s.(readers := s.readers[t := Reading(op)])))
    case WakeUp(t) =>
      if t in s.readers && s.readers[t].Parked? && s.readers[t].scope in s.closed then
        Some(s.(readers := s.readers[t := Reading(s.readers[t].op)]))
      else None
    case UnlockAfterRead(t) =>
      if t in s.readers && s.readers[t].Reading? then Some(s.(readers := s.readers - {t}, ongoingReadLock := None)) else None
    case MarkPause =>
      if Current(plan, s, true) && !s.marked then
        var scope := plan[s.pc].scope;
        Some(s.(shouldPause := s.shouldPause + {scope}, created := s.created + {scope}, marked := true))
      else None
    case ReturnFromPause =>
      if Current(plan, s, true) && s.marked && s.ongoingReadLock.None? then Some(s.(pc := s.pc + 1, marked := false)) else None
    case RunResume =>
      if Current(plan, s, false) then
        var scope := plan[s.pc].scope;
        if scope !in s.created || scope in s.closed then Some(s.(crashed := true))
        else Some(s.(closed := s.closed + {scope}, shouldPause := s.shouldPause - {scope}, pc := s.pc + 1))
      else None
  }

  /** Any interleaving, from the start. */
  function Execute(plan: seq<Act>, events: seq<Event>): Option<State> {
    if events == [] then Some(INITIAL)
    else
      match Execute(plan, events[..|events| - 1])
      case None => None
      case Some(s) => Apply(plan, s, events[|events| - 1])
  }

  /** The scopes whose pause has returned and whose channel has not been closed, after `k` actions. */
  function Active(plan: seq<Act>, k: nat): set<Scope>
    requires k <= |plan|
  {
    if k == 0 then {}
    else if plan[k - 1].Pause? then Active(plan, k - 1) + {plan[k - 1].scope}
    else Active(plan, k - 1) - {plan[k - 1].scope}
  }

  /** The scopes ever paused, and those ever resumed, in the first `k` actions. */
  function Paused(plan: seq<Act>, k: nat): set<Scope>
    requires k <= |plan|
  {
    if k == 0 then {}
    else if plan[k - 1].Pause? then Paused(plan, k - 1) + {plan[k - 1].scope}
    else Paused(plan, k - 1)
  }

  function Resumed(plan: seq<Act>, k: nat): set<Scope>
    requires k <= |plan|
  {
    if k == 0 then {}
    else if plan[k - 1].Resume? then Resumed(plan, k - 1) + {plan[k - 1].scope}
    else Resumed(plan, k - 1)
  }

  /** The first `k` actions do not end the process: only a scope paused before is resumed, and only once. */
  predicate Works(plan: seq<Act>, k: nat)
    requires k <= |plan|
  {
    forall i :: 0 <= i < k && plan[i].Resume? ==> plan[i].scope in Paused(plan, i) && plan[i].scope !in Resumed(plan, i)
  }

  /** No in-scope read is past its before-read hook and unfinished. */
  predicate Safe(plan: seq<Act>, s: State) {
    s.pc <= |plan|
    && forall t, scope :: t in s.readers && s.readers[t].Reading? && scope in Active(plan, s.pc) ==>
         !InScope(s.readers[t].op, scope)
  }

  // ----- Which plans are safe -----

  /** Resuming `s` may let a read pass that another active scope still covers. */
  ghost predicate Exposes(active: set<Scope>, s: Scope) {
    exists op, other :: MayParkOn(op, active, s) && other in active && other != s && InScope(op, other)
  }

  /** A resume must not expose another scope. A pause of a scope that was resumed before has no effect of its own, as its
      channel is closed; it is harmless only while "all" is paused. */
  ghost predicate StepIsCovered(plan: seq<Act>, i: nat)
    requires i < |plan|
  {
    match plan[i]
    case Resume(s) => !Exposes(Active(plan, i), s)
    case Pause(s) => s in Resumed(plan, i) ==> s != ALL && ALL in Active(plan, i)
  }

  ghost predicate IsCovered(plan: seq<Act>) {
    forall i :: 0 <= i < |plan| && Works(plan, i + 1) ==> StepIsCovered(plan, i)
  }

  predicate SameDirectory(a: Scope, b: Scope) {
    exists i :: 0 < i <= |a| && i <= |b| && a[..i] == b[..i] && a[i - 1] == '/'
  }

  /** What a plan author can check: "all" is resumed last of all active scopes, and while "all" is not active,
      a scope is resumed only if no other active one lies under a common path prefix. */
  lemma {:induction false} ExposesIff(active: set<Scope>, s: Scope)
    requires s in active
    ensures Exposes(active, s) <==>
              exists other :: other in active && other != s && (s == ALL || (ALL !in active && SameDirectory(s, other)))
  {
    if Exposes(active, s) {
      var op, other :| MayParkOn(op, active, s) && other in active && other != s && InScope(op, other);
      if s != ALL {
        CommonDirectory(op, s, other);
      }
    }
    if other :| other in active && other != s && (s == ALL || (ALL !in active && SameDirectory(s, other))) {
      if s == ALL {
        assert MayParkOn(Get(other), active, s) && InScope(Get(other), other);
      } else {
        var op := ListOfBoth(s, other);
        assert MayParkOn(op, active, s) && InScope(op, other);
      }
    }
  }

  lemma {:induction false} CommonDirectory(op: Read, s: Scope, other: Scope)
    requires InScope(op, s) && InScope(op, other) && s != other && s != ALL && other != ALL
    ensures SameDirectory(s, other)
  {
    var i := |op.resourceType| + 1;
    assert s[..i] == op.resourceType + "/" == other[..i];
  }

  lemma {:induction false} ListOfBoth(s: Scope, other: Scope) returns (op: Read)
    requires SameDirectory(s, other)
    ensures InScope(op, s) && InScope(op, other)
  {
    var i :| 0 < i <= |s| && i <= |other| && s[..i] == other[..i] && s[i - 1] == '/';
    op := List(s[..i - 1]);
    assert op.resourceType + "/" == s[..i];
  }

  // ----- Sufficiency -----

  ghost predicate Inv(plan: seq<Act>, s: State) {
    s.pc <= |plan| && Works(plan, s.pc) && (s.marked ==> Current(plan, s, true))
    && s.shouldPause == Active(plan, s.pc) + Marked(plan, s) && s.created == Paused(plan, s.pc) + Marked(plan, s)
    && s.closed == Resumed(plan, s.pc)
    && (forall t :: t in s.readers ==> s.ongoingReadLock == Some(t))
    && (forall t :: t in s.readers ==> PhaseInv(plan, s, s.readers[t]))
  }

  function Marked(plan: seq<Act>, s: State): set<Scope> {
    if s.marked && s.pc < |plan| then {plan[s.pc].scope} else {}
  }

  ghost predicate Uncovered(plan: seq<Act>, s: State, op: Read)
    requires s.pc <= |plan|
  {
    forall scope :: scope in Active(plan, s.pc) ==> !InScope(op, scope)
  }

  /** A parked read waits on an active scope it could have chosen, on the scope of the pause in progress, or on a closed
      channel that no active scope covers. */
  ghost predicate PhaseInv(plan: seq<Act>, s: State, p: Phase)
    requires s.pc <= |plan|
  {
    match p
    case Entered(_) => true
    case Reading(op) => Uncovered(plan, s, op)
    case Parked(op, scope) =>
      MayParkOn(op, Active(plan, s.pc), scope)
      || (scope in Marked(plan, s) && MayParkOn(op, Active(plan, s.pc) + {scope}, scope))
      || Uncovered(plan, s, op)
  }

  /** A scope that was resumed and paused again is shielded by "all". */
  lemma {:induction false} StaleIsShielded(plan: seq<Act>, k: nat, scope: Scope)
    requires k <= |plan| && Works(plan, k) && IsCovered(plan) && scope in Active(plan, k) && scope in Resumed(plan, k)
    ensures scope != ALL && ALL in Active(plan, k)
    decreases k
  {
    var s := plan[k - 1].scope;
    assert StepIsCovered(plan, k - 1);
    if plan[k - 1].Resume? {
      StaleIsShielded(plan, k - 1, scope);
      if s == ALL {
        assert MayParkOn(Get(scope), Active(plan, k - 1), ALL) && InScope(Get(scope), scope);
      }
    } else if scope in Active(plan, k - 1) && scope != s {
      StaleIsShielded(plan, k - 1, scope);
    }
  }

  lemma {:induction false} InvStep(plan: seq<Act>, s: State, e: Event)
    requires IsCovered(plan) && Inv(plan, s) && Apply(plan, s, e).Some?
    ensures Inv(plan, Apply(plan, s, e).value)
  {
    var s' := Apply(plan, s, e).value;
    match e
    case LockForRead(_, _) =>
    case LookUp(t, parkOn) => LookUpInv(plan, s, t, parkOn, s');
    case WakeUp(t) => WakeInv(plan, s, t); ReaderMoves(plan, s, t, s');
    case UnlockAfterRead(_) =>
    case MarkPause => MarkInv(plan, s, s');
    case ReturnFromPause => ReturnInv(plan, s, s');
    case RunResume => ResumeInv(plan, s, s');
  }

  /** A reader moves to a phase that fits the scopes. */
  lemma {:induction false} ReaderMoves(plan: seq<Act>, s: State, t: nat, s': State)
    requires Inv(plan, s) && t in s.readers && t in s'.readers && s' == s.(readers := s.readers[t := s'.readers[t]])
    requires PhaseInv(plan, s, s'.readers[t])
    ensures Inv(plan, s')
  {
  }

  lemma {:induction false} LookUpInv(plan: seq<Act>, s: State, t: nat, parkOn: Option<Scope>, s': State)
    requires Inv(plan, s) && Apply(plan, s, LookUp(t, parkOn)) == Some(s')
    ensures Inv(plan, s')
  {
    if parkOn.None? {
      NothingCovers(plan, s, s.readers[t].op);
    } else {
      ParkedFits(plan, s, s.readers[t].op, parkOn.value);
    }
    ReaderMoves(plan, s, t, s');
  }

  lemma {:induction false} ParkedFits(plan: seq<Act>, s: State, op: Read, scope: Scope)
    requires Inv(plan, s) && MayParkOn(op, s.shouldPause, scope)
    ensures PhaseInv(plan, s, Parked(op, scope))
  {
  }

  lemma {:induction false} NothingCovers(plan: seq<Act>, s: State, op: Read)
    requires Inv(plan, s) && forall scope :: scope in s.shouldPause ==> !MayParkOn(op, s.shouldPause, scope)
    ensures Uncovered(plan, s, op)
  {
    forall scope | scope in Active(plan, s.pc) ensures !InScope(op, scope) {
      var best := if ALL in s.shouldPause then ALL else scope;
      assert InScope(op, scope) ==> MayParkOn(op, s.shouldPause, best);
    }
  }

  /** Nobody is parked on a closed channel whose scope is to be paused. */
  lemma {:induction false} WakeInv(plan: seq<Act>, s: State, t: nat)
    requires IsCovered(plan) && Inv(plan, s) && t in s.readers && s.readers[t].Parked? && s.readers[t].scope in s.closed
    ensures Uncovered(plan, s, s.readers[t].op)
  {
    var op, scope := s.readers[t].op, s.readers[t].scope;
    if MayParkOn(op, Active(plan, s.pc), scope) {
      StaleIsShielded(plan, s.pc, scope);
    } else if scope in Marked(plan, s) {
      assert Works(plan, s.pc + 1) && StepIsCovered(plan, s.pc);
    }
  }

  /** The pause in progress only adds a scope to park on. */
  lemma {:induction false} MarkInv(plan: seq<Act>, s: State, s': State)
    requires Inv(plan, s) && Apply(plan, s, MarkPause) == Some(s')
    ensures Inv(plan, s')
  {
  }

  /** Once the lock is free there is no reader left, and the scope becomes active. */
  lemma {:induction false} ReturnInv(plan: seq<Act>, s: State, s': State)
    requires Inv(plan, s) && Apply(plan, s, ReturnFromPause) == Some(s')
    ensures Inv(plan, s')
  {
    assert s'.readers == map[];
    assert Works(plan, s'.pc);
  }

  lemma {:induction false} ResumeInv(plan: seq<Act>, s: State, s': State)
    requires IsCovered(plan) && Inv(plan, s) && Apply(plan, s, RunResume) == Some(s')
    ensures Inv(plan, s')
  {
    if !s'.crashed {
      assert Works(plan, s.pc + 1) && StepIsCovered(plan, s.pc);
      forall t | t in s.readers ensures PhaseInv(plan, s', s.readers[t]) {
        ParkedResume(plan, s, s', s.readers[t]);
      }
    }
  }

  lemma {:induction false} ParkedResume(plan: seq<Act>, s: State, s': State, p: Phase)
    requires s.pc < |plan| && plan[s.pc].Resume? && StepIsCovered(plan, s.pc) && !s.marked
    requires s'.pc == s.pc + 1 && !s'.marked && PhaseInv(plan, s, p)
    ensures PhaseInv(plan, s', p)
  {
    var scope := plan[s.pc].scope;
    var active := Active(plan, s.pc);
    assert Active(plan, s'.pc) == active - {scope};
    if p.Parked? && !Uncovered(plan, s, p.op) && p.scope == scope {
      forall other | other in active - {scope} ensures !InScope(p.op, other) {
        assert !Exposes(active, scope);
        assert MayParkOn(p.op, active, scope);
      }
    }
  }

  lemma {:induction false} InvHolds(plan: seq<Act>, events: seq<Event>)
    requires IsCovered(plan) && Execute(plan, events).Some?
    ensures Inv(plan, Execute(plan, events).value)
    decreases |events|
  {
    if events != [] {
      InvHolds(plan, events[..|events| - 1]);
      InvStep(plan, Execute(plan, events[..|events| - 1]).value, events[|events| - 1]);
    }
  }

  // ----- Necessity -----

  lemma {:induction false} ExecuteSnoc(plan: seq<Act>, events: seq<Event>, e: Event)
    ensures Execute(plan, events + [e]) ==
            match Execute(plan, events) case None => None case Some(s) => Apply(plan, s, e)
  {
    assert (events + [e])[..|events + [e]| - 1] == events;
  }

  /** The state after `k` actions when nobody reads. */
  function Alone(plan: seq<Act>, k: nat): State
    requires k <= |plan|
  {
    State(map[], None, Active(plan, k), Paused(plan, k), Resumed(plan, k), k, false, false)
  }

  lemma {:induction false} RunAlone(plan: seq<Act>, k: nat) returns (events: seq<Event>)
    requires k <= |plan| && Works(plan, k)
    ensures Execute(plan, events) == Some(Alone(plan, k))
    decreases k
  {
    if k == 0 {
      events := [];
    } else {
      var before := RunAlone(plan, k - 1);
      events := OneAction(plan, k - 1, before);
    }
  }

  lemma {:induction false} OneAction(plan: seq<Act>, k: nat, before: seq<Event>) returns (events: seq<Event>)
    requires k < |plan| && Works(plan, k + 1) && Execute(plan, before) == Some(Alone(plan, k))
    ensures Execute(plan, events) == Some(Alone(plan, k + 1))
  {
    var s := Alone(plan, k);
    if plan[k].Pause? {
      var scope := plan[k].scope;
      var t := s.(shouldPause := s.shouldPause + {scope}, created := s.created + {scope}, marked := true);
      ExecuteSnoc(plan, before, MarkPause);
      assert Apply(plan, s, MarkPause) == Some(t);
      ExecuteSnoc(plan, before + [MarkPause], ReturnFromPause);
      assert Apply(plan, t, ReturnFromPause) == Some(Alone(plan, k + 1));
      events := before + [MarkPause] + [ReturnFromPause];
    } else {
      ExecuteSnoc(plan, before, RunResume);
      assert Apply(plan, s, RunResume) == Some(Alone(plan, k + 1));
      events := before + [RunResume];
    }
  }

  /** A read parks on the scope that is resumed next, and passes while another active scope covers it. */
  lemma {:induction false} ExposedRun(plan: seq<Act>, i: nat) returns (events: seq<Event>)
    requires i < |plan| && Works(plan, i + 1) && plan[i].Resume? && Exposes(Active(plan, i), plan[i].scope)
    ensures Execute(plan, events).Some? && !Safe(plan, Execute(plan, events).value)
  {
    var scope := plan[i].scope;
    var op, other :| MayParkOn(op, Active(plan, i), scope) && other in Active(plan, i) && other != scope && InScope(op, other);
    var s;
    events, s := PassesResumed(plan, i, op);
    PassedRead(plan, s, op, other);
  }

  lemma {:induction false} PassesResumed(plan: seq<Act>, i: nat, op: Read) returns (events: seq<Event>, s: State)
    requires i < |plan| && Works(plan, i + 1) && plan[i].Resume? && MayParkOn(op, Active(plan, i), plan[i].scope)
    ensures Execute(plan, events) == Some(s) && s.pc == i + 1 && s.readers == map[0 := Reading(op)]
  {
    var e0 := RunAlone(plan, i);
    var e2, _ := ParkAlone(plan, i, e0, op, plan[i].scope);
    events, s := ResumeWakes(plan, i, e2, op);
  }

  /** The resume closes the channel, and the read passes. */
  lemma {:induction false} ResumeWakes(plan: seq<Act>, i: nat, e2: seq<Event>, op: Read)
    returns (events: seq<Event>, s: State)
    requires i < |plan| && plan[i].Resume? && Works(plan, i + 1)
    requires Execute(plan, e2)
          == Some(Alone(plan, i).(readers := map[0 := Parked(op, plan[i].scope)], ongoingReadLock := Some(0)))
    ensures Execute(plan, events) == Some(s) && s.pc == i + 1 && s.readers == map[0 := Reading(op)]
  {
    var s2 := Execute(plan, e2).value;
    var s3 := s2.(closed := s2.closed + {plan[i].scope}, shouldPause := s2.shouldPause - {plan[i].scope}, pc := i + 1);
    ExecuteSnoc(plan, e2, RunResume);
    assert Apply(plan, s2, RunResume) == Some(s3);
    ExecuteSnoc(plan, e2 + [RunResume], WakeUp(0));
    events := e2 + [RunResume] + [WakeUp(0)];
    s := s3.(readers := s3.readers[0 := Reading(op)]);
    assert s.readers == map[0 := Reading(op)];
  }

  /** Between two actions, a read parks on a scope. */
  lemma {:induction false} ParkAlone(plan: seq<Act>, k: nat, e0: seq<Event>, op: Read, scope: Scope)
    returns (events: seq<Event>, s: State)
    requires k <= |plan| && Execute(plan, e0) == Some(Alone(plan, k)) && MayParkOn(op, Active(plan, k), scope)
    ensures Execute(plan, events) == Some(s)
    ensures s == Alone(plan, k).(readers := map[0 := Parked(op, scope)], ongoingReadLock := Some(0))
  {
    var s0 := Alone(plan, k);
    var s1 := s0.(readers := map[0 := Entered(op)], ongoingReadLock := Some(0));
    ExecuteSnoc(plan, e0, LockForRead(0, op));
    assert Apply(plan, s0, LockForRead(0, op)) == Some(s1);
    ExecuteSnoc(plan, e0 + [LockForRead(0, op)], LookUp(0, Some(scope)));
    events := e0 + [LockForRead(0, op)] + [LookUp(0, Some(scope))];
    s := Apply(plan, s1, LookUp(0, Some(scope))).value;
    assert s.readers == map[0 := Parked(op, scope)];
  }

  lemma {:induction false} PassedRead(plan: seq<Act>, s: State, op: Read, scope: Scope)
    requires s.pc <= |plan| && 0 in s.readers && s.readers[0] == Reading(op) && scope in Active(plan, s.pc)
    requires InScope(op, scope)
    ensures !Safe(plan, s)
  {
  }

  /** After a scope has been paused again, a read passes through its closed channel. */
  lemma {:induction false} RepausedRun(plan: seq<Act>, i: nat) returns (events: seq<Event>)
    requires i < |plan| && Works(plan, i + 1) && plan[i].Pause? && plan[i].scope in Resumed(plan, i)
    requires plan[i].scope == ALL || ALL !in Active(plan, i)
    ensures Execute(plan, events).Some? && !Safe(plan, Execute(plan, events).value)
  {
    var scope, op := plan[i].scope, Get(plan[i].scope);
    var s;
    events, s := PassesClosed(plan, i + 1, op, scope);
    PassedRead(plan, s, op, scope);
  }

  lemma {:induction false} PassesClosed(plan: seq<Act>, k: nat, op: Read, scope: Scope) returns (events: seq<Event>, s: State)
    requires k <= |plan| && Works(plan, k) && MayParkOn(op, Active(plan, k), scope) && scope in Alone(plan, k).closed
    ensures Execute(plan, events) == Some(s) && s.pc == k && s.readers == map[0 := Reading(op)]
  {
    var e0 := RunAlone(plan, k);
    var e2, s2 := ParkAlone(plan, k, e0, op, scope);
    ExecuteSnoc(plan, e2, WakeUp(0));
    events := e2 + [WakeUp(0)];
    s := s2.(readers := s2.readers[0 := Reading(op)]);
    assert Apply(plan, s2, WakeUp(0)) == Some(s) && s.readers == map[0 := Reading(op)];
  }

  // ----- Reads that nothing holds back -----

  predicate Held(s: State, op: Read) {
    exists scope :: scope in s.shouldPause && InScope(op, scope)
  }

  /** A parked read waits on a scope to pause, or on a closed channel; it is in the scope. */
  ghost predicate ParkedInv(s: State) {
    forall t :: t in s.readers && s.readers[t].Parked? ==>
      InScope(s.readers[t].op, s.readers[t].scope) && (s.readers[t].scope in s.shouldPause || s.readers[t].scope in s.closed)
  }

  lemma {:induction false} ParkedHolds(plan: seq<Act>, events: seq<Event>)
    requires Execute(plan, events).Some?
    ensures ParkedInv(Execute(plan, events).value)
    decreases |events|
  {
    if events != [] {
      var before := events[..|events| - 1];
      ParkedHolds(plan, before);
      ParkedStep(plan, Execute(plan, before).value, events[|events| - 1]);
    }
  }

  lemma {:induction false} ParkedStep(plan: seq<Act>, s: State, e: Event)
    requires ParkedInv(s) && Apply(plan, s, e).Some?
    ensures ParkedInv(Apply(plan, s, e).value)
  {
  }

  /** In every interleaving, a read that has entered its hook or is parked there, and that no scope to pause covers now,
      can finish: nothing but such a scope holds it back. */
  lemma {:induction false} UnheldReadFinishes(plan: seq<Act>, events: seq<Event>, s: State, t: nat)
    returns (more: seq<Event>, end: State)
    requires Execute(plan, events) == Some(s) && !s.crashed && t in s.readers && !Held(s, s.readers[t].op)
    ensures Execute(plan, events + more) == Some(end) && t !in end.readers && end.ongoingReadLock == None
    ensures end.shouldPause == s.shouldPause && end.pc == s.pc
  {
    ParkedHolds(plan, events);
    var phase := s.readers[t];
    if phase.Reading? {
      more := [];
      assert events + more == events;
      end := s;
    } else {
      var e := if phase.Entered? then LookUp(t, None) else WakeUp(t);
      ExecuteSnoc(plan, events, e);
      more := [e];
      end := s.(readers := s.readers[t := Reading(phase.op)]);
      assert Apply(plan, s, e) == Some(end);
    }
    ExecuteSnoc(plan, events + more, UnlockAfterRead(t));
    assert events + more + [UnlockAfterRead(t)] == events + (more + [UnlockAfterRead(t)]);
    more, end := more + [UnlockAfterRead(t)], end.(readers := end.readers - {t}, ongoingReadLock := None);
  }

  /** Pause safety, for every plan: in every interleaving, from the return of a pause until its resume, no in-scope read is
      past its hook and unfinished; true of exactly the plans that are covered, step by step. */
  lemma {:induction false} PauseSafety(plan: seq<Act>)
    ensures (forall events :: Execute(plan, events).Some? ==> Safe(plan, Execute(plan, events).value)) <==> IsCovered(plan)
  {
    if IsCovered(plan) {
      forall events | Execute(plan, events).Some?
        ensures Safe(plan, Execute(plan, events).value)
      {
        InvHolds(plan, events);
      }
    } else {
      var i :| 0 <= i < |plan| && Works(plan, i + 1) && !StepIsCovered(plan, i);
      var events;
      if plan[i].Resume? {
        events := ExposedRun(plan, i);
      } else {
        events := RepausedRun(plan, i);
      }
      assert Execute(plan, events).Some? && !Safe(plan, Execute(plan, events).value);
    }
  }
}
