/** What the log of the learning server says: for every interleaving, its lines are those of the notifications
    sent, in the order in which they were sent, with the data of the calls that sent them. */
module LearnLog {
  import opened TriggerExpr
  import opened ServerLog
  import opened LearnServer

  // ----- The lines that a run should leave -----

  /** The ids drawn from the counter. */
  function Draws(events: seq<Event>, family: Family): nat {
    if events == [] then 0
    else
      var e := events[|events| - 1];
      Draws(events[..|events| - 1], family) + if e.DrawId? && e.kind.Family() == family then 1 else 0
  }

  predicate DrawnAt(events: seq<Event>, d: int, t: nat) {
    0 <= d < |events| && events[d].DrawId? && events[d].t == t
  }

  /** After the events, the latest call of client `t` is of this kind and has drawn this id. */
  ghost predicate IsCall(events: seq<Event>, t: nat, kind: Kind, id: int) {
    exists d :: DrawnAt(events, d, t) && events[d].kind == kind
                && id == IdAfter(Draws(events[..d + 1], kind.Family()))
                && forall later :: d < later < |events| ==> !DrawnAt(events, later, t)
  }

  predicate IsSend(e: Event) {
    e.SendAsk? || e.SendAfter? || e.SendCacheRead? || (e.InWorker? && (e.step.BeginSend? || e.step.EndSend?))
  }

  /** The line is the one due for the event `e`, which follows the events `before`. */
  ghost predicate Reports(l: Line, before: seq<Event>, e: Event) {
    match l
    case BeforeHear(id, key, rtype) => e.SendAsk? && IsCall(before, e.t, InformerEvent(key, rtype), id)
    case AfterHear(id) => e.SendAfter? && exists key, rtype :: IsCall(before, e.t, InformerEvent(key, rtype), id)
    case BeforeWrite(id) => e.SendAsk? && IsCall(before, e.t, WriteCall, id)
    case AfterWrite(id, fun, key) => e.SendAfter? && e.fun == fun && e.key == key && IsCall(before, e.t, WriteCall, id)
    case RestRead(fun, keys) => e.SendAfter? && e.fun == fun && e.keys == keys && exists id :: IsCall(before, e.t, ReadCall, id)
    case CacheRead(fun, isGet, rtype, keys) => e == SendCacheRead(fun, isGet, rtype, keys)
    case BeforeReconcile(fun, _) => e == InWorker(fun, BeginSend)
    case AfterReconcile(fun, _) => e == InWorker(fun, EndSend)
    case Other =>
      (e.SendAsk? && exists id :: IsCall(before, e.t, ReadCall, id) || IsCall(before, e.t, ApiCall, id))
      || (e.SendAfter? && exists id :: IsCall(before, e.t, ApiCall, id))
  }

  datatype Sent = Sent(before: seq<Event>, e: Event)

  /** What was sent, in order. */
  function Sends(events: seq<Event>): seq<Sent> {
    if events == [] then []
    else
      var before, e := events[..|events| - 1], events[|events| - 1];
      Sends(before) + if IsSend(e) then [Sent(before, e)] else []
  }

  /** The log reports a prefix of what was sent, one line each; the rest is still in the channel. */
  ghost predicate IsReport(log: Log, sends: seq<Sent>, pending: nat) {
    |log| + pending == |sends| && forall k :: 0 <= k < |log| ==> Reports(log[k], sends[k].before, sends[k].e)
  }

  // ----- Every run leaves them -----

  /** The notification is the one that was sent. */
  ghost predicate Carries(n: Notification, sent: Sent) {
    var e := sent.e;
    match n
    case BeginNote(f) => e == InWorker(f, BeginSend)
    case EndNote(f) => e == InWorker(f, EndSend)
    case Ask(kind, id) => e.SendAsk? && IsCall(sent.before, e.t, kind, id)
    case After(kind, id, fun, key, keys) =>
      e.SendAfter? && e.fun == fun && e.key == key && e.keys == keys && IsCall(sent.before, e.t, kind, id)
    case CacheNote(fun, isGet, rtype, keys) => e == SendCacheRead(fun, isGet, rtype, keys)
  }

  ghost predicate AllCarried(queue: seq<Notification>, sends: seq<Sent>) {
    |queue| == |sends| && forall k :: 0 <= k < |queue| ==> Carries(queue[k], sends[k])
  }

  ghost predicate Flow(log: Log, queue: seq<Notification>, sends: seq<Sent>) {
    IsReport(log, sends, |queue|) && AllCarried(queue, sends[|log|..])
  }

  ghost predicate CallsKnown(events: seq<Event>, callers: Calls) {
    forall t :: t in callers ==> IsCall(events, t, callers[t].kind, callers[t].id)
  }

  ghost predicate Reported(events: seq<Event>, s: State) {
    CallsKnown(events, s.callers) && (forall family :: Count(s.counts, family) == Draws(events, family))
    && Flow(s.coordinator.log, s.queue, Sends(events))
  }

  lemma {:induction false} CallStays(events: seq<Event>, e: Event, t: nat, kind: Kind, id: int)
    requires IsCall(events, t, kind, id) && !(e.DrawId? && e.t == t)
    ensures IsCall(events + [e], t, kind, id)
  {
    var d :| DrawnAt(events, d, t) && events[d].kind == kind && id == IdAfter(Draws(events[..d + 1], kind.Family()))
             && forall later :: d < later < |events| ==> !DrawnAt(events, later, t);
    var all := events + [e];
    assert all[..d + 1] == events[..d + 1] && DrawnAt(all, d, t);
    forall later | d < later < |all| ensures !DrawnAt(all, later, t) {
      assert later < |events| ==> !DrawnAt(events, later, t);
    }
  }

  lemma {:induction false} CallIsDrawn(events: seq<Event>, t: nat, kind: Kind)
    ensures IsCall(events + [DrawId(t, kind)], t, kind, IdAfter(Draws(events, kind.Family()) + 1))
  {
    var all := events + [DrawId(t, kind)];
    assert DrawnAt(all, |events|, t) && all[..|events| + 1] == all && all[..|events|] == events;
  }

  /** Clients that the event does not concern keep their calls. */
  lemma {:induction false} CallsStay(events: seq<Event>, e: Event, callers: Calls, callers': Calls)
    requires CallsKnown(events, callers)
    requires forall t :: t in callers' && !(e.DrawId? && e.t == t) ==>
               t in callers && callers'[t].kind == callers[t].kind && callers'[t].id == callers[t].id
    requires e.DrawId? && e.t in callers' ==>
               callers'[e.t].kind == e.kind && callers'[e.t].id == IdAfter(Draws(events, e.kind.Family()) + 1)
    ensures CallsKnown(events + [e], callers')
  {
    forall t | t in callers' ensures IsCall(events + [e], t, callers'[t].kind, callers'[t].id) {
      if e.DrawId? && e.t == t {
        CallIsDrawn(events, t, e.kind);
      } else {
        CallStays(events, e, t, callers'[t].kind, callers'[t].id);
      }
    }
  }

  lemma {:induction false} OneMoreEvent(events: seq<Event>, e: Event)
    ensures Sends(events + [e]) == Sends(events) + if IsSend(e) then [Sent(events, e)] else []
    ensures forall family :: Draws(events + [e], family)
                             == Draws(events, family) + if e.DrawId? && e.kind.Family() == family then 1 else 0
  {
    assert (events + [e])[..|events|] == events;
  }

  lemma {:induction false} FlowIn(log: Log, queue: seq<Notification>, sends: seq<Sent>, n: Notification, sent: Sent)
    requires Flow(log, queue, sends) && Carries(n, sent)
    ensures Flow(log, queue + [n], sends + [sent])
  {
    assert (sends + [sent])[|log|..] == sends[|log|..] + [sent];
  }

  lemma {:induction false} FlowOut(log: Log, queue: seq<Notification>, sends: seq<Sent>, l: Line)
    requires queue != [] && Flow(log, queue, sends) && ReportsNote(l, queue[0])
    ensures Flow(log + [l], queue[1..], sends)
  {
    var first := sends[|log|];
    assert sends[|log|..][0] == first && sends[|log| + 1..] == sends[|log|..][1..];
    CarriedIsReported(queue[0], first, l);
  }

  /** The line differs from `LineOf` at most in the id of a reconcile. */
  predicate ReportsNote(l: Line, n: Notification) {
    match n
    case BeginNote(f) => l.BeforeReconcile? && l.fun == f
    case EndNote(f) => l.AfterReconcile? && l.fun == f
    case _ => l == LineOf(n)
  }

  lemma {:induction false} CarriedIsReported(n: Notification, sent: Sent, l: Line)
    requires Carries(n, sent) && ReportsNote(l, n)
    ensures Reports(l, sent.before, sent.e)
  {
    if n.Ask? {
      assert IsCall(sent.before, sent.e.t, n.kind, n.id);
    }
  }

  /** The channel, the log and the counters are left alone, and no call is new. */
  ghost predicate Quiet(s: State, s': State) {
    s'.queue == s.queue && s'.coordinator.log == s.coordinator.log && s'.counts == s.counts && NoNewCalls(s.callers, s'.callers)
  }

  ghost predicate NoNewCalls(callers: Calls, callers': Calls) {
    forall t :: t in callers' ==> t in callers && callers'[t].kind == callers[t].kind && callers'[t].id == callers[t].id
  }

  ghost predicate Sending(s: State, s': State, n: Notification) {
    s'.queue == s.queue + [n] && s'.coordinator.log == s.coordinator.log && s'.counts == s.counts && NoNewCalls(s.callers, s'.callers)
  }

  ghost predicate Drawing(s: State, s': State, t: nat, kind: Kind) {
    var n := Count(s.counts, kind.Family()) + 1;
    s' == s.(counts := s.counts[kind.Family() := n], callers := s.callers[t := Call(kind, IdAfter(n), Allocated)])
  }

  /** The first notification has left the channel for the log. */
  ghost predicate Logging(s: State, s': State, l: Line) {
    s.queue != [] && s'.queue == s.queue[1..] && s'.coordinator.log == s.coordinator.log + [l] && ReportsNote(l, s.queue[0])
    && s'.counts == s.counts && s'.callers == s.callers
  }

  lemma {:induction false} MoveIsQuiet(s: State, e: Event, s': State)
    requires Apply(s, e) == Some(s') && (e.StoreChannel? || e.Release?)
    ensures Quiet(s, s')
  {
  }

  /** The notification that a handler sends, if the event is a send. */
  lemma {:induction false} HandlerSends(s: State, e: Event, s': State) returns (n: Notification)
    requires Apply(s, e) == Some(s') && (e.SendAsk? || e.SendAfter?)
    ensures e.t in s.callers && Sending(s, s', n)
    ensures var c := s.callers[e.t];
            n == if e.SendAsk? then Ask(c.kind, c.id) else After(c.kind, c.id, e.fun, e.key, e.keys)
  {
    var c := s.callers[e.t];
    n := if e.SendAsk? then Ask(c.kind, c.id) else After(c.kind, c.id, e.fun, e.key, e.keys);
  }

  lemma {:induction false} WorkerSends(s: State, f: string, step: WorkerEvent, s': State)
    requires WorkerStep(s, f, step) == Some(s')
    ensures step.BeginSend? ==> Sending(s, s', BeginNote(f))
    ensures step.EndSend? ==> Sending(s, s', EndNote(f))
    ensures !step.BeginSend? && !step.EndSend? ==> Quiet(s, s')
  {
  }

  lemma {:induction false} ProcessLogs(c: Coordinator, channels: Channels, reconcileChannels: map<string, bool>,
                                       n: Notification) returns (l: Line)
    requires Process(c, channels, reconcileChannels, n).Some?
    ensures Process(c, channels, reconcileChannels, n).value.log == c.log + [l] && ReportsNote(l, n)
  {
    l := Process(c, channels, reconcileChannels, n).value.log[|c.log|];
  }

  /** A turn of the coordinator writes one line, unless it aborts. */
  lemma {:induction false} TurnLogs(s: State, s': State) returns (l: Line)
    requires Apply(s, Coordinate) == Some(s')
    ensures if s'.fatal then Quiet(s, s') else Logging(s, s', l)
  {
    if s'.fatal {
      l := Other;
    } else {
      l := ProcessLogs(s.coordinator, s.channels, s.reconcileChannels, s.queue[0]);
    }
  }

  lemma {:induction false} QuietIsReported(events: seq<Event>, s: State, e: Event, s': State)
    requires Reported(events, s) && !IsSend(e) && !e.DrawId? && Quiet(s, s')
    ensures Reported(events + [e], s')
  {
    OneMoreEvent(events, e);
    CallsStay(events, e, s.callers, s'.callers);
  }

  lemma {:induction false} SendIsReported(events: seq<Event>, s: State, e: Event, s': State, n: Notification)
    requires Reported(events, s) && IsSend(e) && Carries(n, Sent(events, e)) && Sending(s, s', n)
    ensures Reported(events + [e], s')
  {
    OneMoreEvent(events, e);
    CallsStay(events, e, s.callers, s'.callers);
    FlowIn(s.coordinator.log, s.queue, Sends(events), n, Sent(events, e));
  }

  lemma {:induction false} DrawIsReported(events: seq<Event>, s: State, t: nat, kind: Kind, s': State)
    requires Reported(events, s) && Drawing(s, s', t, kind)
    ensures Reported(events + [DrawId(t, kind)], s')
  {
    var e := DrawId(t, kind);
    CallsStay(events, e, s.callers, s'.callers);
    CountsFollow(events, s.counts, t, kind);
    OneMoreEvent(events, e);
    assert Sends(events + [e]) == Sends(events);
  }

  lemma {:induction false} CountsFollow(events: seq<Event>, counts: map<Family, nat>, t: nat, kind: Kind)
    requires forall family :: Count(counts, family) == Draws(events, family)
    ensures var counts' := counts[kind.Family() := Count(counts, kind.Family()) + 1];
            forall family :: Count(counts', family) == Draws(events + [DrawId(t, kind)], family)
  {
    OneMoreEvent(events, DrawId(t, kind));
  }

  lemma {:induction false} LineIsReported(events: seq<Event>, s: State, s': State, l: Line)
    requires Reported(events, s) && Logging(s, s', l)
    ensures Reported(events + [Coordinate], s')
  {
    OneMoreEvent(events, Coordinate);
    CallsStay(events, Coordinate, s.callers, s'.callers);
    FlowOut(s.coordinator.log, s.queue, Sends(events), l);
  }

  lemma {:induction false} StepIsReported(events: seq<Event>, s: State, e: Event, s': State)
    requires Reported(events, s) && Apply(s, e) == Some(s')
    ensures Reported(events + [e], s')
  {
    if e.DrawId? {
      DrawIsReported(events, s, e.t, e.kind, s');
    } else if e.SendAsk? || e.SendAfter? {
      var n := HandlerSends(s, e, s');
      assert IsCall(events, e.t, s.callers[e.t].kind, s.callers[e.t].id);
      SendIsReported(events, s, e, s', n);
    } else if e.SendCacheRead? {
      SendIsReported(events, s, e, s', CacheNote(e.fun, e.isGet, e.rtype, e.keys));
    } else if e.InWorker? {
      WorkerIsReported(events, s, e.f, e.step, s');
    } else if e.Coordinate? {
      var l := TurnLogs(s, s');
      if s'.fatal {
        QuietIsReported(events, s, e, s');
      } else {
        LineIsReported(events, s, s', l);
      }
    } else {
      MoveIsQuiet(s, e, s');
      QuietIsReported(events, s, e, s');
    }
  }

  lemma {:induction false} WorkerIsReported(events: seq<Event>, s: State, f: string, step: WorkerEvent, s': State)
    requires Reported(events, s) && WorkerStep(s, f, step) == Some(s')
    ensures Reported(events + [InWorker(f, step)], s')
  {
    var e := InWorker(f, step);
    WorkerSends(s, f, step, s');
    if step.BeginSend? {
      SendIsReported(events, s, e, s', BeginNote(f));
    } else if step.EndSend? {
      SendIsReported(events, s, e, s', EndNote(f));
    } else {
      QuietIsReported(events, s, e, s');
    }
  }

  lemma {:induction false} RunIsReported(events: seq<Event>, s: State)
    requires Execute(events) == Some(s)
    ensures Reported(events, s)
    decreases |events|
  {
    if events == [] {
      NothingIsReported();
    } else {
      var before, e := events[..|events| - 1], events[|events| - 1];
      var t := Execute(before).value;
      assert Apply(t, e) == Some(s);
      RunIsReported(before, t);
      StepIsReported(before, t, e, s);
      assert events == before + [e];
    }
  }

  lemma {:induction false} NothingIsReported()
    ensures Reported([], INITIAL)
  {
    assert Sends([]) == [] && forall family :: Draws([], family) == 0;
  }

  /** In every interleaving, however long: the log has one line for each notification sent that has left the channel, in
      the order of sending, with the id, key, type, function and keys of the call or the read that sent it. */
  lemma {:induction false} LogIsReport(events: seq<Event>, s: State)
    requires Execute(events) == Some(s)
    ensures IsReport(s.coordinator.log, Sends(events), |s.queue|)
  {
    RunIsReported(events, s);
  }

  /** Every hear of the log is an event that an informer received, under the id drawn for it. */
  lemma {:induction false} HearsAreReceived(events: seq<Event>, s: State, k: nat)
    requires Execute(events) == Some(s) && k < |s.coordinator.log| && s.coordinator.log[k].BeforeHear?
    ensures var l := s.coordinator.log[k];
            exists d :: 0 <= d < |events| && events[d].DrawId? && events[d].kind == InformerEvent(l.key, l.rtype)
                        && l.hearId == IdAfter(Draws(events[..d + 1], Events))
  {
    LogIsReport(events, s);
    SendsArePrefixes(events, k);
    DrawnFor(events, Sends(events)[k], s.coordinator.log[k]);
  }

  lemma {:induction false} DrawnFor(events: seq<Event>, sent: Sent, l: Line)
    requires sent.before <= events && l.BeforeHear? && Reports(l, sent.before, sent.e)
    ensures exists d :: 0 <= d < |events| && events[d].DrawId? && events[d].kind == InformerEvent(l.key, l.rtype)
                        && l.hearId == IdAfter(Draws(events[..d + 1], Events))
  {
    var d :| DrawnAt(sent.before, d, sent.e.t) && sent.before[d].kind == InformerEvent(l.key, l.rtype)
             && l.hearId == IdAfter(Draws(sent.before[..d + 1], Events));
    assert events[..d + 1] == sent.before[..d + 1] && events[d] == sent.before[d];
  }

  lemma {:induction false} SendsArePrefixes(events: seq<Event>, k: nat)
    requires k < |Sends(events)|
    ensures Sends(events)[k].before <= events
    decreases |events|
  {
    var before := events[..|events| - 1];
    if k < |Sends(before)| {
      SendsArePrefixes(before, k);
    }
  }
}
