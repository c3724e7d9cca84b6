/** The learning server with its rate limiter off: any number of informers and REST callers, one worker
    per reconciler, and the coordinating loop, as steps over the shared counters, channel maps and the
    buffered notification channel. */
module LearnServer {
  import opened TriggerExpr
  import opened ServerLog

  const CAPACITY: nat := 500
  const TWO_TO_32: int := 0x1_0000_0000

  /** The int32 held by an atomic counter that starts at -1, after `n` additions of one. */
  function IdAfter(n: nat): int {
    var m := (n + TWO_TO_32 - 1) % TWO_TO_32;
    if m < 0x8000_0000 then m else m - TWO_TO_32
  }

  /** The first count that yields the id. */
  function Ordinal(id: int): int {
    if id >= 0 then id + 1 else id + TWO_TO_32 + 1
  }

  lemma {:induction false} OrdinalOfId(n: nat)
    requires 1 <= n <= TWO_TO_32
    ensures Ordinal(IdAfter(n)) == n
  {
    assert n + TWO_TO_32 - 1 == TWO_TO_32 + (n - 1) && (n + TWO_TO_32 - 1) % TWO_TO_32 == n - 1;
  }

  function Decimal(n: nat): string {
    (if n < 10 then [] else Decimal(n / 10)) + [('0' as int + n % 10) as char]
  }

  /** The number that a string of digits stands for. */
  function NumberOf(s: string): int {
    if s == "" then 0 else 10 * NumberOf(s[..|s| - 1]) + (s[|s| - 1] as int - '0' as int)
  }

  predicate IsNumeral(s: string) {
    s != "" && (s[0] == '0' ==> |s| == 1) && forall i :: 0 <= i < |s| ==> '0' <= s[i] <= '9'
  }

  /** Reconcile ids are numerals, and no two numbers share one. */
  lemma {:induction false} DecimalIsNumeral(n: nat)
    ensures IsNumeral(Decimal(n)) && NumberOf(Decimal(n)) == n
  {
    if n >= 10 {
      DecimalIsNumeral(n / 10);
      var before := Decimal(n / 10);
      assert Decimal(n)[..|Decimal(n)| - 1] == before;
      assert before != "0" by {
        assert NumberOf("0") == 0;
      }
    }
  }

  // ----- State -----

  /** One id counter and one channel map each. */
  datatype Family = Events | Operations | Invocations

  datatype Kind = InformerEvent(key: string, rtype: string) | WriteCall | ReadCall | ApiCall {
    function Family(): Family {
      match this
      case InformerEvent(_, _) => Events
      case ApiCall => Invocations
      case _ => Operations
    }
  }

  /** A handler that asks for permission: it draws an id, stores its channel, sends its notification and waits;
      once released, its caller works and then calls the matching after-handler. */
  datatype CallStage = Allocated | Stored | Waiting | Released
  datatype Call = Call(kind: Kind, id: int, stage: CallStage)

  /** The worker of a reconciler; an idle one is not listed. */
  datatype WorkerStage = Checked | Registered | Waits | Reconciling | EndChecked | Unregistered

  datatype Notification =
    | BeginNote(fun: string)
    | EndNote(fun: string)
    | Ask(kind: Kind, id: int)
    | After(kind: Kind, id: int, fun: string, key: string, keys: set<string>)
    | CacheNote(fun: string, isGet: bool, rtype: string, keys: set<string>)

  datatype Target = Caller(t: nat) | Worker(f: string)

  type Calls = map<nat, Call>
  type Workers = map<string, WorkerStage>
  type Channels = map<(Family, int), nat>

  /** `releasing` is the pending send on a waiting channel. */
  datatype Coordinator = Coordinator(releasing: Option<Target>, ongoing: int, reconcileCnt: map<string, nat>, log: Log)

  datatype State = State(
    counts: map<Family, nat>,
    callers: Calls,
    workers: Workers,
    channels: Channels,
    reconcileChannels: map<string, bool>,  // false is the stored nil
    queue: seq<Notification>,
    coordinator: Coordinator,
    fatal: bool)

  const INITIAL: State := State(map[], map[], map[], map[], map[], [], Coordinator(None, 0, map[], []), false)

  datatype WorkerEvent = BeginLoad | BeginStore | BeginSend | EndLoad | EndStore | EndSend

  datatype Event =
    | DrawId(t: nat, kind: Kind)
    | StoreChannel(t: nat)
    | SendAsk(t: nat)
    | SendAfter(t: nat, fun: string, key: string, keys: set<string>)
    | SendCacheRead(fun: string, isGet: bool, rtype: string, keys: set<string>)
    | InWorker(f: string, step: WorkerEvent)
    | Coordinate
    | Release

  function Count(counts: map<Family, nat>, family: Family): nat {
    if family in counts then counts[family] else 0
  }

  predicate CallAt(s: State, t: nat, stage: CallStage) {
    t in s.callers && s.callers[t].stage == stage
  }

  predicate WorkerAt(s: State, f: string, stage: WorkerStage) {
    f in s.workers && s.workers[f] == stage
  }

  function Move(s: State, t: nat, stage: CallStage): State
    requires t in s.callers
  {
    s.(callers := s.callers[t := s.callers[t].(stage := stage)])
  }

  function Work(s: State, f: string, stage: WorkerStage): State {
    s.(workers := s.workers[f := stage])
  }

  function Free(s: State): State {
    s.(coordinator := s.coordinator.(releasing := None))
  }

  function Send(s: State, n: Notification): Option<State> {
    if |s.queue| < CAPACITY then Some(s.(queue := s.queue + [n])) else None
  }

  /** The handlers before and after a reconcile. */
  function WorkerStep(s: State, f: string, step: WorkerEvent): Option<State> {
    match step
    case BeginLoad =>
      if f in s.workers then None
      else if f in s.reconcileChannels && s.reconcileChannels[f] then Some(s.(fatal := true))
      else Some(Work(s, f, Checked))
    case BeginStore =>
      if !WorkerAt(s, f, Checked) then None
      else Some(Work(s, f, Registered).(reconcileChannels := s.reconcileChannels[f := true]))
    case BeginSend => if !WorkerAt(s, f, Registered) then None else Send(Work(s, f, Waits), BeginNote(f))
    case EndLoad =>
      if !WorkerAt(s, f, Reconciling) then None
      else if f !in s.reconcileChannels || !s.reconcileChannels[f] then Some(s.(fatal := true))
      else Some(Work(s, f, EndChecked))
    case EndStore =>
      if !WorkerAt(s, f, EndChecked) then None
      else Some(Work(s, f, Unregistered).(reconcileChannels := s.reconcileChannels[f := false]))
    case EndSend =>
      if !WorkerAt(s, f, Unregistered) then None else Send(s.(workers := s.workers - {f}), EndNote(f))
  }

  /** The effect of a step, None if it cannot happen; nothing happens after an abort. */
  function Apply(s: State, e: Event): Option<State> {
    if s.fatal then None else
    match e
    case DrawId(t, kind) =>
      if t in s.callers then None
      else
        var n := Count(s.counts, kind.Family()) + 1;
        Some(s.(counts := s.counts[kind.Family() := n], callers := s.callers[t := Call(kind, IdAfter(n), Allocated)]))
    case StoreChannel(t) =>
      if !CallAt(s, t, Allocated) then None
      else Some(Move(s, t, Stored).(channels := s.channels[(s.callers[t].kind.Family(), s.callers[t].id) := t]))
    case SendAsk(t) =>
      if !CallAt(s, t, Stored) then None
      else Send(Move(s, t, Waiting), Ask(s.callers[t].kind, s.callers[t].id))
    case SendAfter(t, fun, key, keys) =>
      if !CallAt(s, t, Released) then None
      else Send(s.(callers := s.callers - {t}), After(s.callers[t].kind, s.callers[t].id, fun, key, keys))
    case SendCacheRead(fun, isGet, rtype, keys) => Send(s, CacheNote(fun, isGet, rtype, keys))
    case InWorker(f, step) => WorkerStep(s, f, step)
    case Coordinate =>
      if s.coordinator.releasing.Some? || s.queue == [] then None
      else
        (match Process(s.coordinator, s.channels, s.reconcileChannels, s.queue[0])
         case None => Some(s.(fatal := true))
         case Some(c) => Some(s.(queue := s.queue[1..], coordinator := c)))
    case Release =>
      (match s.coordinator.releasing
       case None => None
       case Some(Caller(t)) => if !CallAt(s, t, Waiting) then None else Some(Move(Free(s), t, Released))
       case Some(Worker(f)) => if !WorkerAt(s, f, Waits) then None else Some(Work(Free(s), f, Reconciling)))
  }

  /** One turn of the coordinating loop, up to its send on a waiting channel; None if it aborts. */
  function Process(c: Coordinator, channels: Channels, reconcileChannels: map<string, bool>,
                   n: Notification): Option<Coordinator> {
    match n
    case BeginNote(f) =>
      var k := if f in c.reconcileCnt then c.reconcileCnt[f] + 1 else 0;
      if f !in reconcileChannels || !reconcileChannels[f] then None
      else Some(Coordinator(Some(Worker(f)), c.ongoing + 1, c.reconcileCnt[f := k], c.log + [BeforeReconcile(f, Decimal(k))]))
    case EndNote(f) =>
      var k := if f in c.reconcileCnt then c.reconcileCnt[f] else 0;
      if c.ongoing - 1 < 0 then None
      else Some(c.(ongoing := c.ongoing - 1, log := c.log + [AfterReconcile(f, Decimal(k))]))
    case Ask(kind, id) =>
      if (kind.Family(), id) !in channels then None
      else Some(c.(log := c.log + [LineOf(n)], releasing := Some(Caller(channels[(kind.Family(), id)]))))
    case _ => Some(c.(log := c.log + [LineOf(n)]))
  }

  /** The log line of a notification; reconcile ids are the coordinator's. */
  function LineOf(n: Notification): Line {
    match n
    case BeginNote(f) => BeforeReconcile(f, "")
    case EndNote(f) => AfterReconcile(f, "")
    case Ask(InformerEvent(key, rtype), id) => BeforeHear(id, key, rtype)
    case Ask(WriteCall, id) => BeforeWrite(id)
    case Ask(_, _) => Other
    case After(InformerEvent(_, _), id, _, _, _) => AfterHear(id)
    case After(WriteCall, id, fun, key, _) => AfterWrite(id, fun, key)
    case After(ReadCall, _, fun, _, keys) => RestRead(fun, keys)
    case After(ApiCall, _, _, _, _) => Other
    case CacheNote(fun, isGet, rtype, keys) => CacheRead(fun, isGet, rtype, keys)
  }

  /** Any interleaving, from the start. */
  function Execute(events: seq<Event>): Option<State> {
    if events == [] then Some(INITIAL)
    else
      match Execute(events[..|events| - 1])
      case None => None
      case Some(s) => Apply(s, events[|events| - 1])
  }

  // ----- What every run keeps -----

  function Begun(log: Log, f: string): nat {
    if log == [] then 0
    else
      var l := log[|log| - 1];
      Begun(log[..|log| - 1], f) + if l.BeforeReconcile? && l.fun == f then 1 else 0
  }

  function Ended(log: Log, f: string): nat {
    if log == [] then 0
    else
      var l := log[|log| - 1];
      Ended(log[..|log| - 1], f) + if l.AfterReconcile? && l.fun == f then 1 else 0
  }

  /** The reconciles of each reconciler are numbered 0, 1, 2, ... at their begin and at their end. */
  predicate NumberedLine(log: Log, i: nat)
    requires i < |log|
  {
    match log[i]
    case BeforeReconcile(f, rid) => rid == Decimal(Begun(log[..i], f))
    case AfterReconcile(f, rid) => rid == Decimal(Ended(log[..i], f))
    case _ => true
  }

  predicate Numbered(log: Log) {
    forall i :: 0 <= i < |log| ==> NumberedLine(log, i)
  }

  /** The sanity check carried on over the notifications in the channel. */
  function CheckOn(s: Option<Sanity>, queue: seq<Notification>): Option<Sanity>
    decreases |queue|
  {
    if s.None? || queue == [] then s else CheckOn(CheckLine(s.value, LineOf(queue[0])), queue[1..])
  }

  lemma {:induction false} CheckOnSend(s: Option<Sanity>, queue: seq<Notification>, n: Notification)
    ensures CheckOn(s, queue + [n]) ==
            match CheckOn(s, queue) case None => None case Some(v) => CheckLine(v, LineOf(n))
    decreases |queue|
  {
    if s.Some? {
      if queue == [] {
        assert CheckOn(s, [n]) == CheckOn(CheckLine(s.value, LineOf(n)), [n][1..]);
      } else {
        assert (queue + [n])[1..] == queue[1..] + [n];
        CheckOnSend(CheckLine(s.value, LineOf(queue[0])), queue[1..], n);
      }
    }
  }

  predicate Known(counts: map<Family, nat>, family: Family, id: int) {
    1 <= Ordinal(id) <= Count(counts, family)
  }

  predicate Asked(stage: CallStage) {
    stage == Waiting || stage == Released
  }

  predicate Open(workers: map<string, WorkerStage>, f: string) {
    f in workers && workers[f] != Checked && workers[f] != Registered
  }

  /** Ids in use are distinct within a family, and stored channels belong to their callers. */
  ghost predicate CallersInv(counts: map<Family, nat>, callers: Calls, channels: Channels) {
    (forall t :: t in callers ==> Known(counts, callers[t].kind.Family(), callers[t].id))
    && (forall t, u :: t in callers && u in callers && t != u ==> At(callers[t]) != At(callers[u]))
    && (forall t :: t in callers && callers[t].stage != Allocated ==> At(callers[t]) in channels && channels[At(callers[t])] == t)
  }

  function At(c: Call): (Family, int) {
    (c.kind.Family(), c.id)
  }

  ghost predicate WorkersInv(workers: Workers, reconcileChannels: map<string, bool>) {
    forall f :: (f in reconcileChannels && reconcileChannels[f])
                <==> (f in workers && workers[f] != Checked && workers[f] != Unregistered)
  }

  /** Whoever a queued notification will release is waiting for it. */
  predicate Awaited(callers: Calls, channels: Channels, workers: Workers, n: Notification) {
    match n
    case Ask(kind, id) =>
      var at := (kind.Family(), id);
      at in channels && channels[at] in callers && callers[channels[at]] == Call(kind, id, Waiting)
    case BeginNote(f) => f in workers && workers[f] == Waits
    case _ => true
  }

  predicate Wakes(n: Notification) {
    n.Ask? || n.BeginNote?
  }

  /** The notification by which the target asked to be released. */
  function AskOf(callers: Calls, workers: Workers, target: Target): Option<Notification> {
    match target
    case Caller(t) => if t in callers && callers[t].stage == Waiting then Some(Ask(callers[t].kind, callers[t].id)) else None
    case Worker(f) => if f in workers && workers[f] == Waits then Some(BeginNote(f)) else None
  }

  ghost predicate NotAskedTwice(queue: seq<Notification>) {
    forall i, j :: 0 <= i < j < |queue| && Wakes(queue[i]) ==> queue[i] != queue[j]
  }

  ghost predicate QueueInv(queue: seq<Notification>, callers: Calls, channels: Channels, workers: Workers) {
    NotAskedTwice(queue) && forall n :: n in queue ==> Awaited(callers, channels, workers, n)
  }

  /** The coordinator is sending to somebody who waits and whose notification has left the queue. */
  ghost predicate ReleaseInv(releasing: Option<Target>, queue: seq<Notification>, callers: Calls, workers: Workers) {
    releasing.Some? ==>
      AskOf(callers, workers, releasing.value).Some? && AskOf(callers, workers, releasing.value).value !in queue
  }

  /** The sanity check of the log and the queue together agrees with where everyone stands. */
  ghost predicate SanityInv(v: Sanity, counts: map<Family, nat>, callers: Calls, workers: Workers) {
    AtMostTwice(v.writes) && AtMostTwice(v.hears)
    && (forall id :: id in v.hears ==> Known(counts, Events, id))
    && (forall id :: id in v.writes ==> Known(counts, Operations, id))
    && (forall t :: t in callers ==> CallSane(v, callers[t]))
    && (forall f :: f in v.reconciles ==> v.reconciles[f] == if Open(workers, f) then 1 else 0)
    && (forall f :: Open(workers, f) ==> f in v.reconciles)
  }

  predicate CallSane(v: Sanity, c: Call) {
    match c.kind
    case InformerEvent(_, _) => if Asked(c.stage) then c.id in v.hears && v.hears[c.id] == 1 else c.id !in v.hears
    case WriteCall => if Asked(c.stage) then c.id in v.writes && v.writes[c.id] == 1 else c.id !in v.writes
    case _ => true
  }

  ghost function OpenReconciles(m: map<string, int>): set<string> {
    set f | f in m && m[f] == 1
  }

  /** The coordinator's own counters, against the log written so far. */
  ghost predicate LogInv(log: Log, ongoing: int, reconcileCnt: map<string, nat>) {
    Check(log).Some? && Numbered(log) && ongoing == |OpenReconciles(Check(log).value.reconciles)|
    && (forall f :: f in reconcileCnt ==> reconcileCnt[f] + 1 == Begun(log, f))
    && (forall f :: f !in reconcileCnt ==> Begun(log, f) == 0)
  }

  ghost predicate VirtualInv(v: Option<Sanity>, counts: map<Family, nat>, callers: Calls, workers: Workers) {
    v.Some? && SanityInv(v.value, counts, callers, workers)
  }

  ghost predicate Inv(s: State) {
    !s.fatal && CallersInv(s.counts, s.callers, s.channels) && WorkersInv(s.workers, s.reconcileChannels)
    && QueueInv(s.queue, s.callers, s.channels, s.workers) && ReleaseInv(s.coordinator.releasing, s.queue, s.callers, s.workers)
    && LogInv(s.coordinator.log, s.coordinator.ongoing, s.coordinator.reconcileCnt)
    && VirtualInv(CheckOn(Check(s.coordinator.log), s.queue), s.counts, s.callers, s.workers)
  }

  predicate Bounded(s: State) {
    Count(s.counts, Events) <= TWO_TO_32 && Count(s.counts, Operations) <= TWO_TO_32
    && Count(s.counts, Invocations) <= TWO_TO_32
  }

  // ----- Callers -----

  lemma {:induction false} DrawIdInv(s: State, t: nat, kind: Kind, s': State)
    requires Inv(s) && Apply(s, DrawId(t, kind)) == Some(s') && Bounded(s')
    ensures Inv(s')
  {
    var n := Count(s.counts, kind.Family()) + 1;
    OrdinalOfId(n);
    var c := Call(kind, IdAfter(n), Allocated);
    assert s' == s.(counts := s.counts[kind.Family() := n], callers := s.callers[t := c]);
    DrawnIsNew(s.counts, s.callers, s.channels, t, kind, n);
    DrawnQueue(s.queue, s.coordinator.releasing, s.callers, s.channels, s.workers, t, c);
    DrawnSane(CheckOn(Check(s.coordinator.log), s.queue).value, s.counts, s.callers, s.workers, t, kind, n);
  }

  lemma {:induction false} DrawnIsNew(counts: map<Family, nat>, callers: Calls, channels: Channels, t: nat, kind: Kind,
                                      n: nat)
    requires CallersInv(counts, callers, channels) && t !in callers
    requires n == Count(counts, kind.Family()) + 1 && Ordinal(IdAfter(n)) == n
    ensures CallersInv(counts[kind.Family() := n], callers[t := Call(kind, IdAfter(n), Allocated)], channels)
  {
    var callers' := callers[t := Call(kind, IdAfter(n), Allocated)];
    forall u | u in callers ensures At(callers'[u]) != At(callers'[t]) {
      assert Known(counts, callers[u].kind.Family(), callers[u].id);
    }
  }

  lemma {:induction false} DrawnQueue(queue: seq<Notification>, releasing: Option<Target>,
                                      callers: Calls, channels: Channels, workers: Workers, t: nat, c: Call)
    requires QueueInv(queue, callers, channels, workers) && ReleaseInv(releasing, queue, callers, workers)
    requires t !in callers
    ensures QueueInv(queue, callers[t := c], channels, workers)
    ensures ReleaseInv(releasing, queue, callers[t := c], workers)
  {
    forall n | n in queue ensures Awaited(callers[t := c], channels, workers, n) {
      assert Awaited(callers, channels, workers, n);
    }
  }

  lemma {:induction false} DrawnSane(v: Sanity, counts: map<Family, nat>, callers: Calls, workers: Workers, t: nat,
                                     kind: Kind, n: nat)
    requires SanityInv(v, counts, callers, workers)
    requires n == Count(counts, kind.Family()) + 1 && Ordinal(IdAfter(n)) == n
    ensures SanityInv(v, counts[kind.Family() := n], callers[t := Call(kind, IdAfter(n), Allocated)], workers)
  {
    var counts' := counts[kind.Family() := n];
    forall id | id in v.hears ensures Known(counts', Events, id) {
      assert Known(counts, Events, id);
    }
    forall id | id in v.writes ensures Known(counts', Operations, id) {
      assert Known(counts, Operations, id);
    }
    assert !Known(counts, kind.Family(), IdAfter(n));
  }

  /** A caller that is not waiting may move on without the queue noticing. */
  lemma {:induction false} QueueKeeps(queue: seq<Notification>, releasing: Option<Target>,
                                      callers: Calls, channels: Channels, workers: Workers,
                                      callers': Calls, channels': Channels, workers': Workers)
    requires QueueInv(queue, callers, channels, workers) && ReleaseInv(releasing, queue, callers, workers)
    requires forall at :: at in channels && channels[at] in callers && callers[channels[at]].stage == Waiting ==>
                            At(callers[channels[at]]) == at ==> at in channels' && channels'[at] == channels[at]
    requires forall t :: t in callers && callers[t].stage == Waiting ==> t in callers' && callers'[t] == callers[t]
    requires forall f :: f in workers && workers[f] == Waits ==> f in workers' && workers'[f] == Waits
    ensures QueueInv(queue, callers', channels', workers') && ReleaseInv(releasing, queue, callers', workers')
  {
    forall n | n in queue ensures Awaited(callers', channels', workers', n) {
      assert Awaited(callers, channels, workers, n);
      if n.Ask? {
        assert At(callers[channels[(n.kind.Family(), n.id)]]) == (n.kind.Family(), n.id);
      }
    }
  }

  lemma {:induction false} QueueGrows(queue: seq<Notification>, releasing: Option<Target>,
                                      callers: Calls, channels: Channels, workers: Workers, n: Notification)
    requires QueueInv(queue, callers, channels, workers) && ReleaseInv(releasing, queue, callers, workers)
    requires Awaited(callers, channels, workers, n) && (Wakes(n) ==> n !in queue)
    requires releasing.Some? && Wakes(n) ==> AskOf(callers, workers, releasing.value) != Some(n)
    ensures QueueInv(queue + [n], callers, channels, workers) && ReleaseInv(releasing, queue + [n], callers, workers)
  {
    var q := queue + [n];
    forall i, j | 0 <= i < j < |q| && Wakes(q[i]) ensures q[i] != q[j] {
      if j == |queue| {
        assert q[i] in queue;
      }
    }
  }

  lemma {:induction false} StoreChannelInv(s: State, t: nat, s': State)
    requires Inv(s) && Apply(s, StoreChannel(t)) == Some(s')
    ensures Inv(s')
  {
    QueueKeeps(s.queue, s.coordinator.releasing, s.callers, s.channels, s.workers, s'.callers, s'.channels, s'.workers);
    StageKeepsSane(CheckOn(Check(s.coordinator.log), s.queue).value, s.counts, s.callers, s.workers, t, Stored);
    StoredCallers(s.counts, s.callers, s.channels, t);
  }

  lemma {:induction false} StoredCallers(counts: map<Family, nat>, callers: Calls, channels: Channels, t: nat)
    requires CallersInv(counts, callers, channels) && t in callers
    ensures CallersInv(counts, callers[t := callers[t].(stage := Stored)], channels[At(callers[t]) := t])
  {
  }

  lemma {:induction false} CallerMoves(counts: map<Family, nat>, callers: Calls, channels: Channels, t: nat,
                                       stage: CallStage)
    requires CallersInv(counts, callers, channels) && t in callers && callers[t].stage != Allocated
    ensures CallersInv(counts, callers[t := callers[t].(stage := stage)], channels)
  {
  }

  lemma {:induction false} CallerLeaves(counts: map<Family, nat>, callers: Calls, channels: Channels, t: nat)
    requires CallersInv(counts, callers, channels)
    ensures CallersInv(counts, callers - {t}, channels)
  {
  }

  lemma {:induction false} StageKeepsSane(v: Sanity, counts: map<Family, nat>, callers: Calls, workers: Workers, t: nat,
                                          stage: CallStage)
    requires SanityInv(v, counts, callers, workers) && t in callers && Asked(stage) == Asked(callers[t].stage)
    ensures SanityInv(v, counts, callers[t := callers[t].(stage := stage)], workers)
  {
  }

  lemma {:induction false} SendAskInv(s: State, t: nat, s': State)
    requires Inv(s) && Apply(s, SendAsk(t)) == Some(s')
    ensures Inv(s')
  {
    var n := Ask(s.callers[t].kind, s.callers[t].id);
    CheckOnSend(Check(s.coordinator.log), s.queue, n);
    CallerMoves(s.counts, s.callers, s.channels, t, Waiting);
    NotYetAsked(s, t);
    QueueKeeps(s.queue, s.coordinator.releasing, s.callers, s.channels, s.workers, s'.callers, s'.channels, s'.workers);
    QueueGrows(s.queue, s.coordinator.releasing, s'.callers, s'.channels, s'.workers, n);
    AskedSane(CheckOn(Check(s.coordinator.log), s.queue).value, s.counts, s.callers, s.channels, s.workers, t);
  }

  lemma {:induction false} NotYetAsked(s: State, t: nat)
    requires Inv(s) && CallAt(s, t, Stored)
    ensures Ask(s.callers[t].kind, s.callers[t].id) !in s.queue
    ensures s.coordinator.releasing.Some? ==>
              AskOf(s.callers, s.workers, s.coordinator.releasing.value) != Some(Ask(s.callers[t].kind, s.callers[t].id))
  {
    assert s.channels[At(s.callers[t])] == t;
    assert !Awaited(s.callers, s.channels, s.workers, Ask(s.callers[t].kind, s.callers[t].id));
    if s.coordinator.releasing.Some? && s.coordinator.releasing.value.Caller? {
      assert At(s.callers[s.coordinator.releasing.value.t]) != At(s.callers[t]);
    }
  }

  lemma {:induction false} AskedSane(v: Sanity, counts: map<Family, nat>, callers: Calls, channels: Channels,
                                     workers: Workers, t: nat)
    requires SanityInv(v, counts, callers, workers) && CallersInv(counts, callers, channels)
    requires t in callers && callers[t].stage == Stored
    ensures var v' := CheckLine(v, LineOf(Ask(callers[t].kind, callers[t].id)));
            v'.Some? && SanityInv(v'.value, counts, callers[t := callers[t].(stage := Waiting)], workers)
  {
    var v' := CheckLine(v, LineOf(Ask(callers[t].kind, callers[t].id))).value;
    var callers' := callers[t := callers[t].(stage := Waiting)];
    forall u | u in callers' ensures CallSane(v', callers'[u]) {
      assert CallSane(v, callers[u]);
      assert u != t ==> At(callers[u]) != At(callers[t]);
    }
  }

  lemma {:induction false} SendAfterInv(s: State, t: nat, n: Notification, s': State)
    requires Inv(s) && n.After? && Apply(s, SendAfter(t, n.fun, n.key, n.keys)) == Some(s')
    requires t in s.callers && n.kind == s.callers[t].kind && n.id == s.callers[t].id
    ensures Inv(s')
  {
    CheckOnSend(Check(s.coordinator.log), s.queue, n);
    CallerLeaves(s.counts, s.callers, s.channels, t);
    QueueKeeps(s.queue, s.coordinator.releasing, s.callers, s.channels, s.workers, s'.callers, s'.channels, s'.workers);
    QueueGrows(s.queue, s.coordinator.releasing, s'.callers, s'.channels, s'.workers, n);
    DoneSane(CheckOn(Check(s.coordinator.log), s.queue).value, s.counts, s.callers, s.channels, s.workers, t, n);
  }

  lemma {:induction false} DoneSane(v: Sanity, counts: map<Family, nat>, callers: Calls, channels: Channels,
                                    workers: Workers,
                                    t: nat, n: Notification)
    requires SanityInv(v, counts, callers, workers) && CallersInv(counts, callers, channels)
    requires t in callers && callers[t].stage == Released && n.After? && n.kind == callers[t].kind
    requires n.id == callers[t].id
    ensures var v' := CheckLine(v, LineOf(n)); v'.Some? && SanityInv(v'.value, counts, callers - {t}, workers)
  {
    assert CallSane(v, callers[t]);
    var v' := CheckLine(v, LineOf(n)).value;
    var callers' := callers - {t};
    forall u | u in callers' ensures CallSane(v', callers'[u]) {
      assert CallSane(v, callers[u]);
      assert At(callers[u]) != At(callers[t]);
    }
  }

  lemma {:induction false} SendCacheReadInv(s: State, n: Notification, s': State)
    requires Inv(s) && n.CacheNote? && Apply(s, SendCacheRead(n.fun, n.isGet, n.rtype, n.keys)) == Some(s')
    ensures Inv(s')
  {
    CheckOnSend(Check(s.coordinator.log), s.queue, n);
    QueueGrows(s.queue, s.coordinator.releasing, s'.callers, s'.channels, s'.workers, n);
  }

  // ----- Workers -----

  lemma {:induction false} WorkerRegistered(workers: Workers, channels: map<string, bool>, f: string,
                                            stage: WorkerStage,
                                            channels': map<string, bool>)
    requires WorkersInv(workers, channels)
    requires (channels' == channels || (f in channels' && channels' == channels[f := channels'[f]]))
    requires (f in channels' && channels'[f]) == (stage != Checked && stage != Unregistered)
    ensures WorkersInv(workers[f := stage], channels')
  {
  }

  lemma {:induction false} WorkerMoves(s: State, f: string, stage: WorkerStage, channels: map<string, bool>, s': State)
    requires Inv(s) && s' == Work(s, f, stage).(reconcileChannels := channels) && WorkersInv(s'.workers, channels)
    requires Open(s.workers, f) == Open(s'.workers, f) && !WorkerAt(s, f, Waits)
    ensures Inv(s')
  {
    QueueKeeps(s.queue, s.coordinator.releasing, s.callers, s.channels, s.workers, s'.callers, s'.channels, s'.workers);
    OpenStays(CheckOn(Check(s.coordinator.log), s.queue).value, s.counts, s.callers, s.workers, f, stage);
  }

  lemma {:induction false} OpenStays(v: Sanity, counts: map<Family, nat>, callers: Calls, workers: Workers, f: string,
                                     stage: WorkerStage)
    requires SanityInv(v, counts, callers, workers) && Open(workers, f) == Open(workers[f := stage], f)
    ensures SanityInv(v, counts, callers, workers[f := stage])
  {
    assert forall g :: Open(workers, g) == Open(workers[f := stage], g);
  }

  lemma {:induction false} BeginLoadInv(s: State, f: string, s': State)
    requires Inv(s) && WorkerStep(s, f, BeginLoad) == Some(s')
    ensures Inv(s')
  {
    WorkerRegistered(s.workers, s.reconcileChannels, f, Checked, s.reconcileChannels);
    WorkerMoves(s, f, Checked, s.reconcileChannels, s');
  }

  lemma {:induction false} BeginStoreInv(s: State, f: string, s': State)
    requires Inv(s) && WorkerStep(s, f, BeginStore) == Some(s')
    ensures Inv(s')
  {
    WorkerRegistered(s.workers, s.reconcileChannels, f, Registered, s'.reconcileChannels);
    WorkerMoves(s, f, Registered, s'.reconcileChannels, s');
  }

  lemma {:induction false} EndLoadInv(s: State, f: string, s': State)
    requires Inv(s) && WorkerStep(s, f, EndLoad) == Some(s')
    ensures Inv(s')
  {
    WorkerRegistered(s.workers, s.reconcileChannels, f, EndChecked, s.reconcileChannels);
    WorkerMoves(s, f, EndChecked, s.reconcileChannels, s');
  }

  lemma {:induction false} EndStoreInv(s: State, f: string, s': State)
    requires Inv(s) && WorkerStep(s, f, EndStore) == Some(s')
    ensures Inv(s')
  {
    WorkerRegistered(s.workers, s.reconcileChannels, f, Unregistered, s'.reconcileChannels);
    WorkerMoves(s, f, Unregistered, s'.reconcileChannels, s');
  }

  lemma {:induction false} BeginSendInv(s: State, f: string, s': State)
    requires Inv(s) && WorkerStep(s, f, BeginSend) == Some(s')
    ensures Inv(s')
  {
    CheckOnSend(Check(s.coordinator.log), s.queue, BeginNote(f));
    assert !Awaited(s.callers, s.channels, s.workers, BeginNote(f));
    QueueKeeps(s.queue, s.coordinator.releasing, s.callers, s.channels, s.workers, s'.callers, s'.channels, s'.workers);
    QueueGrows(s.queue, s.coordinator.releasing, s'.callers, s'.channels, s'.workers, BeginNote(f));
    BeginSane(CheckOn(Check(s.coordinator.log), s.queue).value, s.counts, s.callers, s.workers, f);
  }

  lemma {:induction false} BeginSane(v: Sanity, counts: map<Family, nat>, callers: Calls, workers: Workers, f: string)
    requires SanityInv(v, counts, callers, workers) && !Open(workers, f)
    ensures var v' := CheckLine(v, BeforeReconcile(f, ""));
            v'.Some? && SanityInv(v'.value, counts, callers, workers[f := Waits])
  {
    var v' := CheckLine(v, BeforeReconcile(f, "")).value;
    assert forall t :: t in callers && CallSane(v, callers[t]) ==> CallSane(v', callers[t]);
    assert forall g :: g != f ==> Open(workers, g) == Open(workers[f := Waits], g);
  }

  lemma {:induction false} EndSendInv(s: State, f: string, s': State)
    requires Inv(s) && WorkerStep(s, f, EndSend) == Some(s')
    ensures Inv(s')
  {
    assert s' == s.(workers := s.workers - {f}, queue := s.queue + [EndNote(f)]);
    CheckOnSend(Check(s.coordinator.log), s.queue, EndNote(f));
    QueueKeeps(s.queue, s.coordinator.releasing, s.callers, s.channels, s.workers, s'.callers, s'.channels, s'.workers);
    QueueGrows(s.queue, s.coordinator.releasing, s'.callers, s'.channels, s'.workers, EndNote(f));
    EndSane(CheckOn(Check(s.coordinator.log), s.queue).value, s.counts, s.callers, s.workers, f);
  }

  lemma {:induction false} EndSane(v: Sanity, counts: map<Family, nat>, callers: Calls, workers: Workers, f: string)
    requires SanityInv(v, counts, callers, workers) && Open(workers, f)
    ensures var v' := CheckLine(v, AfterReconcile(f, ""));
            v'.Some? && SanityInv(v'.value, counts, callers, workers - {f})
  {
    var v' := CheckLine(v, AfterReconcile(f, "")).value;
    assert forall t :: t in callers && CallSane(v, callers[t]) ==> CallSane(v', callers[t]);
    assert forall g :: g != f ==> Open(workers, g) == Open(workers - {f}, g);
  }

  // ----- The coordinator -----

  lemma {:induction false} CallerReleased(s: State, t: nat, s': State)
    requires Inv(s) && s.coordinator.releasing == Some(Caller(t)) && Apply(s, Release) == Some(s')
    ensures Inv(s')
  {
    CallerMoves(s.counts, s.callers, s.channels, t, Released);
    StageKeepsSane(CheckOn(Check(s.coordinator.log), s.queue).value, s.counts, s.callers, s.workers, t, Released);
    ReleasedQueue(s.queue, s.callers, s.channels, s.workers, s'.callers, s'.workers, Ask(s.callers[t].kind, s.callers[t].id));
  }

  lemma {:induction false} WorkerReleased(s: State, f: string, s': State)
    requires Inv(s) && s.coordinator.releasing == Some(Worker(f)) && Apply(s, Release) == Some(s')
    ensures Inv(s')
  {
    assert forall g :: Open(s.workers, g) == Open(s'.workers, g);
    assert WorkersInv(s'.workers, s'.reconcileChannels);
    ReleasedQueue(s.queue, s.callers, s.channels, s.workers, s'.callers, s'.workers, BeginNote(f));
  }

  lemma {:induction false} ReleasedQueue(queue: seq<Notification>, callers: Calls, channels: Channels, workers: Workers,
                                         callers': Calls, workers': Workers, gone: Notification)
    requires QueueInv(queue, callers, channels, workers) && gone !in queue
    requires forall t :: t in callers && Ask(callers[t].kind, callers[t].id) != gone ==> t in callers' && callers'[t] == callers[t]
    requires forall f :: f in workers && BeginNote(f) != gone ==> f in workers' && workers'[f] == workers[f]
    ensures QueueInv(queue, callers', channels, workers')
  {
    forall n | n in queue ensures Awaited(callers', channels, workers', n) {
      assert Awaited(callers, channels, workers, n);
    }
  }

  /** What the log and the coordinator's counters become when a notification is processed. */
  lemma {:induction false} Logged(log: Log, line: Line)
    requires Check(log).Some? && CheckLine(Check(log).value, line).Some?
    ensures Check(log + [line]) == CheckLine(Check(log).value, line)
    ensures forall f :: Begun(log + [line], f) == Begun(log, f) + if line.BeforeReconcile? && line.fun == f then 1 else 0
    ensures forall f :: Ended(log + [line], f) == Ended(log, f) + if line.AfterReconcile? && line.fun == f then 1 else 0
  {
    var longer := log + [line];
    assert longer[..|longer| - 1] == log;
  }

  lemma {:induction false} NumberedOn(log: Log, line: Line)
    requires Numbered(log) && NumberedLine(log + [line], |log|)
    ensures Numbered(log + [line])
  {
    var longer := log + [line];
    forall i | 0 <= i < |longer| ensures NumberedLine(longer, i) {
      if i < |log| {
        assert NumberedLine(log, i);
        assert longer[..i] == log[..i];
      }
    }
  }

  lemma {:induction false} OpenIsBegunNotEnded(log: Log, f: string)
    requires Check(log).Some?
    ensures Status(Check(log).value.reconciles, f) == Begun(log, f) - Ended(log, f)
  {
    if log != [] {
      OpenIsBegunNotEnded(log[..|log| - 1], f);
      StatusStep(Check(log[..|log| - 1]).value, log[|log| - 1], f);
    }
  }

  function Status(m: map<string, int>, f: string): int {
    if f in m then m[f] else 0
  }

  lemma {:induction false} StatusStep(s: Sanity, l: Line, f: string)
    requires CheckLine(s, l).Some?
    ensures Status(CheckLine(s, l).value.reconciles, f) ==
            Status(s.reconciles, f)
            + (if l.BeforeReconcile? && l.fun == f then 1 else 0) - (if l.AfterReconcile? && l.fun == f then 1 else 0)
  {
  }

  lemma {:induction false} LogPlain(log: Log, line: Line, ongoing: int, reconcileCnt: map<string, nat>)
    requires LogInv(log, ongoing, reconcileCnt) && !line.BeforeReconcile? && !line.AfterReconcile?
    requires CheckLine(Check(log).value, line).Some?
    ensures LogInv(log + [line], ongoing, reconcileCnt)
  {
    Logged(log, line);
    NumberedOn(log, line);
  }

  lemma {:induction false} OneMoreOpen(m: map<string, int>, f: string)
    requires f !in OpenReconciles(m)
    ensures |OpenReconciles(m[f := 1])| == |OpenReconciles(m)| + 1
  {
    assert OpenReconciles(m[f := 1]) == OpenReconciles(m) + {f};
  }

  lemma {:induction false} LogBegin(log: Log, f: string, ongoing: int, reconcileCnt: map<string, nat>, k: nat)
    requires LogInv(log, ongoing, reconcileCnt) && k == (if f in reconcileCnt then reconcileCnt[f] + 1 else 0)
    requires CheckLine(Check(log).value, BeforeReconcile(f, "")).Some?
    ensures LogInv(log + [BeforeReconcile(f, Decimal(k))], ongoing + 1, reconcileCnt[f := k])
  {
    var line := BeforeReconcile(f, Decimal(k));
    Logged(log, line);
    assert (log + [line])[..|log|] == log;
    NumberedOn(log, line);
    ReconcileStatus(log);
    OneMoreOpen(Check(log).value.reconciles, f);
  }

  lemma {:induction false} LogEnd(log: Log, f: string, ongoing: int, reconcileCnt: map<string, nat>)
    requires LogInv(log, ongoing, reconcileCnt)
    requires CheckLine(Check(log).value, AfterReconcile(f, "")).Some?
    ensures ongoing >= 1 && f in reconcileCnt
    ensures LogInv(log + [AfterReconcile(f, Decimal(reconcileCnt[f]))], ongoing - 1, reconcileCnt)
  {
    OpenIsBegunNotEnded(log, f);
    var line := AfterReconcile(f, Decimal(reconcileCnt[f]));
    Logged(log, line);
    assert (log + [line])[..|log|] == log;
    NumberedOn(log, line);
    var m := Check(log).value.reconciles;
    assert f in OpenReconciles(m);
    assert OpenReconciles(m[f := 0]) == OpenReconciles(m) - {f};
  }

  lemma {:induction false} QueueShrinks(queue: seq<Notification>, callers: Calls, channels: Channels, workers: Workers)
    requires queue != [] && QueueInv(queue, callers, channels, workers)
    ensures QueueInv(queue[1..], callers, channels, workers) && (Wakes(queue[0]) ==> queue[0] !in queue[1..])
  {
    assert forall j :: 0 <= j < |queue[1..]| ==> queue[1..][j] == queue[j + 1];
  }

  /** The head of the queue passes the check, and its line moves from the queue to the log. */
  lemma {:induction false} HeadIsSane(log: Log, queue: seq<Notification>, line: Line)
    requires Check(log).Some? && queue != [] && CheckOn(Check(log), queue).Some?
    requires CheckLine(Check(log).value, line) == CheckLine(Check(log).value, LineOf(queue[0]))
    ensures CheckLine(Check(log).value, line).Some?
    ensures CheckOn(Check(log + [line]), queue[1..]) == CheckOn(Check(log), queue)
  {
    assert CheckOn(Check(log), queue) == CheckOn(CheckLine(Check(log).value, line), queue[1..]);
    Logged(log, line);
  }

  lemma {:induction false} HeadIsAwaited(s: State, f: string)
    requires Inv(s) && s.queue != [] && s.queue[0] == BeginNote(f)
    ensures WorkerAt(s, f, Waits) && f in s.reconcileChannels && s.reconcileChannels[f]
  {
    assert Awaited(s.callers, s.channels, s.workers, s.queue[0]);
  }

  lemma {:induction false} BeginLogged(c: Coordinator, queue: seq<Notification>, channels: Channels,
                                       reconcileChannels: map<string, bool>, f: string)
    requires LogInv(c.log, c.ongoing, c.reconcileCnt) && queue != [] && queue[0] == BeginNote(f)
    requires CheckOn(Check(c.log), queue).Some?
    requires f in reconcileChannels && reconcileChannels[f]
    ensures var c' := Process(c, channels, reconcileChannels, BeginNote(f));
            c'.Some?
            && c'.value.releasing == Some(Worker(f)) && LogInv(c'.value.log, c'.value.ongoing, c'.value.reconcileCnt)
            && CheckOn(Check(c'.value.log), queue[1..]) == CheckOn(Check(c.log), queue)
  {
    var k := if f in c.reconcileCnt then c.reconcileCnt[f] + 1 else 0;
    HeadIsSane(c.log, queue, BeforeReconcile(f, Decimal(k)));
    LogBegin(c.log, f, c.ongoing, c.reconcileCnt, k);
  }

  lemma {:induction false} BeginProcessed(s: State, f: string, s': State)
    requires Inv(s) && Apply(s, Coordinate) == Some(s') && s.queue[0] == BeginNote(f)
    ensures Inv(s')
  {
    HeadIsAwaited(s, f);
    QueueShrinks(s.queue, s.callers, s.channels, s.workers);
    BeginLogged(s.coordinator, s.queue, s.channels, s.reconcileChannels, f);
  }

  lemma {:induction false} EndProcessed(s: State, f: string, s': State)
    requires Inv(s) && Apply(s, Coordinate) == Some(s') && s.queue[0] == EndNote(f)
    ensures Inv(s')
  {
    QueueShrinks(s.queue, s.callers, s.channels, s.workers);
    HeadIsSane(s.coordinator.log, s.queue, AfterReconcile(f, ""));
    LogEnd(s.coordinator.log, f, s.coordinator.ongoing, s.coordinator.reconcileCnt);
    HeadIsSane(s.coordinator.log, s.queue, AfterReconcile(f, Decimal(s.coordinator.reconcileCnt[f])));
  }

  lemma {:induction false} AskProcessed(s: State, n: Notification, s': State)
    requires Inv(s) && Apply(s, Coordinate) == Some(s') && s.queue[0] == n && n.Ask?
    ensures Inv(s')
  {
    QueueShrinks(s.queue, s.callers, s.channels, s.workers);
    assert Awaited(s.callers, s.channels, s.workers, n);
    HeadIsSane(s.coordinator.log, s.queue, LineOf(n));
    LogPlain(s.coordinator.log, LineOf(n), s.coordinator.ongoing, s.coordinator.reconcileCnt);
  }

  lemma {:induction false} NoteProcessed(s: State, n: Notification, s': State)
    requires Inv(s) && Apply(s, Coordinate) == Some(s') && s.queue[0] == n && (n.After? || n.CacheNote?)
    ensures Inv(s')
  {
    QueueShrinks(s.queue, s.callers, s.channels, s.workers);
    HeadIsSane(s.coordinator.log, s.queue, LineOf(n));
    LogPlain(s.coordinator.log, LineOf(n), s.coordinator.ongoing, s.coordinator.reconcileCnt);
  }

  // ----- Safety -----

  lemma {:induction false} WorkerStepInv(s: State, f: string, step: WorkerEvent, s': State)
    requires Inv(s) && WorkerStep(s, f, step) == Some(s')
    ensures Inv(s')
  {
    match step
    case BeginLoad => BeginLoadInv(s, f, s');
    case BeginStore => BeginStoreInv(s, f, s');
    case BeginSend => BeginSendInv(s, f, s');
    case EndLoad => EndLoadInv(s, f, s');
    case EndStore => EndStoreInv(s, f, s');
    case EndSend => EndSendInv(s, f, s');
  }

  lemma {:induction false} InvStep(s: State, e: Event, s': State)
    requires Inv(s) && Apply(s, e) == Some(s') && Bounded(s')
    ensures Inv(s')
  {
    match e
    case DrawId(t, kind) => DrawIdInv(s, t, kind, s');
    case StoreChannel(t) => StoreChannelInv(s, t, s');
    case SendAsk(t) => SendAskInv(s, t, s');
    case SendAfter(t, fun, key, keys) => SendAfterInv(s, t, After(s.callers[t].kind, s.callers[t].id, fun, key, keys), s');
    case SendCacheRead(fun, isGet, rtype, keys) => SendCacheReadInv(s, CacheNote(fun, isGet, rtype, keys), s');
    case InWorker(f, step) => WorkerStepInv(s, f, step, s');
    case Coordinate =>
      match s.queue[0] {
        case BeginNote(f) => BeginProcessed(s, f, s');
        case EndNote(f) => EndProcessed(s, f, s');
        case Ask(_, _) => AskProcessed(s, s.queue[0], s');
        case _ => NoteProcessed(s, s.queue[0], s');
      }
    case Release =>
      if s.coordinator.releasing.value.Caller? {
        CallerReleased(s, s.coordinator.releasing.value.t, s');
      } else {
        WorkerReleased(s, s.coordinator.releasing.value.f, s');
      }
  }

  lemma {:induction false} InitialInv()
    ensures Inv(INITIAL)
  {
  }

  lemma {:induction false} CountGrows(counts: map<Family, nat>, counts': map<Family, nat>, family: Family)
    requires counts' == counts[family := Count(counts, family) + 1]
    ensures forall other :: Count(counts, other) <= Count(counts', other)
  {
  }

  lemma {:induction false} WorkersDrawNothing(s: State, f: string, step: WorkerEvent, s': State)
    requires WorkerStep(s, f, step) == Some(s')
    ensures s'.counts == s.counts
  {
  }

  lemma {:induction false} CountsGrow(s: State, e: Event, s': State)
    requires Apply(s, e) == Some(s') && Bounded(s')
    ensures Bounded(s)
  {
    match e
    case DrawId(_, kind) => CountGrows(s.counts, s'.counts, kind.Family());
    case InWorker(f, step) => WorkersDrawNothing(s, f, step, s');
    case _ => assert s'.counts == s.counts;
  }

  lemma {:induction false} InvHolds(events: seq<Event>, s: State)
    requires Execute(events) == Some(s) && Bounded(s)
    ensures Inv(s)
    decreases |events|
  {
    if events == [] {
      InitialInv();
    } else {
      var before := Execute(events[..|events| - 1]).value;
      CountsGrow(before, events[|events| - 1], s);
      InvHolds(events[..|events| - 1], before);
      InvStep(before, events[|events| - 1], s);
    }
  }

  /** The prefix of a sequence the check survives is itself survived. */
  lemma {:induction false} LogIsSane(log: Log, queue: seq<Notification>)
    requires Check(log).Some? && CheckOn(Check(log), queue).Some?
    requires AtMostTwice(CheckOn(Check(log), queue).value.writes) && AtMostTwice(CheckOn(Check(log), queue).value.hears)
    ensures Accepted(log)
    decreases |queue|
  {
    if queue != [] {
      HeadIsSane(log, queue, LineOf(queue[0]));
      var longer := log + [LineOf(queue[0])];
      Logged(log, LineOf(queue[0]));
      LogIsSane(longer, queue[1..]);
      AcceptedPrefix(longer, |log|);
      assert longer[..|log|] == log;
    }
  }

  /** In every interleaving that draws at most 2^32 ids from each counter: nothing aborts, whatever has been
      logged passes the sanity check, reconciles are numbered, and the coordinator never sends to a channel on
      which nobody waits. */
  lemma {:induction false} LearnSafety(events: seq<Event>, s: State)
    requires Execute(events) == Some(s) && Bounded(s)
    ensures !s.fatal && Accepted(s.coordinator.log) && Numbered(s.coordinator.log)
    ensures s.coordinator.releasing.Some? ==> Apply(s, Release).Some?
  {
    InvHolds(events, s);
    LogIsSane(s.coordinator.log, s.queue);
  }

  /** The ids at the begin and at the end of a reconcile match. */
  lemma {:induction false} EndMatchesBegin(log: Log, i: nat, j: nat, f: string)
    requires Accepted(log) && Numbered(log) && i < j < |log|
    requires log[i].BeforeReconcile? && log[i].fun == f && log[j].AfterReconcile? && log[j].fun == f
    requires forall k :: i < k < j ==> !((log[k].BeforeReconcile? || log[k].AfterReconcile?) && log[k].fun == f)
    ensures log[i].rid == log[j].rid
  {
    NextLine(log, j);
    OpenIsBegunNotEnded(log[..j], f);
    BegunBetween(log, i + 1, j, f);
    assert log[..i + 1][..i] == log[..i];
    assert NumberedLine(log, i) && NumberedLine(log, j);
  }

  lemma {:induction false} BegunBetween(log: Log, i: nat, j: nat, f: string)
    requires i <= j <= |log| && forall k :: i <= k < j ==> !(log[k].BeforeReconcile? && log[k].fun == f)
    ensures Begun(log[..j], f) == Begun(log[..i], f)
    decreases j
  {
    if i < j {
      BegunBetween(log, i, j - 1, f);
      assert log[..j][..j - 1] == log[..j - 1];
    }
  }

  // ----- Why the bounds are needed -----

  predicate AtMost(s: State, family: Family, n: nat) {
    Count(s.counts, family) <= n && forall other: Family :: other != family ==> Count(s.counts, other) <= TWO_TO_32
  }

  ghost predicate Drawn(counts: map<Family, nat>, family: Family, n: nat) {
    Count(counts, family) == n && forall other: Family :: other != family ==> Count(counts, other) == 0
  }

  lemma {:induction false} OneMoreDrawn(counts: map<Family, nat>, family: Family, n: nat)
    requires Drawn(counts, family, n)
    ensures Drawn(counts[family := n + 1], family, n + 1)
  {
    var counts' := counts[family := n + 1];
    forall other: Family | other != family ensures Count(counts', other) == 0 {
      assert Count(counts, other) == 0;
    }
  }

  lemma {:induction false} WithinBounds(s: State, family: Family, n: nat)
    requires AtMost(s, family, n) && n <= TWO_TO_32
    ensures Bounded(s)
  {
    assert forall other: Family :: Count(s.counts, other) <= TWO_TO_32;
  }

  lemma {:induction false} IdsComeAround(n: nat)
    ensures n == 1 || n == TWO_TO_32 + 1 ==> IdAfter(n) == 0
  {
  }

  lemma {:induction false} Then(events: seq<Event>, s: State, e: Event)
    requires Execute(events) == Some(s)
    ensures Execute(events + [e]) == Apply(s, e)
  {
    assert (events + [e])[..|events + [e]| - 1] == events;
  }

  // Calls handled one after the other.

  /** At most one caller is inside its handlers, and nobody else is. */
  ghost predicate Lone(s: State, kind: Kind, callers: Calls, queue: seq<Notification>, log: Log, n: nat) {
    !s.fatal && s.callers == callers && s.queue == queue && s.coordinator.releasing == None && s.coordinator.log == log
    && Drawn(s.counts, kind.Family(), n)
  }

  function Done(kind: Kind, id: int): Notification {
    After(kind, id, "", "", {})
  }

  lemma {:induction false} LoneAsks(s: State, kind: Kind, id: int, n: nat) returns (s1: State, s2: State, s3: State)
    requires Lone(s, kind, map[], [], s.coordinator.log, n) && id == IdAfter(n + 1)
    ensures Apply(s, DrawId(0, kind)) == Some(s1) && Apply(s1, StoreChannel(0)) == Some(s2)
    ensures Apply(s2, SendAsk(0)) == Some(s3)
    ensures Lone(s3, kind, map[0 := Call(kind, id, Waiting)], [Ask(kind, id)], s.coordinator.log, n + 1)
    ensures (kind.Family(), id) in s3.channels && s3.channels[(kind.Family(), id)] == 0
  {
    OneMoreDrawn(s.counts, kind.Family(), n);
    s1 := Apply(s, DrawId(0, kind)).value;
    assert s1.callers == map[0 := Call(kind, id, Allocated)];
    s2 := Apply(s1, StoreChannel(0)).value;
    assert s2.callers == map[0 := Call(kind, id, Stored)];
    s3 := Apply(s2, SendAsk(0)).value;
  }

  lemma {:induction false} LoneIsReleased(s3: State, kind: Kind, id: int, log: Log, n: nat) returns (s4: State,
                                          s5: State)
    requires Lone(s3, kind, map[0 := Call(kind, id, Waiting)], [Ask(kind, id)], log, n)
    requires (kind.Family(), id) in s3.channels && s3.channels[(kind.Family(), id)] == 0
    ensures Apply(s3, Coordinate) == Some(s4) && Apply(s4, Release) == Some(s5)
    ensures Lone(s5, kind, map[0 := Call(kind, id, Released)], [], log + [LineOf(Ask(kind, id))], n)
  {
    s4 := Apply(s3, Coordinate).value;
    s5 := Apply(s4, Release).value;
  }

  lemma {:induction false} LoneEnds(s5: State, kind: Kind, id: int, log: Log, n: nat) returns (s6: State, s7: State)
    requires Lone(s5, kind, map[0 := Call(kind, id, Released)], [], log, n)
    ensures Apply(s5, SendAfter(0, "", "", {})) == Some(s6) && Apply(s6, Coordinate) == Some(s7)
    ensures Lone(s7, kind, map[], [], log + [LineOf(Done(kind, id))], n)
  {
    s6 := Apply(s5, SendAfter(0, "", "", {})).value;
    assert s6.callers == map[] && s6.queue == [Done(kind, id)];
    s7 := Apply(s6, Coordinate).value;
  }

  lemma {:induction false} OneCall(events: seq<Event>, s: State, kind: Kind, n: nat) returns (events': seq<Event>,
                                   s': State)
    requires Execute(events) == Some(s) && Lone(s, kind, map[], [], s.coordinator.log, n)
    ensures Execute(events') == Some(s')
    ensures var id := IdAfter(n + 1);
            Lone(s', kind, map[], [], s.coordinator.log + [LineOf(Ask(kind, id))] + [LineOf(Done(kind, id))], n + 1)
  {
    var id := IdAfter(n + 1);
    var s1, s2, s3 := LoneAsks(s, kind, id, n);
    var s4, s5 := LoneIsReleased(s3, kind, id, s.coordinator.log, n + 1);
    var s6, s7 := LoneEnds(s5, kind, id, s.coordinator.log + [LineOf(Ask(kind, id))], n + 1);
    var e1 := events + [DrawId(0, kind)];
    Then(events, s, DrawId(0, kind));
    Then(e1, s1, StoreChannel(0));
    Then(e1 + [StoreChannel(0)], s2, SendAsk(0));
    var e3 := e1 + [StoreChannel(0)] + [SendAsk(0)];
    Then(e3, s3, Coordinate);
    Then(e3 + [Coordinate], s4, Release);
    var e5 := e3 + [Coordinate] + [Release];
    Then(e5, s5, SendAfter(0, "", "", {}));
    Then(e5 + [SendAfter(0, "", "", {})], s6, Coordinate);
    events', s' := e5 + [SendAfter(0, "", "", {})] + [Coordinate], s7;
  }

  /** The ids of the calls of the kind that the sanity check has seen. */
  ghost function Seen(v: Sanity, kind: Kind): set<int> {
    if kind.InformerEvent? then v.hears.Keys else v.writes.Keys
  }

  lemma {:induction false} TwoLines(log: Log, kind: Kind, id: int, log': Log)
    requires (kind.InformerEvent? || kind.WriteCall?) && Check(log').Some?
    requires log' == log + [LineOf(Ask(kind, id))] + [LineOf(Done(kind, id))]
    ensures Check(log).Some? && id !in Seen(Check(log).value, kind)
    ensures Seen(Check(log').value, kind) == Seen(Check(log).value, kind) + {id}
  {
    var mid := log + [LineOf(Ask(kind, id))];
    assert mid[..|mid| - 1] == log && log'[..|log'| - 1] == mid;
    assert Check(mid).Some?;
  }

  lemma {:induction false} ManyCalls(kind: Kind, n: nat) returns (events: seq<Event>, s: State)
    requires kind.InformerEvent? || kind.WriteCall?
    ensures Execute(events) == Some(s) && Lone(s, kind, map[], [], s.coordinator.log, n)
    ensures SeesFirst(kind, n, s.coordinator.log)
    ensures n == TWO_TO_32 + 1 ==> Check(s.coordinator.log).None?
  {
    if n == 0 {
      events, s := [], INITIAL;
    } else {
      var before, t := ManyCalls(kind, n - 1);
      events, s := OneCall(before, t, kind, n - 1);
      SeenNext(kind, n, t.coordinator.log, s.coordinator.log);
    }
  }

  ghost predicate SeesFirst(kind: Kind, n: nat, log: Log) {
    n > 0 && Check(log).Some? ==> 0 in Seen(Check(log).value, kind)
  }

  /** The first id is never forgotten, so that it cannot be used again. */
  lemma {:induction false} SeenNext(kind: Kind, n: nat, log: Log, log': Log)
    requires (kind.InformerEvent? || kind.WriteCall?) && n > 0 && SeesFirst(kind, n - 1, log)
    requires log' == log + [LineOf(Ask(kind, IdAfter(n)))] + [LineOf(Done(kind, IdAfter(n)))]
    ensures SeesFirst(kind, n, log') && (n == TWO_TO_32 + 1 ==> Check(log').None?)
  {
    IdsComeAround(n);
    if Check(log').Some? {
      TwoLines(log, kind, IdAfter(n), log');
    }
  }

  /** Ids are 32 bits wide: all runs with up to `n` events, or with up to `n` reads and writes, leave an acceptable log
      exactly when `n` is at most 2^32, as the call after that reuses an id. */
  lemma {:induction false} LogBoundIsExact(family: Family, n: nat)
    requires family != Invocations
    ensures (forall events :: Execute(events).Some? && AtMost(Execute(events).value, family, n) ==>
               Accepted(Execute(events).value.coordinator.log))
            <==> n <= TWO_TO_32
  {
    if n <= TWO_TO_32 {
      forall events | Execute(events).Some? && AtMost(Execute(events).value, family, n)
        ensures Accepted(Execute(events).value.coordinator.log)
      {
        WithinBounds(Execute(events).value, family, n);
        LearnSafety(events, Execute(events).value);
      }
    } else {
      var events, s := ManyCalls(SomeKind(family), TWO_TO_32 + 1);
      assert Execute(events).Some? && AtMost(Execute(events).value, family, n);
      assert !Accepted(Execute(events).value.coordinator.log);
    }
  }

  function SomeKind(family: Family): (kind: Kind)
    ensures kind.Family() == family
  {
    match family
    case Events => InformerEvent("", "")
    case Operations => WriteCall
    case Invocations => ApiCall
  }

  // Calls that draw their ids while the first one waits.

  /** Caller 0 waits with its request in the channel; callers 1 to `m` have drawn an id each. */
  ghost predicate Crowd(s: State, kind: Kind, m: nat) {
    !s.fatal && s.queue == [Ask(kind, IdAfter(1))] && s.coordinator.releasing == None && Drawn(s.counts, kind.Family(), m + 1)
    && (forall t: nat :: t > m ==> t !in s.callers)
    && (m > 0 ==> m in s.callers && s.callers[m] == Call(kind, IdAfter(m + 1), Allocated))
  }

  lemma {:induction false} Gather(kind: Kind, m: nat) returns (events: seq<Event>, s: State)
    ensures Execute(events) == Some(s) && Crowd(s, kind, m)
  {
    if m == 0 {
      var s1, s2, s3 := LoneAsks(INITIAL, kind, IdAfter(1), 0);
      Then([], INITIAL, DrawId(0, kind));
      Then([] + [DrawId(0, kind)], s1, StoreChannel(0));
      Then([] + [DrawId(0, kind)] + [StoreChannel(0)], s2, SendAsk(0));
      events, s := [] + [DrawId(0, kind)] + [StoreChannel(0)] + [SendAsk(0)], s3;
    } else {
      var before, t := Gather(kind, m - 1);
      OneMoreDrawn(t.counts, kind.Family(), m);
      Then(before, t, DrawId(m, kind));
      events, s := before + [DrawId(m, kind)], Apply(t, DrawId(m, kind)).value;
    }
  }

  /** The last of them has the id of the first, stores its channel in the first one's place, and is sent its release
      while it does not wait. */
  lemma {:induction false} StrayRelease(kind: Kind) returns (events: seq<Event>, s: State)
    ensures Execute(events) == Some(s) && Drawn(s.counts, kind.Family(), TWO_TO_32 + 1)
    ensures s.coordinator.releasing.Some? && Apply(s, Release).None?
  {
    var before, t := Gather(kind, TWO_TO_32);
    IdsComeAround(1);
    IdsComeAround(TWO_TO_32 + 1);
    var stored := Apply(t, StoreChannel(TWO_TO_32)).value;
    s := Apply(stored, Coordinate).value;
    Then(before, t, StoreChannel(TWO_TO_32));
    Then(before + [StoreChannel(TWO_TO_32)], stored, Coordinate);
    events := before + [StoreChannel(TWO_TO_32)] + [Coordinate];
  }

  /** For each of the three counters: in all runs that draw up to `n` ids from it every pending release finds its
      waiter, exactly when `n` is at most 2^32. */
  lemma {:induction false} ReleaseBoundIsExact(family: Family, n: nat)
    ensures (forall events :: Execute(events).Some? && AtMost(Execute(events).value, family, n) ==>
               Execute(events).value.coordinator.releasing.Some? ==> Apply(Execute(events).value, Release).Some?)
            <==> n <= TWO_TO_32
  {
    if n <= TWO_TO_32 {
      forall events | Execute(events).Some? && AtMost(Execute(events).value, family, n)
        ensures Execute(events).value.coordinator.releasing.Some? ==> Apply(Execute(events).value, Release).Some?
      {
        WithinBounds(Execute(events).value, family, n);
        LearnSafety(events, Execute(events).value);
      }
    } else {
      var events, s := StrayRelease(SomeKind(family));
      assert Execute(events).Some? && AtMost(Execute(events).value, family, n);
    }
  }
}
