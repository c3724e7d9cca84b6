/** Parsing of reconciler events with their reconcile windows, and the effect of compressing
    trivial reconciles. */
module ReconcilerEvents {
  import opened TriggerExpr
  import opened ServerLog
  import opened ReconcileWindows

  datatype Config = Config(loosenBoundary: bool, compressTrivial: bool)

  /** The begin of a reconcile: its line number and its id. */
  datatype Begin = Begin(at: nat, rid: string)

  datatype Event =
    | Write(id: int, fun: string, key: string, start: nat, end: nat,
            rangeStart: int, rangeEnd: int, rid: Option<string>, readKeys: set<string>, readTypes: set<string>)
    | Read(fun: string, keys: set<string>, at: nat, rid: Option<string>)
    | ReconcileBegin(fun: string, at: nat)
    | ReconcileEnd(fun: string, at: nat)

  /** Per reconciler: the begin before the current one, the current one, whether it is trivial so far, and the
      number of ongoing reconciles. */
  datatype Tables = Tables(prev: map<string, Option<Begin>>, cur: map<string, Begin>, trivial: map<string, bool>, ongoing: map<string, nat>)

  datatype Reads = Reads(keys: set<string>, types: set<string>)

  datatype Parse = Parse(starts: map<int, nat>, seen: Reads, tables: Tables, events: map<nat, Event>)

  const START: Parse := Parse(map[], Reads({}, {}), Tables(map[], map[], map[], map[]), map[])

  /** A begin line: the current begin becomes the previous one, unless the reconcile it began is compressed away. */
  function TablesBegin(c: Config, t: Tables, i: nat, fun: string, rid: string): Option<Tables> {
    var n := (if fun in t.ongoing then t.ongoing[fun] else 0) + 1;
    if n != 1 || (fun in t.cur && c.compressTrivial && fun !in t.trivial) then None
    else
      var q := t.(ongoing := t.ongoing[fun := n], trivial := t.trivial[fun := true]);
      if fun !in t.cur then Some(q.(prev := t.prev[fun := None], cur := t.cur[fun := Begin(i, rid)]))
      else if c.compressTrivial && t.trivial[fun] then Some(q)
      else Some(q.(prev := t.prev[fun := Some(t.cur[fun])], cur := t.cur[fun := Begin(i, rid)]))
  }

  function TablesEnd(t: Tables, fun: string): Option<Tables> {
    if fun !in t.ongoing || t.ongoing[fun] == 0 then None
    else if t.ongoing[fun] == 1 then Some(t.(ongoing := t.ongoing - {fun}))
    else Some(t.(ongoing := t.ongoing[fun := t.ongoing[fun] - 1]))
  }

  function NoneTrivial(trivial: map<string, bool>): (r: map<string, bool>)
    ensures r.Keys == trivial.Keys
  {
    map f | f in trivial :: false
  }

  function TablesAfter(c: Config, t: Tables, i: nat, l: Line): Option<Tables> {
    match l
    case AfterWrite(_, _, _) => Some(t.(trivial := NoneTrivial(t.trivial)))
    case BeforeReconcile(fun, rid) => TablesBegin(c, t, i, fun, rid)
    case AfterReconcile(fun, _) => TablesEnd(t, fun)
    case _ => Some(t)
  }

  function StartsAfter(starts: map<int, nat>, i: nat, l: Line): map<int, nat> {
    if l.BeforeWrite? then starts[l.writeId := i] else starts
  }

  /** Cache reads inside a reconcile are collected until no reconcile is ongoing. */
  function ReadsAfter(r: Reads, t: Tables, t': Tables, l: Line): Reads {
    if l.CacheRead? && l.fun in t.cur then
      if l.isGet then r.(keys := r.keys + l.keys) else r.(types := r.types + {l.rtype})
    else if l.AfterReconcile? && t'.ongoing == map[] then Reads({}, {})
    else r
  }

  function RangeStart(t: Tables, fun: string): int {
    if fun in t.prev && t.prev[fun].Some? then t.prev[fun].value.at else -1
  }

  /** The lookups of an end-of-write line, and the assertion of `set_range`. */
  predicate LookupsSucceed(c: Config, p: Parse, i: nat, l: Line) {
    l.AfterWrite? && (l.fun in p.tables.cur || c.loosenBoundary) ==>
      l.writeId in p.starts && (l.fun in p.tables.cur ==> l.fun in p.tables.prev && RangeStart(p.tables, l.fun) < i)
  }

  /** The event that a line enters, if it does. */
  function Entry(c: Config, p: Parse, i: nat, l: Line): Option<Event>
    requires LookupsSucceed(c, p, i, l)
  {
    var t := p.tables;
    match l
    case AfterWrite(id, fun, key) =>
      if fun in t.cur then
        Some(Write(id, fun, key, p.starts[id], i, RangeStart(t, fun), i, Some(t.cur[fun].rid), p.seen.keys, p.seen.types))
      else if c.loosenBoundary then
        Some(Write(id, fun, key, p.starts[id], i, -1, -1, None, p.seen.keys, p.seen.types))
      else None
    case RestRead(fun, keys) => if fun in t.cur then Some(Read(fun, keys, i, Some(t.cur[fun].rid))) else None
    case CacheRead(fun, _, _, keys) => if fun in t.cur then Some(Read(fun, keys, i, Some(t.cur[fun].rid))) else None
    case BeforeReconcile(fun, _) => Some(ReconcileBegin(fun, i))
    case AfterReconcile(fun, _) => Some(ReconcileEnd(fun, i))
    case _ => None
  }

  /** The line number under which an event is entered. */
  function At(e: Event): nat {
    if e.Write? then e.start else e.at
  }

  function ParseLine(c: Config, p: Parse, i: nat, l: Line): Option<Parse> {
    var t := TablesAfter(c, p.tables, i, l);
    if !LookupsSucceed(c, p, i, l) || t.None? then None
    else
      var e := Entry(c, p, i, l);
      Some(Parse(StartsAfter(p.starts, i, l), ReadsAfter(p.seen, p.tables, t.value, l), t.value,
                 if e.Some? then p.events[At(e.value) := e.value] else p.events))
  }

  function ParseLog(c: Config, log: Log, n: nat): Option<Parse>
    requires n <= |log|
  {
    if n == 0 then Some(START)
    else
      Then(c, ParseLog(c, log, n - 1), n - 1, log[n - 1])
  }

  function Then(c: Config, p: Option<Parse>, n: nat, l: Line): Option<Parse> {
    if p.None? then None else ParseLine(c, p.value, n, l)
  }

  // ----- Soundness on accepted logs -----

  /** The event entered under line `at` reports what the first `n` lines say. */
  ghost predicate EventMatches(log: Log, n: nat, at: nat, e: Event)
    requires n <= |log|
  {
    at < n &&
    match e
    case Write(id, fun, key, start, end, rangeStart, rangeEnd, rid, _, _) =>
      start == at < end < n && log[start] == BeforeWrite(id) && log[end] == AfterWrite(id, fun, key)
      && (rid.Some? ==> -1 <= rangeStart < rangeEnd == end)
    case Read(fun, keys, t, _) =>
      t == at && (log[at].RestRead? || log[at].CacheRead?) && log[at].fun == fun && log[at].keys == keys
    case ReconcileBegin(fun, t) => t == at && log[at].BeforeReconcile? && log[at].fun == fun
    case ReconcileEnd(fun, t) => t == at && log[at].AfterReconcile? && log[at].fun == fun
  }

  /** The reconcile tables agree with the status of the sanity check. */
  ghost predicate TablesMatch(s: map<string, int>, n: nat, t: Tables) {
    t.prev.Keys == t.cur.Keys == t.trivial.Keys == s.Keys
    && (forall f :: f in t.ongoing <==> f in s && s[f] == 1)
    && (forall f :: f in t.ongoing ==> t.ongoing[f] == 1)
    && (forall f :: f in s ==> s[f] == 0 || s[f] == 1)
    && (forall f :: f in t.cur ==> t.cur[f].at < n)
    && (forall f :: f in t.prev ==> t.prev[f].Some? ==> t.prev[f].value.at < n)
  }

  ghost predicate StartsMatch(log: Log, s: map<int, nat>, n: nat, starts: map<int, nat>)
    requires n <= |log|
  {
    starts.Keys == s.Keys
    && forall id :: id in starts ==> starts[id] < n && log[starts[id]] == BeforeWrite(id) && s[id] > 0
  }

  ghost predicate EventsMatch(log: Log, s: map<int, nat>, n: nat, events: map<nat, Event>)
    requires n <= |log|
  {
    forall at :: at in events ==>
      EventMatches(log, n, at, events[at]) && (events[at].Write? ==> events[at].id in s && s[events[at].id] > 1)
  }

  ghost predicate ParseInv(log: Log, s: Sanity, n: nat, p: Parse)
    requires n <= |log|
  {
    TablesMatch(s.reconciles, n, p.tables) && StartsMatch(log, s.writes, n, p.starts) && EventsMatch(log, s.writes, n, p.events)
  }

  ghost predicate Succeeds(s: map<string, int>, n: nat, t: Option<Tables>) {
    t.Some? && TablesMatch(s, n, t.value)
  }

  lemma {:induction false} TablesStep(c: Config, s: Sanity, n: nat, t: Tables, l: Line)
    requires TablesMatch(s.reconciles, n, t) && CheckLine(s, l).Some?
    ensures Succeeds(CheckLine(s, l).value.reconciles, n + 1, TablesAfter(c, t, n, l))
  {
    if l.BeforeReconcile? {
      BeginStep(c, s.reconciles, n, t, l.fun, l.rid);
    } else if l.AfterReconcile? {
      EndStep(s.reconciles, n, t, l.fun);
    } else {
      QuietStep(s.reconciles, n, t);
    }
  }

  lemma {:induction false} QuietStep(s: map<string, int>, n: nat, t: Tables)
    requires TablesMatch(s, n, t)
    ensures Succeeds(s, n + 1, Some(t)) && Succeeds(s, n + 1, Some(t.(trivial := NoneTrivial(t.trivial))))
  {
  }

  lemma {:induction false} EndStep(s: map<string, int>, n: nat, t: Tables, fun: string)
    requires TablesMatch(s, n, t) && fun in s && s[fun] == 1
    ensures Succeeds(s[fun := 0], n + 1, TablesEnd(t, fun))
  {
    assert TablesEnd(t, fun).value == t.(ongoing := t.ongoing - {fun});
  }

  lemma {:induction false} BeginStep(c: Config, s: map<string, int>, n: nat, t: Tables, fun: string, rid: string)
    requires TablesMatch(s, n, t) && (fun in s ==> s[fun] == 0)
    ensures Succeeds(s[fun := 1], n + 1, TablesBegin(c, t, n, fun, rid))
  {
    if fun !in t.cur {
      BeginWith(s, n, t, fun, None, Begin(n, rid));
    } else if c.compressTrivial && t.trivial[fun] {
      BeginWith(s, n, t, fun, t.prev[fun], t.cur[fun]);
      assert t.prev[fun := t.prev[fun]] == t.prev && t.cur[fun := t.cur[fun]] == t.cur;
    } else {
      BeginWith(s, n, t, fun, Some(t.cur[fun]), Begin(n, rid));
    }
  }

  lemma {:induction false} BeginWith(s: map<string, int>, n: nat, t: Tables, fun: string, prev: Option<Begin>,
                                     cur: Begin)
    requires TablesMatch(s, n, t) && (fun in s ==> s[fun] == 0) && cur.at <= n && (prev.Some? ==> prev.value.at <= n)
    ensures TablesMatch(s[fun := 1], n + 1, Tables(t.prev[fun := prev], t.cur[fun := cur], t.trivial[fun := true], t.ongoing[fun := 1]))
  {
  }

  lemma {:induction false} StartsStep(log: Log, s: Sanity, n: nat, starts: map<int, nat>)
    requires n < |log| && StartsMatch(log, s.writes, n, starts) && CheckLine(s, log[n]).Some?
    ensures StartsMatch(log, CheckLine(s, log[n]).value.writes, n + 1, StartsAfter(starts, n, log[n]))
  {
  }

  /** The event that a line enters reports the log, under a line number not used before. */
  lemma {:induction false} EntryIsFresh(c: Config, log: Log, s: Sanity, n: nat, p: Parse)
    requires n < |log| && ParseInv(log, s, n, p) && LookupsSucceed(c, p, n, log[n]) && Entry(c, p, n, log[n]).Some?
    requires CheckLine(s, log[n]).Some? && AtMostTwice(CheckLine(s, log[n]).value.writes)
    ensures var e := Entry(c, p, n, log[n]).value;
            At(e) !in p.events && EventMatches(log, n + 1, At(e), e)
            && (e.Write? ==> e.id in s.writes && CheckLine(s, log[n]).value.writes[e.id] > 1)
  {
    var e := Entry(c, p, n, log[n]).value;
    assert At(e) in p.events ==> EventMatches(log, n, At(e), p.events[At(e)]);
    if e.Write? {
      assert log[At(e)] == BeforeWrite(e.id);
      WriteHappensOnce(log, s, n, p.events, e.id, At(e));
    }
  }

  lemma {:induction false} WriteHappensOnce(log: Log, s: Sanity, n: nat, events: map<nat, Event>, id: int, at: nat)
    requires n < |log| && log[n].AfterWrite? && log[n].writeId == id && at < n && log[at] == BeforeWrite(id)
    requires EventsMatch(log, s.writes, n, events)
    requires CheckLine(s, log[n]).Some? && AtMostTwice(CheckLine(s, log[n]).value.writes)
    ensures at !in events
  {
    assert CheckLine(s, log[n]).value.writes[id] == s.writes[id] + 1;
    assert at in events ==> EventMatches(log, n, at, events[at]);
  }

  lemma {:induction false} EventsStay(log: Log, s: Sanity, n: nat, events: map<nat, Event>)
    requires n < |log| && EventsMatch(log, s.writes, n, events) && CheckLine(s, log[n]).Some?
    ensures EventsMatch(log, CheckLine(s, log[n]).value.writes, n + 1, events)
  {
    forall at | at in events ensures EventMatches(log, n + 1, at, events[at]) {
      assert EventMatches(log, n, at, events[at]);
    }
  }

  lemma {:induction false} ParseStep(c: Config, log: Log, s: Sanity, n: nat, p: Parse)
    requires n < |log| && ParseInv(log, s, n, p)
    requires CheckLine(s, log[n]).Some? && AtMostTwice(CheckLine(s, log[n]).value.writes)
    ensures ParseLine(c, p, n, log[n]).Some?
    ensures ParseInv(log, CheckLine(s, log[n]).value, n + 1, ParseLine(c, p, n, log[n]).value)
  {
    TablesStep(c, s, n, p.tables, log[n]);
    StartsStep(log, s, n, p.starts);
    LookupsHold(c, log, s, n, p);
    EventsStep(c, log, s, n, p);
    var e, q := Entry(c, p, n, log[n]), ParseLine(c, p, n, log[n]).value;
    assert q.starts == StartsAfter(p.starts, n, log[n]) && q.tables == TablesAfter(c, p.tables, n, log[n]).value;
    assert q.events == if e.Some? then p.events[At(e.value) := e.value] else p.events;
  }

  lemma {:induction false} LookupsHold(c: Config, log: Log, s: Sanity, n: nat, p: Parse)
    requires n < |log| && ParseInv(log, s, n, p) && CheckLine(s, log[n]).Some?
    ensures LookupsSucceed(c, p, n, log[n])
  {
  }

  lemma {:induction false} EventsStep(c: Config, log: Log, s: Sanity, n: nat, p: Parse)
    requires n < |log| && ParseInv(log, s, n, p) && LookupsSucceed(c, p, n, log[n])
    requires CheckLine(s, log[n]).Some? && AtMostTwice(CheckLine(s, log[n]).value.writes)
    ensures var e := Entry(c, p, n, log[n]);
            EventsMatch(log, CheckLine(s, log[n]).value.writes, n + 1, if e.Some? then p.events[At(e.value) := e.value] else p.events)
  {
    EventsStay(log, s, n, p.events);
    var e := Entry(c, p, n, log[n]);
    if e.Some? {
      EntryIsFresh(c, log, s, n, p);
      EventsInsert(log, CheckLine(s, log[n]).value.writes, n + 1, p.events, e.value);
    }
  }

  lemma {:induction false} EventsInsert(log: Log, s: map<int, nat>, n: nat, events: map<nat, Event>, e: Event)
    requires n <= |log| && EventsMatch(log, s, n, events) && EventMatches(log, n, At(e), e)
    requires (e.Write? ==> e.id in s && s[e.id] > 1)
    ensures EventsMatch(log, s, n, events[At(e) := e])
  {
  }

  lemma {:induction false} StartInv(log: Log)
    ensures ParseInv(log, Sanity(map[], map[], map[]), 0, START)
  {
  }

  /** A log accepted by the sanity check is parsed without a failed lookup or assertion. */
  lemma {:induction false} ParseSound(c: Config, log: Log, n: nat)
    requires n <= |log| && Accepted(log)
    ensures Check(log[..n]).Some? && ParseLog(c, log, n).Some?
    ensures ParseInv(log, Check(log[..n]).value, n, ParseLog(c, log, n).value)
  {
    if n == 0 {
      assert log[..0] == [];
      StartInv(log);
    } else {
      ParseSound(c, log, n - 1);
      ParseNext(c, log, n - 1, Check(log[..n - 1]).value, ParseLog(c, log, n - 1).value);
    }
  }

  lemma {:induction false} ParseNext(c: Config, log: Log, n: nat, s: Sanity, p: Parse)
    requires n < |log| && Accepted(log) && Check(log[..n]) == Some(s) && ParseInv(log, s, n, p)
    ensures Check(log[..n + 1]).Some? && ParseLine(c, p, n, log[n]).Some?
    ensures ParseInv(log, Check(log[..n + 1]).value, n + 1, ParseLine(c, p, n, log[n]).value)
  {
    NextLine(log, n);
    ParseStep(c, log, s, n, p);
  }

  /** No event overwrites another: each line that enters an event adds one. */
  lemma {:induction false} NoOverwrite(c: Config, log: Log, n: nat)
    requires n < |log| && Accepted(log)
    ensures ParseLog(c, log, n).Some? && ParseLog(c, log, n + 1).Some?
    ensures var p, q := ParseLog(c, log, n).value, ParseLog(c, log, n + 1).value;
            LookupsSucceed(c, p, n, log[n])
            && if Entry(c, p, n, log[n]).Some? then |q.events| == |p.events| + 1 && p.events.Keys <= q.events.Keys else q.events == p.events
  {
    ParseSound(c, log, n);
    ParseSound(c, log, n + 1);
    NextLine(log, n);
    var s, p := Check(log[..n]).value, ParseLog(c, log, n).value;
    if Entry(c, p, n, log[n]).Some? {
      EntryIsFresh(c, log, s, n, p);
    }
  }

  // ----- What the events say about the log -----

  /** The entry of one reconciler in the tables, in terms of the first `n` lines. */
  ghost predicate FunTells(c: Config, log: Log, n: nat, t: Tables, f: string) {
    (f in t.cur <==> Begun(log, n, f))
    && (f in t.cur ==> CurTells(c, log, n, t, f))
    && (f in t.trivial ==> (!t.trivial[f] <==> WritesSince(log, n, f)))
    && (f in t.ongoing <==> Open(log, n, f)) && (f in t.ongoing ==> t.ongoing[f] == 1)
  }

  ghost predicate CurTells(c: Config, log: Log, n: nat, t: Tables, f: string)
    requires f in t.cur
  {
    LatestBegin(c.compressTrivial, log, n, f, t.cur[f].at) && log[t.cur[f].at].rid == t.cur[f].rid
    && BeginBefore(c.compressTrivial, log, t.cur[f].at, f, RangeStart(t, f))
  }

  ghost predicate TablesTell(c: Config, log: Log, n: nat, t: Tables) {
    t.prev.Keys == t.cur.Keys == t.trivial.Keys && forall f :: FunTells(c, log, n, t, f)
  }

  lemma {:induction false} TablesTellNext(c: Config, log: Log, n: nat, t: Tables, t': Tables)
    requires n < |log| && TablesTell(c, log, n, t) && TablesAfter(c, t, n, log[n]) == Some(t')
    ensures TablesTell(c, log, n + 1, t')
  {
    KeysAlike(c, n, t, log[n]);
    var next := n + 1;
    forall f ensures FunTells(c, log, next, t', f) {
      FunTellsNext(c, log, n, t, t', f);
    }
  }

  lemma {:induction false} KeysAlike(c: Config, n: nat, t: Tables, l: Line)
    requires t.prev.Keys == t.cur.Keys == t.trivial.Keys && TablesAfter(c, t, n, l).Some?
    ensures var t' := TablesAfter(c, t, n, l).value; t'.prev.Keys == t'.cur.Keys == t'.trivial.Keys
  {
  }

  lemma {:induction false} FunTellsNext(c: Config, log: Log, n: nat, t: Tables, t': Tables, f: string)
    requires n < |log| && FunTells(c, log, n, t, f) && t.prev.Keys == t.cur.Keys == t.trivial.Keys
    requires TablesAfter(c, t, n, log[n]) == Some(t')
    ensures FunTells(c, log, n + 1, t', f)
  {
    BegunNext(log, n, f);
    SinceNext(log, n, f);
    OpenNext(log, n, f);
    if BeginsAt(log, n, f) {
      BeginTells(c, log, n, t, t', f);
    } else {
      OthersTell(c, log, n, t, t', f);
    }
  }

  lemma {:induction false} OthersTell(c: Config, log: Log, n: nat, t: Tables, t': Tables, f: string)
    requires n < |log| && FunTells(c, log, n, t, f) && t.prev.Keys == t.cur.Keys == t.trivial.Keys
    requires !BeginsAt(log, n, f) && TablesAfter(c, t, n, log[n]) == Some(t')
    requires Begun(log, n + 1, f) <==> Begun(log, n, f)
    requires WritesSince(log, n + 1, f) <==> log[n].AfterWrite? || WritesSince(log, n, f)
    requires Open(log, n + 1, f) <==> !EndsAt(log, n, f) && Open(log, n, f)
    ensures FunTells(c, log, n + 1, t', f)
  {
    OthersKept(c, n, t, log[n], f);
    if f in t.cur {
      LatestNext(c.compressTrivial, log, n, f, t.cur[f].at);
    }
  }

  /** A line that begins no reconcile of `f` moves none of its begins. */
  lemma {:induction false} OthersKept(c: Config, n: nat, t: Tables, l: Line, f: string)
    requires t.prev.Keys == t.cur.Keys == t.trivial.Keys && !(l.BeforeReconcile? && l.fun == f)
    requires TablesAfter(c, t, n, l).Some?
    ensures var t' := TablesAfter(c, t, n, l).value;
            (f in t'.cur <==> f in t.cur) && (f in t'.trivial <==> f in t.trivial)
            && (f in t.cur ==> t'.cur[f] == t.cur[f] && f in t'.prev && t'.prev[f] == t.prev[f])
            && (f in t.trivial ==> t'.trivial[f] == (t.trivial[f] && !l.AfterWrite?))
  {
  }

  lemma {:induction false} BeginTells(c: Config, log: Log, n: nat, t: Tables, t': Tables, f: string)
    requires n < |log| && FunTells(c, log, n, t, f) && t.prev.Keys == t.cur.Keys == t.trivial.Keys
    requires BeginsAt(log, n, f) && TablesAfter(c, t, n, log[n]) == Some(t')
    requires Begun(log, n + 1, f) && Open(log, n + 1, f) && !WritesSince(log, n + 1, f)
    ensures FunTells(c, log, n + 1, t', f)
  {
    LatestNext(c.compressTrivial, log, n, f, n);
    if f in t.cur {
      LatestNext(c.compressTrivial, log, n, f, t.cur[f].at);
    } else {
      assert WritesSince(log, n, f);
    }
    assert CurTells(c, log, n + 1, t', f);
  }

  ghost predicate SeenTells(log: Log, n: nat, seen: Reads) {
    ReadKeysAre(log, n, seen.keys) && ReadTypesAre(log, n, seen.types)
  }

  lemma {:induction false} SeenTellsNext(c: Config, log: Log, n: nat, seen: Reads, t: Tables, t': Tables)
    requires n < |log| && SeenTells(log, n, seen) && TablesTell(c, log, n, t) && TablesTell(c, log, n + 1, t')
    ensures SeenTells(log, n + 1, ReadsAfter(seen, t, t', log[n]))
  {
    var seen' := ReadsAfter(seen, t, t', log[n]);
    ClosesAllTells(c, log, n, t');
    assert log[n].CacheRead? ==> FunTells(c, log, n, t, log[n].fun);
    KeysTell(log, n, seen.keys, seen'.keys);
    TypesTell(log, n, seen.types, seen'.types);
  }

  lemma {:induction false} ClosesAllTells(c: Config, log: Log, n: nat, t': Tables)
    requires n < |log| && TablesTell(c, log, n + 1, t')
    ensures ClosesAll(log, n) <==> log[n].AfterReconcile? && t'.ongoing == map[]
  {
    var next := n + 1;
    forall f ensures f in t'.ongoing <==> Open(log, next, f) {
      assert FunTells(c, log, next, t', f);
    }
    if t'.ongoing != map[] {
      var f :| f in t'.ongoing;
      assert Open(log, next, f);
    }
  }

  lemma {:induction false} KeysTell(log: Log, n: nat, keys: set<string>, keys': set<string>)
    requires n < |log| && ReadKeysAre(log, n, keys)
    requires var l := log[n];
             keys' == if l.CacheRead? && Begun(log, n, l.fun) then if l.isGet then keys + l.keys else keys
                      else if ClosesAll(log, n) then {} else keys
    ensures ReadKeysAre(log, n + 1, keys')
  {
    var next := n + 1;
    forall key ensures key in keys' <==> exists i :: Collected(log, next, i) && log[i].isGet && key in log[i].keys {
      if key in keys' && key in keys {
        var i :| Collected(log, n, i) && log[i].isGet && key in log[i].keys;
        CollectedNext(log, n, i);
      } else if key in keys' {
        CollectedNext(log, n, n);
      }
      if i :| Collected(log, next, i) && log[i].isGet && key in log[i].keys {
        CollectedNext(log, n, i);
      }
    }
  }

  lemma {:induction false} TypesTell(log: Log, n: nat, types: set<string>, types': set<string>)
    requires n < |log| && ReadTypesAre(log, n, types)
    requires var l := log[n];
             types' == if l.CacheRead? && Begun(log, n, l.fun) then if l.isGet then types else types + {l.rtype}
                       else if ClosesAll(log, n) then {} else types
    ensures ReadTypesAre(log, n + 1, types')
  {
    var next := n + 1;
    forall rtype ensures rtype in types' <==> exists i :: Collected(log, next, i) && !log[i].isGet && log[i].rtype == rtype {
      if rtype in types' && rtype in types {
        var i :| Collected(log, n, i) && !log[i].isGet && log[i].rtype == rtype;
        CollectedNext(log, n, i);
      } else if rtype in types' {
        CollectedNext(log, n, n);
      }
      if i :| Collected(log, next, i) && !log[i].isGet && log[i].rtype == rtype {
        CollectedNext(log, n, i);
      }
    }
  }

  /** The line that entered the event. */
  function EntryLine(e: Event): nat {
    if e.Write? then e.end else e.at
  }

  /** The line enters an event. */
  ghost predicate Enters(c: Config, log: Log, i: nat) {
    i < |log| &&
    match log[i]
    case AfterWrite(_, fun, _) => Begun(log, i, fun) || c.loosenBoundary
    case RestRead(fun, _) => Begun(log, i, fun)
    case CacheRead(fun, _, _, _) => Begun(log, i, fun)
    case BeforeReconcile(_, _) => true
    case AfterReconcile(_, _) => true
    case _ => false
  }

  /** The event is what its line, and the lines before it, say. */
  ghost predicate Describes(c: Config, log: Log, e: Event) {
    Enters(c, log, EntryLine(e)) &&
    match e
    case Write(id, fun, key, start, end, rangeStart, rangeEnd, rid, readKeys, readTypes) =>
      start < end && log[start] == BeforeWrite(id) && log[end] == AfterWrite(id, fun, key)
      && ReadKeysAre(log, end, readKeys) && ReadTypesAre(log, end, readTypes)
      && if !Begun(log, end, fun) then rid == None && rangeStart == -1 && rangeEnd == -1
         else rangeEnd == end && OpensAt(c.compressTrivial, log, end, fun, rangeStart)
              && rid.Some? && ReconcileIs(c.compressTrivial, log, end, fun, rid.value)
    case Read(fun, keys, at, rid) =>
      (log[at].RestRead? || log[at].CacheRead?) && log[at].fun == fun && log[at].keys == keys
      && rid.Some? && ReconcileIs(c.compressTrivial, log, at, fun, rid.value)
    case ReconcileBegin(fun, at) => BeginsAt(log, at, fun)
    case ReconcileEnd(fun, at) => EndsAt(log, at, fun)
  }

  ghost predicate StartsTell(log: Log, n: nat, starts: map<int, nat>) {
    forall id :: id in starts ==> starts[id] < n <= |log| && log[starts[id]] == BeforeWrite(id)
  }

  /** A parse whose tables and events say what the first `n` lines do. */
  ghost predicate ParseTells(c: Config, log: Log, n: nat, p: Parse) {
    TablesTell(c, log, n, p.tables) && SeenTells(log, n, p.seen) && StartsTell(log, n, p.starts)
    && forall at :: at in p.events ==> Describes(c, log, p.events[at]) && At(p.events[at]) == at
  }

  lemma {:induction false} EntryTells(c: Config, log: Log, n: nat, p: Parse)
    requires n < |log| && TablesTell(c, log, n, p.tables) && SeenTells(log, n, p.seen) && StartsTell(log, n, p.starts)
    requires LookupsSucceed(c, p, n, log[n])
    ensures Enters(c, log, n) <==> Entry(c, p, n, log[n]).Some?
    ensures Enters(c, log, n) ==> var e := Entry(c, p, n, log[n]).value; EntryLine(e) == n && Describes(c, log, e)
  {
    match log[n]
    case AfterWrite(id, fun, key) => WriteTells(c, log, n, p, id, fun, key);
    case RestRead(fun, _) => CurIsKnown(c, log, n, p.tables, fun);
    case CacheRead(fun, _, _, _) => CurIsKnown(c, log, n, p.tables, fun);
    case _ =>
  }

  lemma {:induction false} CurIsKnown(c: Config, log: Log, n: nat, t: Tables, f: string)
    requires TablesTell(c, log, n, t)
    ensures f in t.cur <==> Begun(log, n, f)
    ensures f in t.cur ==> ReconcileIs(c.compressTrivial, log, n, f, t.cur[f].rid)
                           && OpensAt(c.compressTrivial, log, n, f, RangeStart(t, f))
  {
    assert FunTells(c, log, n, t, f);
  }

  lemma {:induction false} WriteTells(c: Config, log: Log, n: nat, p: Parse, id: int, fun: string, key: string)
    requires n < |log| && TablesTell(c, log, n, p.tables) && SeenTells(log, n, p.seen) && StartsTell(log, n, p.starts)
    requires log[n] == AfterWrite(id, fun, key) && LookupsSucceed(c, p, n, log[n])
    ensures Enters(c, log, n) <==> Entry(c, p, n, log[n]).Some?
    ensures Enters(c, log, n) ==> var e := Entry(c, p, n, log[n]).value; EntryLine(e) == n && Describes(c, log, e)
  {
    CurIsKnown(c, log, n, p.tables, fun);
  }

  lemma {:induction false} ParseTellsNext(c: Config, log: Log, n: nat, p: Parse, q: Parse)
    requires n < |log| && ParseTells(c, log, n, p) && ParseLine(c, p, n, log[n]) == Some(q)
    ensures ParseTells(c, log, n + 1, q)
  {
    TablesTellNext(c, log, n, p.tables, q.tables);
    SeenTellsNext(c, log, n, p.seen, p.tables, q.tables);
    EntryTells(c, log, n, p);
    assert q.seen == ReadsAfter(p.seen, p.tables, q.tables, log[n]);
  }

  lemma {:induction false} ParseTellsAll(c: Config, log: Log, n: nat)
    requires n <= |log| && ParseLog(c, log, n).Some?
    ensures ParseTells(c, log, n, ParseLog(c, log, n).value)
  {
    if n == 0 {
      NothingTold(c, log);
    } else {
      ParseTellsAll(c, log, n - 1);
      ParseTellsNext(c, log, n - 1, ParseLog(c, log, n - 1).value, ParseLog(c, log, n).value);
    }
  }

  lemma {:induction false} NothingTold(c: Config, log: Log)
    ensures ParseTells(c, log, 0, START)
  {
    forall f ensures FunTells(c, log, 0, START.tables, f) {
    }
  }

  /** Every line that enters an event, among the first `n`, is found again. */
  ghost predicate AllTold(c: Config, log: Log, n: nat, events: map<nat, Event>) {
    forall i: nat :: i < n && Enters(c, log, i) ==> exists at :: at in events && EntryLine(events[at]) == i
  }

  lemma {:induction false} NothingIsLost(c: Config, log: Log, n: nat)
    requires n <= |log| && Accepted(log)
    ensures ParseLog(c, log, n).Some? && AllTold(c, log, n, ParseLog(c, log, n).value.events)
  {
    ParseSound(c, log, n);
    if n > 0 {
      NothingIsLost(c, log, n - 1);
      NextIsTold(c, log, n - 1, ParseLog(c, log, n - 1).value, ParseLog(c, log, n).value);
    }
  }

  lemma {:induction false} NextIsTold(c: Config, log: Log, n: nat, p: Parse, q: Parse)
    requires n < |log| && Accepted(log) && ParseLog(c, log, n) == Some(p) && ParseLog(c, log, n + 1) == Some(q)
    requires AllTold(c, log, n, p.events)
    ensures AllTold(c, log, n + 1, q.events)
  {
    ParseSound(c, log, n);
    NextLine(log, n);
    ParseTellsAll(c, log, n);
    EntryTells(c, log, n, p);
    var e := Entry(c, p, n, log[n]);
    if e.Some? {
      EntryIsFresh(c, log, Check(log[..n]).value, n, p);
      assert q.events[At(e.value)] == e.value;
    }
    forall i: nat | i < n + 1 && Enters(c, log, i) ensures exists at :: at in q.events && EntryLine(q.events[at]) == i {
      if i < n {
        var at :| at in p.events && EntryLine(p.events[at]) == i;
        assert at in q.events && q.events[at] == p.events[at];
      }
    }
  }

  /** The list holds one event for every line that enters one, and each says what the log does. */
  ghost predicate IsAccount(c: Config, log: Log, list: seq<Event>) {
    (forall j :: 0 <= j < |list| ==> Describes(c, log, list[j]))
    && (forall j, k :: 0 <= j < k < |list| ==> At(list[j]) < At(list[k]))
    && (forall i: nat :: Enters(c, log, i) ==> Told(list, i))
  }

  ghost predicate Told(list: seq<Event>, i: nat) {
    exists j :: 0 <= j < |list| && EntryLine(list[j]) == i
  }

  lemma {:induction false} SortedIsAccount(c: Config, log: Log, list: seq<Event>)
    requires Accepted(log) && ParseLog(c, log, |log|).Some? && IsSorted(ParseLog(c, log, |log|).value.events, list)
    ensures IsAccount(c, log, list)
  {
    var events := ParseLog(c, log, |log|).value.events;
    ParseTellsAll(c, log, |log|);
    NothingIsLost(c, log, |log|);
    forall j | 0 <= j < |list| ensures Describes(c, log, list[j]) {
      assert events[At(list[j])] == list[j];
    }
    forall i: nat | Enters(c, log, i) ensures Told(list, i) {
      var at :| at in events && EntryLine(events[at]) == i;
      var j :| 0 <= j < |list| && At(list[j]) == at;
      assert events[At(list[j])] == list[j];
    }
  }

  // ----- The parser -----

  /** All events, by increasing line number. */
  ghost predicate IsSorted(events: map<nat, Event>, list: seq<Event>) {
    (forall j :: 0 <= j < |list| ==> At(list[j]) in events && events[At(list[j])] == list[j])
    && (forall j, k :: 0 <= j < k < |list| ==> At(list[j]) < At(list[k]))
    && (forall at :: at in events ==> exists j :: 0 <= j < |list| && At(list[j]) == at)
  }

  method SortEvents(events: map<nat, Event>, n: nat) returns (list: seq<Event>)
    requires forall at :: at in events ==> at < n && At(events[at]) == at
    ensures IsSorted(events, list)
  {
    list := [];
    for i := 0 to n
      invariant SortedBelow(events, list, i)
    {
      if i in events {
        OneMoreSorted(events, list, i);
        list := list + [events[i]];
      }
    }
  }

  ghost predicate SortedBelow(events: map<nat, Event>, list: seq<Event>, n: nat) {
    (forall j :: 0 <= j < |list| ==> At(list[j]) < n && At(list[j]) in events && events[At(list[j])] == list[j])
    && (forall j, k :: 0 <= j < k < |list| ==> At(list[j]) < At(list[k]))
    && (forall at :: at in events && at < n ==> exists j :: 0 <= j < |list| && At(list[j]) == at)
  }

  lemma {:induction false} OneMoreSorted(events: map<nat, Event>, list: seq<Event>, n: nat)
    requires SortedBelow(events, list, n) && n in events && At(events[n]) == n
    ensures SortedBelow(events, list + [events[n]], n + 1)
  {
    var longer := list + [events[n]];
    assert forall j :: 0 <= j < |list| ==> longer[j] == list[j];
    assert At(longer[|list|]) == n;
  }

  method ParseReconcilerEvents(c: Config, log: Log) returns (r: Option<seq<Event>>)
    ensures Accepted(log) ==> r.Some? && ParseLog(c, log, |log|).Some? && IsSorted(ParseLog(c, log, |log|).value.events, r.value)
    ensures Accepted(log) ==> IsAccount(c, log, r.value)
    ensures r.Some? ==> forall j, k :: 0 <= j < k < |r.value| ==> At(r.value[j]) < At(r.value[k])
  {
    var p := START;
    for i := 0 to |log|
      invariant ParseLog(c, log, i) == Some(p)
      invariant forall at :: at in p.events ==> At(p.events[at]) == at
      invariant Accepted(log) ==> forall at :: at in p.events ==> at < i
    {
      if Accepted(log) {
        ParseSound(c, log, i + 1);
        ghost var q := ParseLog(c, log, i + 1).value;
        assert forall at :: at in q.events ==> EventMatches(log, i + 1, at, q.events[at]);
      }
      var next := ParseLine(c, p, i, log[i]);
      if next.None? {
        return None;
      }
      p := next.value;
    }
    if at :| at in p.events && at >= |log| {
      return None;
    }
    var list := SortEvents(p.events, |log|);
    r := Some(list);
    if Accepted(log) {
      SortedIsAccount(c, log, list);
    }
  }

  // ----- Compressing trivial reconciles -----

  /** With compression (`a`) windows start no later than without (`b`). */
  ghost predicate TablesWiden(n: nat, a: Tables, b: Tables) {
    a.ongoing == b.ongoing && a.trivial == b.trivial
    && a.cur.Keys == b.cur.Keys == a.prev.Keys == b.prev.Keys == a.trivial.Keys
    && forall f :: f in b.cur ==> f in a.cur && WindowWidens(n, a.cur[f], b.cur[f], RangeStart(a, f), RangeStart(b, f))
  }

  predicate WindowWidens(n: nat, a: Begin, b: Begin, startA: int, startB: int) {
    a.at <= b.at < n && startA <= startB <= b.at
  }

  ghost predicate EventWidens(a: Event, b: Event) {
    match b
    case Write(_, _, _, _, _, _, _, _, _, _) =>
      a.Write? && a.id == b.id && a.fun == b.fun && a.key == b.key && a.start == b.start && a.end == b.end
      && a.readKeys == b.readKeys && a.readTypes == b.readTypes && a.rid.Some? == b.rid.Some?
      && a.rangeStart <= b.rangeStart && a.rangeEnd == b.rangeEnd
    case Read(_, _, _, _) => a.Read? && a.fun == b.fun && a.keys == b.keys && a.at == b.at
    case _ => a == b
  }

  ghost predicate ParseWidens(n: nat, a: Parse, b: Parse) {
    a.starts == b.starts && a.seen == b.seen && TablesWiden(n, a.tables, b.tables) && EventsWiden(a.events, b.events)
  }

  ghost predicate EventsWiden(a: map<nat, Event>, b: map<nat, Event>) {
    a.Keys == b.Keys && forall at :: at in b ==> EventWidens(a[at], b[at])
  }

  ghost predicate BothTablesWiden(n: nat, x: Option<Tables>, y: Option<Tables>) {
    x.Some? == y.Some? && (x.Some? ==> TablesWiden(n, x.value, y.value))
  }

  lemma {:induction false} TablesWidenStep(loosen: bool, n: nat, a: Tables, b: Tables, l: Line)
    requires TablesWiden(n, a, b)
    ensures BothTablesWiden(n + 1, TablesAfter(Config(loosen, true), a, n, l), TablesAfter(Config(loosen, false), b, n, l))
  {
    if l.BeforeReconcile? {
      BeginWidens(loosen, n, a, b, l.fun, l.rid);
    } else if l.AfterReconcile? {
      EndWidens(n, a, b, l.fun);
    } else {
      QuietWidens(n, a, b);
    }
  }

  lemma {:induction false} QuietWidens(n: nat, a: Tables, b: Tables)
    requires TablesWiden(n, a, b)
    ensures BothTablesWiden(n + 1, Some(a), Some(b))
    ensures BothTablesWiden(n + 1, Some(a.(trivial := NoneTrivial(a.trivial))), Some(b.(trivial := NoneTrivial(b.trivial))))
  {
    LaterWidens(n, a, b);
    NontrivialWidens(n, a, b);
  }

  lemma {:induction false} LaterWidens(n: nat, a: Tables, b: Tables)
    requires TablesWiden(n, a, b)
    ensures TablesWiden(n + 1, a, b)
  {
  }

  lemma {:induction false} NontrivialWidens(n: nat, a: Tables, b: Tables)
    requires TablesWiden(n, a, b)
    ensures TablesWiden(n + 1, a.(trivial := NoneTrivial(a.trivial)), b.(trivial := NoneTrivial(b.trivial)))
  {
    var x, y := a.(trivial := NoneTrivial(a.trivial)), b.(trivial := NoneTrivial(b.trivial));
    SameRanges(n, a, b, x, y);
  }

  /** Only the begins matter to the windows. */
  lemma {:induction false} SameRanges(n: nat, a: Tables, b: Tables, x: Tables, y: Tables)
    requires TablesWiden(n, a, b)
    requires x.prev == a.prev && x.cur == a.cur && y.prev == b.prev && y.cur == b.cur
    requires x.ongoing == y.ongoing && x.trivial == y.trivial && x.trivial.Keys == a.trivial.Keys
    ensures TablesWiden(n + 1, x, y)
  {
    forall f | f in y.cur
      ensures f in x.cur && WindowWidens(n + 1, x.cur[f], y.cur[f], RangeStart(x, f), RangeStart(y, f))
    {
      assert WindowWidens(n, a.cur[f], b.cur[f], RangeStart(a, f), RangeStart(b, f));
      assert RangeStart(x, f) == RangeStart(a, f) && RangeStart(y, f) == RangeStart(b, f);
    }
  }

  lemma {:induction false} EndWidens(n: nat, a: Tables, b: Tables, fun: string)
    requires TablesWiden(n, a, b)
    ensures BothTablesWiden(n + 1, TablesEnd(a, fun), TablesEnd(b, fun))
  {
    if TablesEnd(a, fun).Some? {
      SameRanges(n, a, b, TablesEnd(a, fun).value, TablesEnd(b, fun).value);
    }
  }

  predicate Idle(t: Tables, fun: string) {
    fun !in t.ongoing || t.ongoing[fun] == 0
  }

  /** What a begin makes of the tables: the new begins are entered, or the old ones kept. */
  lemma {:induction false} BeginShape(c: Config, t: Tables, n: nat, fun: string, rid: string)
    requires Idle(t, fun) && (fun in t.cur ==> fun in t.prev && fun in t.trivial)
    ensures var keep := fun in t.cur && c.compressTrivial && t.trivial[fun];
            var prev := if fun in t.cur then Some(t.cur[fun]) else None;
            TablesBegin(c, t, n, fun, rid) ==
            Some(Tables(if keep then t.prev else t.prev[fun := prev], if keep then t.cur else t.cur[fun := Begin(n, rid)],
                        t.trivial[fun := true], t.ongoing[fun := 1]))
  {
  }

  lemma {:induction false} BeginWidens(loosen: bool, n: nat, a: Tables, b: Tables, fun: string, rid: string)
    requires TablesWiden(n, a, b)
    ensures BothTablesWiden(n + 1, TablesBegin(Config(loosen, true), a, n, fun, rid),
                            TablesBegin(Config(loosen, false), b, n, fun, rid))
  {
    if Idle(a, fun) {
      BeginShape(Config(loosen, true), a, n, fun, rid);
      BeginShape(Config(loosen, false), b, n, fun, rid);
      if fun !in a.cur {
        WidenWith(n, a, b, fun, None, Begin(n, rid), None, Begin(n, rid));
      } else if a.trivial[fun] {
        TrivialWidens(n, a, b, fun, rid);
      } else {
        assert WindowWidens(n, a.cur[fun], b.cur[fun], RangeStart(a, fun), RangeStart(b, fun));
        WidenWith(n, a, b, fun, Some(a.cur[fun]), Begin(n, rid), Some(b.cur[fun]), Begin(n, rid));
      }
    }
  }

  /** Compression keeps the earlier begins. */
  lemma {:induction false} TrivialWidens(n: nat, a: Tables, b: Tables, fun: string, rid: string)
    requires TablesWiden(n, a, b) && fun in a.cur
    ensures TablesWiden(n + 1,
              Tables(a.prev, a.cur, a.trivial[fun := true], a.ongoing[fun := 1]),
              Tables(b.prev[fun := Some(b.cur[fun])], b.cur[fun := Begin(n, rid)], b.trivial[fun := true], b.ongoing[fun := 1]))
  {
    assert WindowWidens(n, a.cur[fun], b.cur[fun], RangeStart(a, fun), RangeStart(b, fun));
    WidenWith(n, a, b, fun, a.prev[fun], a.cur[fun], Some(b.cur[fun]), Begin(n, rid));
    assert a.prev[fun := a.prev[fun]] == a.prev && a.cur[fun := a.cur[fun]] == a.cur;
  }

  function Bound(prev: Option<Begin>): int {
    if prev.Some? then prev.value.at else -1
  }

  lemma {:induction false} WidenWith(n: nat, a: Tables, b: Tables, fun: string, pa: Option<Begin>, ca: Begin,
                                     pb: Option<Begin>, cb: Begin)
    requires TablesWiden(n, a, b) && ca.at <= cb.at <= n && Bound(pa) <= Bound(pb) <= cb.at
    ensures TablesWiden(n + 1,
              Tables(a.prev[fun := pa], a.cur[fun := ca], a.trivial[fun := true], a.ongoing[fun := 1]),
              Tables(b.prev[fun := pb], b.cur[fun := cb], b.trivial[fun := true], b.ongoing[fun := 1]))
  {
    var x := Tables(a.prev[fun := pa], a.cur[fun := ca], a.trivial[fun := true], a.ongoing[fun := 1]);
    var y := Tables(b.prev[fun := pb], b.cur[fun := cb], b.trivial[fun := true], b.ongoing[fun := 1]);
    forall f | f in y.cur
      ensures f in x.cur && WindowWidens(n + 1, x.cur[f], y.cur[f], RangeStart(x, f), RangeStart(y, f))
    {
      if f != fun {
        assert WindowWidens(n, a.cur[f], b.cur[f], RangeStart(a, f), RangeStart(b, f));
        assert RangeStart(x, f) == RangeStart(a, f) && RangeStart(y, f) == RangeStart(b, f);
      }
    }
  }

  lemma {:induction false} EntryWidens(loosen: bool, n: nat, a: Parse, b: Parse, l: Line)
    requires ParseWidens(n, a, b)
    ensures var x, y := Config(loosen, true), Config(loosen, false);
            LookupsSucceed(x, a, n, l) == LookupsSucceed(y, b, n, l)
            && (LookupsSucceed(x, a, n, l) ==>
                  Entry(x, a, n, l).Some? == Entry(y, b, n, l).Some?
                  && (Entry(x, a, n, l).Some? ==> EventWidens(Entry(x, a, n, l).value, Entry(y, b, n, l).value)))
  {
  }

  /** For the same log, parsing with and without compression succeeds alike and finds the same events; each
      write's window with compression contains the one without. */
  lemma {:induction false} CompressionWidens(loosen: bool, log: Log, n: nat)
    requires n <= |log|
    ensures BothWiden(n, ParseLog(Config(loosen, true), log, n), ParseLog(Config(loosen, false), log, n))
  {
    if n == 0 {
      StartWidens();
    } else {
      CompressionWidens(loosen, log, n - 1);
      var x, y := Config(loosen, true), Config(loosen, false);
      BothStep(loosen, n - 1, log[n - 1], ParseLog(x, log, n - 1), ParseLog(y, log, n - 1), ParseLog(x, log, n), ParseLog(y, log, n));
    }
  }

  lemma {:induction false} StartWidens()
    ensures ParseWidens(0, START, START)
  {
  }

  ghost predicate BothWiden(n: nat, a: Option<Parse>, b: Option<Parse>) {
    a.Some? == b.Some? && (a.Some? ==> ParseWidens(n, a.value, b.value))
  }

  lemma {:induction false} BothStep(loosen: bool, n: nat, l: Line, a: Option<Parse>, b: Option<Parse>,
                                    a': Option<Parse>, b': Option<Parse>)
    requires BothWiden(n, a, b)
    requires a' == Then(Config(loosen, true), a, n, l) && b' == Then(Config(loosen, false), b, n, l)
    ensures BothWiden(n + 1, a', b')
  {
    if a.Some? {
      ParseWidenStep(loosen, n, a.value, b.value, l);
    }
  }

  lemma {:induction false} ParseWidenStep(loosen: bool, n: nat, a: Parse, b: Parse, l: Line)
    requires ParseWidens(n, a, b)
    ensures var x, y := ParseLine(Config(loosen, true), a, n, l), ParseLine(Config(loosen, false), b, n, l);
            x.Some? == y.Some? && (x.Some? ==> ParseWidens(n + 1, x.value, y.value))
  {
    var c, d := Config(loosen, true), Config(loosen, false);
    TablesWidenStep(loosen, n, a.tables, b.tables, l);
    EntryWidens(loosen, n, a, b, l);
    if LookupsSucceed(c, a, n, l) && TablesAfter(c, a.tables, n, l).Some? {
      EntriesWiden(a.events, b.events, Entry(c, a, n, l), Entry(d, b, n, l));
      ReadsAlike(n, a, b, TablesAfter(c, a.tables, n, l).value, TablesAfter(d, b.tables, n, l).value, l);
    }
  }

  lemma {:induction false} ReadsAlike(n: nat, a: Parse, b: Parse, x: Tables, y: Tables, l: Line)
    requires ParseWidens(n, a, b) && x.ongoing == y.ongoing
    ensures ReadsAfter(a.seen, a.tables, x, l) == ReadsAfter(b.seen, b.tables, y, l)
  {
  }

  lemma {:induction false} EntriesWiden(a: map<nat, Event>, b: map<nat, Event>, d: Option<Event>, e: Option<Event>)
    requires EventsWiden(a, b) && d.Some? == e.Some? && (d.Some? ==> EventWidens(d.value, e.value))
    ensures EventsWiden(if d.Some? then a[At(d.value) := d.value] else a, if e.Some? then b[At(e.value) := e.value] else b)
  {
    if d.Some? {
      EventsWidenWith(a, b, d.value, e.value);
    }
  }

  lemma {:induction false} EventsWidenWith(a: map<nat, Event>, b: map<nat, Event>, d: Event, e: Event)
    requires EventsWiden(a, b) && EventWidens(d, e)
    ensures EventsWiden(a[At(d) := d], b[At(e) := e])
  {
    assert At(d) == At(e);
  }

  // ----- Hear-write pairs -----

  /** `base_pass`: the hear ends after the window opens and starts before the write. */
  predicate Related(h: Hear, e: Event) {
    e.Write? && e.rid.Some? && e.rangeStart < h.end && e.start > h.start
  }

  /** `hear_read_overlap_filtering_pass`: the write's reconcile has read the key or the type. */
  predicate ReadOverlaps(h: Hear, e: Event) {
    e.Write? && (h.key in e.readKeys || h.rtype in e.readTypes)
  }

  /** Every pair found without compression is found with it, before and after the read filter. */
  lemma {:induction false} CompressionKeepsPairs(loosen: bool, log: Log, h: Hear, at: nat)
    requires ParseLog(Config(loosen, false), log, |log|).Some?
    requires at in ParseLog(Config(loosen, false), log, |log|).value.events
    ensures var a := ParseLog(Config(loosen, true), log, |log|);
            var e := ParseLog(Config(loosen, false), log, |log|).value.events[at];
            a.Some? && at in a.value.events
            && (Related(h, e) ==> Related(h, a.value.events[at]))
            && (ReadOverlaps(h, e) <==> ReadOverlaps(h, a.value.events[at]))
  {
    CompressionWidens(loosen, log, |log|);
  }
}
