/** The log of the learning server, its sanity check, and the parsing of its hears and
    reconciler events. `None` stands for a failed assertion or lookup. */
module ServerLog {
  import opened TriggerExpr

  /** A log line; every line carries at most one mark. */
  datatype Line =
    | BeforeHear(hearId: int, key: string, rtype: string)
    | AfterHear(hearId: int)
    | BeforeWrite(writeId: int)
    | AfterWrite(writeId: int, fun: string, key: string)
    | RestRead(fun: string, keys: set<string>)
    | CacheRead(fun: string, isGet: bool, rtype: string, keys: set<string>)
    | BeforeReconcile(fun: string, rid: string)
    | AfterReconcile(fun: string, rid: string)
    | Other

  type Log = seq<Line>

  // ----- Sanity check -----

  datatype Sanity = Sanity(reconciles: map<string, int>, writes: map<int, nat>, hears: map<int, nat>)

  function CheckLine(s: Sanity, l: Line): Option<Sanity> {
    match l
    case BeforeWrite(id) => if id in s.writes then None else Some(s.(writes := s.writes[id := 1]))
    case AfterWrite(id, _, _) => if id !in s.writes then None else Some(s.(writes := s.writes[id := s.writes[id] + 1]))
    case BeforeHear(id, _, _) => if id in s.hears then None else Some(s.(hears := s.hears[id := 1]))
    case AfterHear(id) => if id !in s.hears then None else Some(s.(hears := s.hears[id := s.hears[id] + 1]))
    case BeforeReconcile(fun, _) =>
      var n := (if fun in s.reconciles then s.reconciles[fun] else 0) + 1;
      if n != 1 then None else Some(s.(reconciles := s.reconciles[fun := n]))
    case AfterReconcile(fun, _) =>
      if fun !in s.reconciles || s.reconciles[fun] - 1 != 0 then None
      else Some(s.(reconciles := s.reconciles[fun := s.reconciles[fun] - 1]))
    case _ => Some(s)
  }

  function Check(log: Log): Option<Sanity> {
    if log == [] then Some(Sanity(map[], map[], map[]))
    else
      match Check(log[..|log| - 1])
      case None => None
      case Some(s) => CheckLine(s, log[|log| - 1])
  }

  predicate AtMostTwice(status: map<int, nat>) {
    forall id :: id in status ==> status[id] == 1 || status[id] == 2
  }

  predicate Accepted(log: Log) {
    Check(log).Some? && AtMostTwice(Check(log).value.writes) && AtMostTwice(Check(log).value.hears)
  }

  /** The statuses of the reconcilers; the last loop of the original looks only at the reconciler seen last,
      and no status can be other than 0 or 1 there. */
  lemma {:induction false} ReconcileStatus(log: Log)
    requires Check(log).Some?
    ensures forall f :: f in Check(log).value.reconciles ==> Check(log).value.reconciles[f] == 0 || Check(log).value.reconciles[f] == 1
  {
    if log != [] {
      ReconcileStatus(log[..|log| - 1]);
    }
  }

  method SanityCheck(log: Log) returns (ok: bool)
    ensures ok == Accepted(log)
  {
    var s := Sanity(map[], map[], map[]);
    for i := 0 to |log|
      invariant Check(log[..i]) == Some(s)
    {
      assert log[..i + 1][..i] == log[..i];
      var t := CheckLine(s, log[i]);
      if t.None? {
        CheckStuck(log, i + 1);
        return false;
      }
      s := t.value;
    }
    assert log[..|log|] == log;
    ok := true;
    if i :| i in s.writes && !(s.writes[i] == 1 || s.writes[i] == 2) {
      ok := false;
    }
    if i :| i in s.hears && !(s.hears[i] == 1 || s.hears[i] == 2) {
      ok := false;
    }
    ReconcileStatus(log);
  }

  lemma {:induction false} CheckStuck(log: Log, i: nat)
    requires i <= |log| && Check(log[..i]).None?
    ensures Check(log).None?
    decreases |log| - i
  {
    if i == |log| {
      assert log[..i] == log;
    } else {
      assert log[..i + 1][..i] == log[..i];
      CheckStuck(log, i + 1);
    }
  }

  /** Acceptance is inherited by prefixes. */
  lemma {:induction false} AcceptedPrefix(log: Log, i: nat)
    requires i <= |log| && Accepted(log)
    ensures Accepted(log[..i])
    decreases |log| - i
  {
    if i == |log| {
      assert log[..i] == log;
    } else {
      AcceptedPrefix(log, i + 1);
      assert log[..i + 1][..i] == log[..i];
      StatusPositive(log[..i]);
      StatusGrows(Check(log[..i]).value, log[i], Check(log[..i + 1]).value);
    }
  }

  lemma {:induction false} StatusGrows(s: Sanity, l: Line, t: Sanity)
    requires CheckLine(s, l) == Some(t) && AtMostTwice(t.writes) && AtMostTwice(t.hears)
    requires (forall id :: id in s.writes ==> s.writes[id] > 0) && forall id :: id in s.hears ==> s.hears[id] > 0
    ensures AtMostTwice(s.writes) && AtMostTwice(s.hears)
  {
    assert forall id :: id in s.writes ==> id in t.writes && s.writes[id] <= t.writes[id];
    assert forall id :: id in s.hears ==> id in t.hears && s.hears[id] <= t.hears[id];
  }

  lemma {:induction false} StatusPositive(log: Log)
    requires Check(log).Some?
    ensures forall id :: id in Check(log).value.writes ==> Check(log).value.writes[id] > 0
    ensures forall id :: id in Check(log).value.hears ==> Check(log).value.hears[id] > 0
  {
    if log != [] {
      StatusPositive(log[..|log| - 1]);
    }
  }

  // ----- Hears -----

  datatype Hear = Hear(id: int, key: string, rtype: string, start: nat, end: nat)

  function HearLine(hears: map<int, Hear>, i: nat, size: nat, l: Line): Option<map<int, Hear>> {
    match l
    case BeforeHear(id, key, rtype) => Some(hears[id := Hear(id, key, rtype, i, size)])
    case AfterHear(id) => if id !in hears then None else Some(hears[id := hears[id].(end := i)])
    case _ => Some(hears)
  }

  /** The table of hears after the first `n` lines. */
  ghost predicate HearsAre(log: Log, n: nat, hears: map<int, Hear>)
    requires n <= |log|
  {
    Check(log[..n]).Some? && hears.Keys == Check(log[..n]).value.hears.Keys
    && (forall id :: id in hears ==> hears[id].id == id && hears[id].start < n && HearMatches(log, hears[id]))
    && (forall k :: 0 <= k < n && log[k].BeforeHear? ==> log[k].hearId in hears && hears[log[k].hearId].start == k)
  }

  ghost predicate HearMatches(log: Log, h: Hear) {
    h.start < h.end <= |log| && log[h.start] == BeforeHear(h.id, h.key, h.rtype)
    && (h.end < |log| ==> log[h.end] == AfterHear(h.id))
  }

  /** One hear per before-line, in log order, with distinct ids. */
  ghost predicate HearsUpTo(log: Log, n: nat, list: seq<Hear>)
    requires n <= |log|
  {
    InLog(log, n, list) && Increasing(list) && Complete(log, n, list)
  }

  ghost predicate InLog(log: Log, n: nat, list: seq<Hear>) {
    forall j :: 0 <= j < |list| ==> HearMatches(log, list[j]) && list[j].start < n
  }

  ghost predicate Increasing(list: seq<Hear>) {
    forall j, k :: 0 <= j < k < |list| ==> list[j].start < list[k].start && list[j].id != list[k].id
  }

  ghost predicate Complete(log: Log, n: nat, list: seq<Hear>)
    requires n <= |log|
  {
    forall k :: 0 <= k < n && log[k].BeforeHear? ==> Starts(list, k)
  }

  ghost predicate Starts(list: seq<Hear>, k: nat) {
    exists j :: 0 <= j < |list| && list[j].start == k
  }

  lemma {:induction false} NextLine(log: Log, i: nat)
    requires i < |log| && Accepted(log)
    ensures Check(log[..i]).Some? && Check(log[..i + 1]) == CheckLine(Check(log[..i]).value, log[i])
    ensures Accepted(log[..i]) && Accepted(log[..i + 1])
  {
    AcceptedPrefix(log, i);
    AcceptedPrefix(log, i + 1);
    assert log[..i + 1][..i] == log[..i];
  }

  lemma {:induction false} HearStep(log: Log, i: nat, hears: map<int, Hear>)
    requires i < |log| && Accepted(log) && HearsAre(log, i, hears)
    ensures var next := HearLine(hears, i, |log|, log[i]); next.Some? && HearsAre(log, i + 1, next.value)
  {
    NextLine(log, i);
    match log[i]
    case BeforeHear(id, key, rtype) => HearUpdated(log, i, hears, id, Hear(id, key, rtype, i, |log|));
    case AfterHear(id) => HearUpdated(log, i, hears, id, hears[id].(end := i));
    case _ => assert Check(log[..i + 1]).value.hears == Check(log[..i]).value.hears;
  }

  lemma {:induction false} HearUpdated(log: Log, i: nat, hears: map<int, Hear>, id: int, h: Hear)
    requires i < |log| && HearsAre(log, i, hears) && h.id == id && HearMatches(log, h)
    requires h.start == (if log[i].BeforeHear? then i else if id in hears then hears[id].start else i) && h.start <= i
    requires (log[i].BeforeHear? ==> log[i].hearId == id && id !in hears) && (id in hears || log[i].BeforeHear?)
    requires Check(log[..i + 1]).Some?
    requires Check(log[..i + 1]).value.hears.Keys == Check(log[..i]).value.hears.Keys + {id}
    ensures HearsAre(log, i + 1, hears[id := h])
  {
  }

  /** Every after-line so far ends its hear; a hear that has an end has been seen twice. */
  ghost predicate EndsAre(log: Log, n: nat, hears: map<int, Hear>)
    requires n <= |log|
  {
    Check(log[..n]).Some? && EndsUpTo(log, n, hears) && SeenTwice(Check(log[..n]).value.hears, hears, |log|)
  }

  ghost predicate EndsUpTo(log: Log, n: nat, hears: map<int, Hear>)
    requires n <= |log|
  {
    forall k :: 0 <= k < n && log[k].AfterHear? ==> log[k].hearId in hears && hears[log[k].hearId].end == k
  }

  ghost predicate SeenTwice(status: map<int, nat>, hears: map<int, Hear>, size: nat) {
    forall id :: id in hears && hears[id].end < size ==> id in status && status[id] >= 2
  }

  lemma {:induction false} EndsStep(log: Log, i: nat, hears: map<int, Hear>)
    requires i < |log| && Accepted(log) && EndsAre(log, i, hears) && hears.Keys == Check(log[..i]).value.hears.Keys
    ensures var next := HearLine(hears, i, |log|, log[i]); next.Some? && EndsAre(log, i + 1, next.value)
  {
    NextLine(log, i);
    var s, t := Check(log[..i]).value, Check(log[..i + 1]).value;
    var next := HearLine(hears, i, |log|, log[i]).value;
    match log[i]
    case AfterHear(id) =>
      NotEndedYet(log, i, hears, id);
      EndMoves(log, i, hears, id, next, s.hears, t.hears);
    case BeforeHear(id, _, _) => EndOpens(log, i, hears, id, next, s.hears, t.hears);
    case _ => assert t.hears == s.hears && next == hears;
  }

  lemma {:induction false} NotEndedYet(log: Log, i: nat, hears: map<int, Hear>, id: int)
    requires i < |log| && Accepted(log) && log[i] == AfterHear(id) && EndsAre(log, i, hears)
    ensures forall k :: 0 <= k < i && log[k].AfterHear? ==> log[k].hearId != id
  {
    NextLine(log, i);
    var s, t := Check(log[..i]).value, Check(log[..i + 1]).value;
    assert t.hears[id] == s.hears[id] + 1;
  }

  lemma {:induction false} EndMoves(log: Log, i: nat, hears: map<int, Hear>, id: int, next: map<int, Hear>,
                                    status: map<int, nat>, status': map<int, nat>)
    requires i < |log| && log[i] == AfterHear(id) && EndsUpTo(log, i, hears) && SeenTwice(status, hears, |log|)
    requires id in hears && next == hears[id := hears[id].(end := i)]
    requires id in status && status[id] >= 1 && status' == status[id := status[id] + 1]
    requires forall k :: 0 <= k < i && log[k].AfterHear? ==> log[k].hearId != id
    ensures EndsUpTo(log, i + 1, next) && SeenTwice(status', next, |log|)
  {
  }

  lemma {:induction false} EndOpens(log: Log, i: nat, hears: map<int, Hear>, id: int, next: map<int, Hear>,
                                    status: map<int, nat>, status': map<int, nat>)
    requires i < |log| && log[i].BeforeHear? && EndsUpTo(log, i, hears) && SeenTwice(status, hears, |log|)
    requires id !in hears && next.Keys == hears.Keys + {id} && next[id].end == |log|
    requires forall other :: other in hears ==> next[other] == hears[other]
    requires forall other :: other in status && other != id ==> other in status' && status'[other] == status[other]
    ensures EndsUpTo(log, i + 1, next) && SeenTwice(status', next, |log|)
  {
  }

  /** The first pass: the table of hears by id. */
  method HearTable(log: Log) returns (r: Option<map<int, Hear>>)
    ensures Accepted(log) ==> r.Some? && HearsAre(log, |log|, r.value) && EndsAre(log, |log|, r.value)
  {
    var hears: map<int, Hear> := map[];
    assert log[..0] == [];
    for i := 0 to |log|
      invariant Accepted(log) ==> HearsAre(log, i, hears) && EndsAre(log, i, hears)
    {
      if Accepted(log) {
        HearStep(log, i, hears);
        EndsStep(log, i, hears);
      }
      var next := HearLine(hears, i, |log|, log[i]);
      if next.None? {
        return None;
      }
      hears := next.value;
    }
    r := Some(hears);
  }

  ghost predicate FromTable(hears: map<int, Hear>, list: seq<Hear>) {
    forall j :: 0 <= j < |list| ==> list[j].id in hears && hears[list[j].id] == list[j]
  }

  lemma {:induction false} HearListed(log: Log, i: nat, hears: map<int, Hear>, before: seq<Hear>, list: seq<Hear>)
    requires i < |log| && log[i].BeforeHear? && HearsAre(log, |log|, hears) && HearsUpTo(log, i, before)
    requires FromTable(hears, before)
    requires log[i].hearId in hears && list == before + [hears[log[i].hearId]]
    ensures HearsUpTo(log, i + 1, list) && FromTable(hears, list)
  {
    var h := hears[log[i].hearId];
    assert h.start == i && HearMatches(log, h);
    assert forall j :: 0 <= j < |before| ==> hears[before[j].id] == before[j] && before[j].start < i;
    HearAppended(log, i, before, h);
  }

  lemma {:induction false} HearSkipped(log: Log, i: nat, list: seq<Hear>)
    requires i < |log| && !log[i].BeforeHear? && HearsUpTo(log, i, list)
    ensures HearsUpTo(log, i + 1, list)
  {
  }

  /** Two passes: the first fills the table of hears by id, the second lists them in log order. */
  method ParseReceiverEvents(log: Log) returns (r: Option<seq<Hear>>)
    ensures Accepted(log) ==> r.Some? && HearsUpTo(log, |log|, r.value) && Ended(log, r.value)
  {
    var table := HearTable(log);
    if table.None? {
      return None;
    }
    var hears := table.value;
    var list: seq<Hear> := [];
    for i := 0 to |log|
      invariant Accepted(log) ==> HearsUpTo(log, i, list) && FromTable(hears, list)
    {
      ghost var before := list;
      if log[i].BeforeHear? {
        if log[i].hearId !in hears {
          return None;
        }
        list := list + [hears[log[i].hearId]];
        if Accepted(log) {
          HearListed(log, i, hears, before, list);
        }
      } else if Accepted(log) {
        HearSkipped(log, i, list);
      }
    }
    r := Some(list);
    if Accepted(log) {
      ListEnds(log, hears, list);
    }
  }

  /** Every after-line is the end of a hear. */
  ghost predicate Ended(log: Log, list: seq<Hear>) {
    forall k :: 0 <= k < |log| && log[k].AfterHear? ==> Ends(list, log[k].hearId, k)
  }

  ghost predicate Ends(list: seq<Hear>, id: int, k: nat) {
    exists j :: 0 <= j < |list| && list[j].id == id && list[j].end == k
  }

  lemma {:induction false} ListEnds(log: Log, hears: map<int, Hear>, list: seq<Hear>)
    requires HearsAre(log, |log|, hears) && EndsAre(log, |log|, hears) && HearsUpTo(log, |log|, list) && FromTable(hears, list)
    ensures Ended(log, list)
  {
    forall k | 0 <= k < |log| && log[k].AfterHear? ensures Ends(list, log[k].hearId, k) {
      var h := hears[log[k].hearId];
      assert Starts(list, h.start);
      var j :| 0 <= j < |list| && list[j].start == h.start;
      assert HearMatches(log, h) && HearMatches(log, list[j]);
    }
  }

  lemma {:induction false} HearAppended(log: Log, i: nat, before: seq<Hear>, h: Hear)
    requires i < |log| && HearsUpTo(log, i, before) && h.start == i && HearMatches(log, h)
    requires forall j :: 0 <= j < |before| ==> before[j].id != h.id
    ensures HearsUpTo(log, i + 1, before + [h])
  {
    var list := before + [h];
    assert InLog(log, i + 1, list);
    assert Increasing(list);
    forall k | 0 <= k < i + 1 && log[k].BeforeHear? ensures Starts(list, k) {
      HearFound(before, h, k);
    }
  }

  lemma {:induction false} HearFound(before: seq<Hear>, h: Hear, k: nat)
    requires Starts(before, k) || h.start == k
    ensures Starts(before + [h], k)
  {
    var list := before + [h];
    if Starts(before, k) {
      var j :| 0 <= j < |before| && before[j].start == k;
      assert list[j] == before[j];
    } else {
      assert list[|before|].start == k;
    }
  }
}
