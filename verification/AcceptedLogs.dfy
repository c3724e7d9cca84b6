/** Which logs the sanity check accepts, said by their lines. */
module AcceptedLogs {
  import opened ServerLog
  import opened ReconcileWindows

  predicate HearBegins(log: Log, i: int, id: int) {
    0 <= i < |log| && log[i].BeforeHear? && log[i].hearId == id
  }

  predicate HearEnds(log: Log, i: int, id: int) {
    0 <= i < |log| && log[i].AfterHear? && log[i].hearId == id
  }

  predicate WriteBegins(log: Log, i: int, id: int) {
    0 <= i < |log| && log[i].BeforeWrite? && log[i].writeId == id
  }

  predicate WriteOver(log: Log, i: int, id: int) {
    0 <= i < |log| && log[i].AfterWrite? && log[i].writeId == id
  }

  ghost predicate HearBegun(log: Log, n: int, id: int) {
    exists j :: j < n && HearBegins(log, j, id)
  }

  ghost predicate HearEnded(log: Log, n: int, id: int) {
    exists j :: j < n && HearEnds(log, j, id)
  }

  ghost predicate WriteBegun(log: Log, n: int, id: int) {
    exists j :: j < n && WriteBegins(log, j, id)
  }

  ghost predicate WriteEnded(log: Log, n: int, id: int) {
    exists j :: j < n && WriteOver(log, j, id)
  }

  /** An id begins once, and ends at most once, after it began; a reconciler begins when it is idle and ends what it began. */
  ghost predicate LineIsDue(log: Log, i: nat)
    requires i < |log|
  {
    match log[i]
    case BeforeHear(id, _, _) => !HearBegun(log, i, id)
    case AfterHear(id) => HearBegun(log, i, id) && !HearEnded(log, i, id)
    case BeforeWrite(id) => !WriteBegun(log, i, id)
    case AfterWrite(id, _, _) => WriteBegun(log, i, id) && !WriteEnded(log, i, id)
    case BeforeReconcile(fun, _) => !Open(log, i, fun)
    case AfterReconcile(fun, _) => Open(log, i, fun)
    case _ => true
  }

  // ----- The statuses -----

  ghost predicate HearTells(log: Log, n: int, status: map<int, nat>, id: int) {
    (id in status <==> HearBegun(log, n, id)) && (id in status ==> status[id] == if HearEnded(log, n, id) then 2 else 1)
  }

  ghost predicate WriteTells(log: Log, n: int, status: map<int, nat>, id: int) {
    (id in status <==> WriteBegun(log, n, id)) && (id in status ==> status[id] == if WriteEnded(log, n, id) then 2 else 1)
  }

  ghost predicate OpenTells(log: Log, n: int, status: map<string, int>, fun: string) {
    (Open(log, n, fun) <==> fun in status && status[fun] == 1) && (fun in status ==> status[fun] == 0 || status[fun] == 1)
  }

  /** The statuses after the first `n` lines, of an accepted log; what has ended has begun. */
  ghost predicate StatusTells(log: Log, n: nat, s: Sanity) {
    (forall id :: HearTells(log, n, s.hears, id)) && (forall id :: WriteTells(log, n, s.writes, id))
    && (forall fun :: OpenTells(log, n, s.reconciles, fun))
    && (forall id :: HearEnded(log, n, id) ==> HearBegun(log, n, id))
    && (forall id :: WriteEnded(log, n, id) ==> WriteBegun(log, n, id))
  }

  lemma {:induction false} HearNext(log: Log, n: nat, id: int)
    requires n < |log|
    ensures HearBegun(log, n + 1, id) <==> HearBegun(log, n, id) || HearBegins(log, n, id)
    ensures HearEnded(log, n + 1, id) <==> HearEnded(log, n, id) || HearEnds(log, n, id)
  {
    if HearBegun(log, n, id) {
      var j :| j < n && HearBegins(log, j, id);
      assert j < n + 1;
    }
    if HearEnded(log, n, id) {
      var j :| j < n && HearEnds(log, j, id);
      assert j < n + 1;
    }
  }

  lemma {:induction false} WriteNext(log: Log, n: nat, id: int)
    requires n < |log|
    ensures WriteBegun(log, n + 1, id) <==> WriteBegun(log, n, id) || WriteBegins(log, n, id)
    ensures WriteEnded(log, n + 1, id) <==> WriteEnded(log, n, id) || WriteOver(log, n, id)
  {
    if WriteBegun(log, n, id) {
      var j :| j < n && WriteBegins(log, j, id);
      assert j < n + 1;
    }
    if WriteEnded(log, n, id) {
      var j :| j < n && WriteOver(log, j, id);
      assert j < n + 1;
    }
  }

  /** A line is passed, and no id seen three times, exactly if the line is due. */
  lemma {:induction false} LinePasses(log: Log, n: nat, s: Sanity)
    requires n < |log| && StatusTells(log, n, s)
    ensures LineIsDue(log, n) <==>
            var t := CheckLine(s, log[n]); t.Some? && AtMostTwice(t.value.writes) && AtMostTwice(t.value.hears)
  {
    assert AtMostTwice(s.hears) by {
      forall id | id in s.hears ensures s.hears[id] == 1 || s.hears[id] == 2 {
        assert HearTells(log, n, s.hears, id);
      }
    }
    assert AtMostTwice(s.writes) by {
      forall id | id in s.writes ensures s.writes[id] == 1 || s.writes[id] == 2 {
        assert WriteTells(log, n, s.writes, id);
      }
    }
    match log[n]
    case BeforeHear(id, _, _) => assert HearTells(log, n, s.hears, id);
    case AfterHear(id) => HearPasses(log, n, s.hears, id);
    case BeforeWrite(id) => assert WriteTells(log, n, s.writes, id);
    case AfterWrite(id, _, _) => WritePasses(log, n, s.writes, id);
    case BeforeReconcile(fun, _) => assert OpenTells(log, n, s.reconciles, fun);
    case AfterReconcile(fun, _) => assert OpenTells(log, n, s.reconciles, fun);
    case _ =>
  }

  lemma {:induction false} HearPasses(log: Log, n: nat, status: map<int, nat>, id: int)
    requires HearTells(log, n, status, id) && AtMostTwice(status)
    ensures HearBegun(log, n, id) && !HearEnded(log, n, id) <==> id in status && AtMostTwice(status[id := status[id] + 1])
  {
    if id in status {
      var next := status[id := status[id] + 1];
      assert next[id] == status[id] + 1;
    }
  }

  lemma {:induction false} WritePasses(log: Log, n: nat, status: map<int, nat>, id: int)
    requires WriteTells(log, n, status, id) && AtMostTwice(status)
    ensures WriteBegun(log, n, id) && !WriteEnded(log, n, id) <==> id in status && AtMostTwice(status[id := status[id] + 1])
  {
    if id in status {
      var next := status[id := status[id] + 1];
      assert next[id] == status[id] + 1;
    }
  }

  lemma {:induction false} StatusNext(log: Log, n: nat, s: Sanity, t: Sanity)
    requires n < |log| && StatusTells(log, n, s) && LineIsDue(log, n) && CheckLine(s, log[n]).Some?
    requires t == CheckLine(s, log[n]).value
    ensures StatusTells(log, n + 1, t)
  {
    var next := n + 1;
    forall id
      ensures HearTells(log, next, t.hears, id) && (HearEnded(log, next, id) ==> HearBegun(log, next, id))
    {
      HearNext(log, n, id);
      assert HearTells(log, n, s.hears, id);
    }
    forall id
      ensures WriteTells(log, next, t.writes, id) && (WriteEnded(log, next, id) ==> WriteBegun(log, next, id))
    {
      WriteNext(log, n, id);
      assert WriteTells(log, n, s.writes, id);
    }
    forall fun ensures OpenTells(log, next, t.reconciles, fun) {
      OpenNext(log, n, fun);
      assert OpenTells(log, n, s.reconciles, fun);
    }
  }

  ghost predicate AllDue(log: Log, n: nat)
    requires n <= |log|
  {
    forall i :: 0 <= i < n ==> LineIsDue(log, i)
  }

  lemma {:induction false} AcceptedUpTo(log: Log, n: nat)
    requires n <= |log|
    ensures Accepted(log[..n]) <==> AllDue(log, n)
    ensures Accepted(log[..n]) ==> StatusTells(log, n, Check(log[..n]).value)
  {
    if n == 0 {
      NothingTold(log);
    } else {
      assert log[..n][..n - 1] == log[..n - 1];
      AcceptedUpTo(log, n - 1);
      if Accepted(log[..n]) {
        AcceptedPrefix(log[..n], n - 1);
      }
      if Accepted(log[..n - 1]) {
        var s := Check(log[..n - 1]).value;
        LinePasses(log, n - 1, s);
        if LineIsDue(log, n - 1) {
          StatusNext(log, n - 1, s, CheckLine(s, log[n - 1]).value);
        }
      }
    }
  }

  lemma {:induction false} NothingTold(log: Log)
    ensures Accepted(log[..0]) && StatusTells(log, 0, Check(log[..0]).value)
  {
    forall id ensures HearTells(log, 0, map[], id) && WriteTells(log, 0, map[], id) {
    }
    forall fun ensures OpenTells(log, 0, map[], fun) {
    }
  }

  /** A log is accepted if and only if every line of it is due. */
  lemma {:induction false} AcceptedIff(log: Log)
    ensures Accepted(log) <==> AllDue(log, |log|)
  {
    AcceptedUpTo(log, |log|);
    assert log[..|log|] == log;
  }
}
