/** What the lines of a log say about reconciles: which begin a window counts from, which
    reconciles are open, and which cache reads have been collected. */
module ReconcileWindows {
  import opened ServerLog

  predicate BeginsAt(log: Log, i: int, fun: string) {
    0 <= i < |log| && log[i].BeforeReconcile? && log[i].fun == fun
  }

  predicate EndsAt(log: Log, i: int, fun: string) {
    0 <= i < |log| && log[i].AfterReconcile? && log[i].fun == fun
  }

  predicate CacheReadAt(log: Log, i: int) {
    0 <= i < |log| && log[i].CacheRead?
  }

  /** A write has ended between the two lines. */
  ghost predicate WriteEnds(log: Log, a: int, b: int) {
    exists w :: a < w < b && 0 <= w < |log| && log[w].AfterWrite?
  }

  /** Every begin counts; with compression, only one that a write separates from all earlier begins of the reconciler. */
  ghost predicate Counts(compress: bool, log: Log, i: int, fun: string) {
    BeginsAt(log, i, fun) && (compress ==> WritesSince(log, i, fun))
  }

  /** Of the begins that count, the last before line `n`. */
  ghost predicate LatestBegin(compress: bool, log: Log, n: int, fun: string, i: int) {
    i < n && Counts(compress, log, i, fun) && forall b :: i < b < n ==> !Counts(compress, log, b, fun)
  }

  /** A write has ended since the last begin. */
  ghost predicate WritesSince(log: Log, n: int, fun: string) {
    forall b :: b < n && BeginsAt(log, b, fun) ==> WriteEnds(log, b, n)
  }

  ghost predicate Begun(log: Log, n: int, fun: string) {
    exists b :: b < n && BeginsAt(log, b, fun)
  }

  /** The reconcile in which line `n` falls, by its id. */
  ghost predicate ReconcileIs(compress: bool, log: Log, n: int, fun: string, rid: string) {
    exists cur :: LatestBegin(compress, log, n, fun, cur) && log[cur].rid == rid
  }

  /** The window of a write that ends at line `n` opens with the last begin but one, or with the log. */
  ghost predicate OpensAt(compress: bool, log: Log, n: int, fun: string, start: int) {
    exists cur :: LatestBegin(compress, log, n, fun, cur) && BeginBefore(compress, log, cur, fun, start)
  }

  ghost predicate BeginBefore(compress: bool, log: Log, cur: int, fun: string, start: int) {
    if start == -1 then forall b :: b < cur ==> !Counts(compress, log, b, fun)
    else LatestBegin(compress, log, cur, fun, start)
  }

  ghost predicate Open(log: Log, n: int, fun: string) {
    exists b :: b < n && BeginsAt(log, b, fun) && NotEnded(log, b, n, fun)
  }

  ghost predicate NotEnded(log: Log, b: int, n: int, fun: string) {
    forall e :: b < e < n ==> !EndsAt(log, e, fun)
  }

  /** The end of a reconcile after which none is open. */
  ghost predicate ClosesAll(log: Log, i: int) {
    0 <= i < |log| && log[i].AfterReconcile? && NoneOpen(log, i + 1)
  }

  ghost predicate NoneOpen(log: Log, n: int) {
    forall fun :: !Open(log, n, fun)
  }

  /** The cache read at line `i` is still remembered at line `n`. */
  ghost predicate Collected(log: Log, n: int, i: int) {
    i < n && CacheReadAt(log, i) && Begun(log, i, log[i].fun) && forall z :: i < z < n ==> !ClosesAll(log, z)
  }

  ghost predicate ReadKeysAre(log: Log, n: int, keys: set<string>) {
    forall key :: key in keys <==> exists i :: Collected(log, n, i) && log[i].isGet && key in log[i].keys
  }

  ghost predicate ReadTypesAre(log: Log, n: int, types: set<string>) {
    forall rtype :: rtype in types <==> exists i :: Collected(log, n, i) && !log[i].isGet && log[i].rtype == rtype
  }

  // ----- One more line -----

  lemma {:induction false} BegunNext(log: Log, n: nat, fun: string)
    requires n < |log|
    ensures Begun(log, n + 1, fun) <==> Begun(log, n, fun) || BeginsAt(log, n, fun)
  {
    if Begun(log, n, fun) {
      var b :| b < n && BeginsAt(log, b, fun);
      assert b < n + 1;
    }
  }

  lemma {:induction false} LatestNext(compress: bool, log: Log, n: nat, fun: string, i: int)
    requires n < |log|
    ensures LatestBegin(compress, log, n + 1, fun, i) <==>
            if Counts(compress, log, n, fun) then i == n else LatestBegin(compress, log, n, fun, i)
  {
  }

  lemma {:induction false} EndsNext(log: Log, n: nat, b: int)
    requires n < |log|
    ensures WriteEnds(log, b, n + 1) <==> WriteEnds(log, b, n) || (b < n && log[n].AfterWrite?)
  {
    if WriteEnds(log, b, n) {
      var w :| b < w < n && 0 <= w < |log| && log[w].AfterWrite?;
      assert w < n + 1;
    }
  }

  lemma {:induction false} SinceNext(log: Log, n: nat, fun: string)
    requires n < |log|
    ensures WritesSince(log, n + 1, fun) <==>
            if BeginsAt(log, n, fun) then false else log[n].AfterWrite? || WritesSince(log, n, fun)
  {
    forall b ensures WriteEnds(log, b, n + 1) <==> WriteEnds(log, b, n) || (b < n && log[n].AfterWrite?) {
      EndsNext(log, n, b);
    }
    if BeginsAt(log, n, fun) {
      assert !WriteEnds(log, n, n + 1);
    }
  }

  lemma {:induction false} OpenNext(log: Log, n: nat, fun: string)
    requires n < |log|
    ensures Open(log, n + 1, fun) <==> BeginsAt(log, n, fun) || (!EndsAt(log, n, fun) && Open(log, n, fun))
  {
    if BeginsAt(log, n, fun) {
      assert NotEnded(log, n, n + 1, fun);
    } else if Open(log, n + 1, fun) {
      var b :| b < n + 1 && BeginsAt(log, b, fun) && NotEnded(log, b, n + 1, fun);
      assert NotEnded(log, b, n, fun);
    } else if !EndsAt(log, n, fun) && Open(log, n, fun) {
      var b :| b < n && BeginsAt(log, b, fun) && NotEnded(log, b, n, fun);
      assert NotEnded(log, b, n + 1, fun);
    }
  }

  lemma {:induction false} CollectedNext(log: Log, n: nat, i: int)
    requires n < |log|
    ensures Collected(log, n + 1, i) <==>
            (i < n && Collected(log, n, i) && !ClosesAll(log, n)) || (i == n && CacheReadAt(log, n) && Begun(log, n, log[n].fun))
  {
  }
}
