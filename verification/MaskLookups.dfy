/** Concurrent lookups in the mask table: the first read takes no lock, an entry is in the table before it is filled,
    and what a call returns is the entry itself. Reads and writes of one entry are taken as atomic. */
module MaskLookups {
  import opened TriggerExpr
  import opened Masks

  /** A call of the lookup. A malformed pattern ends the process, and with it the run. */
  datatype Phase =
    | Called
    | Missed
    | Locked
    | Filling(pending: set<string>)
    | Returned

  datatype State = State(mask: Mask, lock: Option<nat>, calls: map<nat, Phase>)

  datatype Event = Read(t: nat) | Lock(t: nat) | ReadAgain(t: nat) | Fill(t: nat, p: string) | Finish(t: nat)

  /** The keys that the calls ask for. */
  type Workload = map<nat, string>

  function Start(mask: Mask, work: Workload): State {
    State(mask, None, map t | t in work :: Called)
  }

  predicate At(s: State, t: nat, phase: Phase) {
    t in s.calls && s.calls[t] == phase
  }

  function Move(s: State, t: nat, phase: Phase): State {
    s.(calls := s.calls[t := phase])
  }

  /** The effect of a step, None if it cannot happen. */
  function Apply(matches: Matcher, work: Workload, s: State, e: Event): Option<State> {
    if e.t !in work || e.t !in s.calls then None
    else
      var key := work[e.t];
      match e
      case Read(t) =>
        if s.calls[t] != Called then None
        else if key in s.mask then Some(Move(s, t, Returned))
        else Some(Move(s, t, Missed))
      case Lock(t) =>
        if s.calls[t] != Missed || s.lock.Some? then None else Some(Move(s, t, Locked).(lock := Some(t)))
      case ReadAgain(t) =>
        if s.calls[t] != Locked then None
        else if key in s.mask then Some(Move(s, t, Returned).(lock := None))
        else Some(Move(s, t, Filling(s.mask.Keys + {key})).(mask := s.mask[key := {}]))
      case Fill(t, p) =>
        if !s.calls[t].Filling? || p !in s.calls[t].pending || p !in s.mask || key !in s.mask then None
        else if HasWildcard(p) && matches(p, key).None? then None
        else
          var paths := if HasWildcard(p) && matches(p, key).value then s.mask[key] + s.mask[p] else s.mask[key];
          Some(Move(s, t, Filling(s.calls[t].pending - {p})).(mask := s.mask[key := paths]))
      case Finish(t) =>
        if s.calls[t] != Filling({}) || key !in s.mask then None
        else Some(Move(s, t, Returned).(lock := None))
  }

  /** Any interleaving of the calls. */
  function Execute(matches: Matcher, work: Workload, mask: Mask, events: seq<Event>): Option<State> {
    if events == [] then Some(Start(mask, work))
    else
      match Execute(matches, work, mask, events[..|events| - 1])
      case None => None
      case Some(s) => Apply(matches, work, s, events[|events| - 1])
  }

  /** Every caller whose call has returned sees exactly what is due to its key, if it looks now. */
  ghost predicate Correct(matches: Matcher, work: Workload, learned: Table, configured: Table, s: State) {
    forall t :: t in work && At(s, t, Returned) ==>
      work[t] in s.mask && Exact(matches, learned, configured, work[t], s.mask[work[t]])
  }

  ghost predicate Exact(matches: Matcher, learned: Table, configured: Table, key: string, paths: set<Path>) {
    forall path :: path in paths <==> Due(matches, learned, configured, key, path)
  }

  /** Two calls ask for the same key, which the table does not hold yet and for which some path is masked. */
  ghost predicate Races(matches: Matcher, work: Workload, mask: Mask, learned: Table, configured: Table) {
    exists t, u :: t in work && u in work && t != u && work[t] == work[u]
                   && work[t] !in mask && exists path :: Due(matches, learned, configured, work[t], path)
  }

  // ----- What every run keeps -----

  ghost predicate InFill(s: State, work: Workload, key: string) {
    s.lock.Some? && s.lock.value in work && work[s.lock.value] == key
    && s.lock.value in s.calls && s.calls[s.lock.value].Filling?
  }

  /** Whoever is in the critical section holds the lock. */
  ghost predicate LockInv(s: State, work: Workload) {
    s.calls.Keys == work.Keys
    && forall t :: t in s.calls && (s.calls[t].Locked? || s.calls[t].Filling?) ==> s.lock == Some(t)
  }

  /** The table without the entry being filled is in service, and that entry is filled from it. */
  ghost predicate TableInv(matches: Matcher, s: State, work: Workload, learned: Table, configured: Table) {
    OwnPatterns(s.mask, learned, configured)
    && if s.lock.Some? && s.lock.value in s.calls && s.calls[s.lock.value].Filling? && s.lock.value in work then
         var key := work[s.lock.value];
         var was := s.mask - {key};
         Serves(matches, was, learned, configured) && FilledUpTo(matches, was, s.mask, key, s.calls[s.lock.value].pending)
       else Serves(matches, s.mask, learned, configured)
  }

  /** A key that was not there at the start was put there by a call that asked for it. */
  ghost predicate OriginInv(s: State, work: Workload, start: Mask) {
    start.Keys <= s.mask.Keys
    && (forall u :: u in work && u in s.calls && s.calls[u].Filling? ==> work[u] !in start)
    && forall key :: key in s.mask && key !in start ==> exists u :: Published(s, work, key, u)
  }

  ghost predicate Published(s: State, work: Workload, key: string, u: nat) {
    u in work && work[u] == key && u in s.calls && (s.calls[u].Filling? || s.calls[u].Returned?)
  }

  ghost predicate ReturnedInv(s: State, work: Workload) {
    forall t :: t in work && At(s, t, Returned) ==> work[t] in s.mask
  }

  ghost predicate Inv(matches: Matcher, s: State, work: Workload, start: Mask, learned: Table, configured: Table) {
    LockInv(s, work) && TableInv(matches, s, work, learned, configured) && OriginInv(s, work, start) && ReturnedInv(s, work)
  }

  predicate Plain(work: Workload) {
    forall t :: t in work ==> !HasWildcard(work[t])
  }

  /** A returned entry holds what is due: if it is being filled for another call, nothing is. */
  lemma {:induction false} ReturnedIsExact(matches: Matcher, s: State, work: Workload, start: Mask, learned: Table,
                                           configured: Table, t: nat)
    requires Lawful(matches) && Plain(work) && Inv(matches, s, work, start, learned, configured)
    requires !Races(matches, work, start, learned, configured) && t in work && At(s, t, Returned)
    ensures Exact(matches, learned, configured, work[t], s.mask[work[t]])
  {
    var key := work[t];
    if InFill(s, work, key) {
      var u, was := s.lock.value, s.mask - {key};
      forall path | path in s.mask[key] ensures Due(matches, learned, configured, key, path) {
        PartIsDue(matches, was, was - s.calls[u].pending, learned, configured, key, path);
      }
      assert t in work && u in work && t != u && work[t] == work[u] && work[t] !in start;
    } else if s.lock.Some? && s.lock.value in s.calls && s.calls[s.lock.value].Filling? {
      assert key in s.mask - {work[s.lock.value]};
    }
  }

  lemma {:induction false} PartIsDue(matches: Matcher, was: Mask, part: Mask, learned: Table, configured: Table,
                                     key: string, path: Path)
    requires OwnPaths(was, learned, configured) && OwnPatterns(was, learned, configured)
    requires (forall p :: p in part ==> p in was && was[p] == part[p]) && FromPattern(matches, part, key, path)
    ensures Due(matches, learned, configured, key, path)
  {
    var p :| p in part && HasWildcard(p) && matches(p, key) == Some(true) && path in part[p];
    assert FromPattern(matches, was, key, path);
    OwnPatternIsDue(matches, was, learned, configured, key, path);
  }

  lemma {:induction false} InvIsCorrect(matches: Matcher, s: State, work: Workload, start: Mask, learned: Table,
                                        configured: Table)
    requires Lawful(matches) && Plain(work) && Inv(matches, s, work, start, learned, configured)
    requires !Races(matches, work, start, learned, configured)
    ensures Correct(matches, work, learned, configured, s)
  {
    forall t | t in work && At(s, t, Returned)
      ensures work[t] in s.mask && Exact(matches, learned, configured, work[t], s.mask[work[t]])
    {
      ReturnedIsExact(matches, s, work, start, learned, configured, t);
    }
  }

  lemma {:induction false} ReadInv(matches: Matcher, s: State, work: Workload, start: Mask, learned: Table,
                                   configured: Table,
                                   t: nat, s': State)
    requires Inv(matches, s, work, start, learned, configured) && Apply(matches, work, s, Read(t)) == Some(s')
    ensures Inv(matches, s', work, start, learned, configured)
  {
    TableStays(matches, s, work, learned, configured, t, s');
    OriginStays(s, work, start, t, s');
  }

  lemma {:induction false} TableStays(matches: Matcher, s: State, work: Workload, learned: Table, configured: Table,
                                      t: nat, s': State)
    requires TableInv(matches, s, work, learned, configured) && t in s.calls && t in s'.calls
    requires s'.calls == s.calls[t := s'.calls[t]]
    requires !s.calls[t].Filling? && !s'.calls[t].Filling? && s'.mask == s.mask && s'.lock == s.lock
    ensures TableInv(matches, s', work, learned, configured)
  {
  }

  /** A call that has not published anything moves on. */
  lemma {:induction false} OriginStays(s: State, work: Workload, start: Mask, t: nat, s': State)
    requires OriginInv(s, work, start) && t in work && t in s.calls && t in s'.calls && !s'.calls[t].Filling?
    requires s'.mask == s.mask && s'.calls == s.calls[t := s'.calls[t]]
    requires s.calls[t].Filling? ==> s'.calls[t].Returned?
    requires !s.calls[t].Returned?
    ensures OriginInv(s', work, start)
  {
    forall key | key in s'.mask && key !in start ensures exists u :: Published(s', work, key, u) {
      var u :| Published(s, work, key, u);
      assert Published(s', work, key, u);
    }
  }

  lemma {:induction false} LockedInv(matches: Matcher, s: State, work: Workload, start: Mask, learned: Table,
                                     configured: Table,
                                     t: nat, s': State)
    requires Plain(work) && Inv(matches, s, work, start, learned, configured)
    requires Apply(matches, work, s, Lock(t)) == Some(s')
    ensures Inv(matches, s', work, start, learned, configured)
  {
    OriginStays(s, work, start, t, s');
  }

  lemma {:induction false} FoundInv(matches: Matcher, s: State, work: Workload, start: Mask, learned: Table,
                                    configured: Table, t: nat, s': State)
    requires Inv(matches, s, work, start, learned, configured) && t in work && At(s, t, Locked) && work[t] in s.mask
    requires s' == Move(s, t, Returned).(lock := None)
    ensures Inv(matches, s', work, start, learned, configured)
  {
    OriginStays(s, work, start, t, s');
  }

  lemma {:induction false} PublishedInv(matches: Matcher, s: State, work: Workload, start: Mask, learned: Table,
                                        configured: Table, t: nat, s': State)
    requires Plain(work) && Inv(matches, s, work, start, learned, configured)
    requires t in work && At(s, t, Locked) && work[t] !in s.mask && Apply(matches, work, s, ReadAgain(t)) == Some(s')
    ensures Inv(matches, s', work, start, learned, configured)
  {
    EntryPublished(matches, s, work, start, t, s');
    PublishedKeeps(s.mask, work[t], learned, configured, s'.mask);
  }

  lemma {:induction false} ReadAgainInv(matches: Matcher, s: State, work: Workload, start: Mask, learned: Table,
                                        configured: Table, t: nat, s': State)
    requires Plain(work) && Inv(matches, s, work, start, learned, configured)
    requires Apply(matches, work, s, ReadAgain(t)) == Some(s')
    ensures Inv(matches, s', work, start, learned, configured)
  {
    if work[t] in s.mask {
      FoundInv(matches, s, work, start, learned, configured, t, s');
    } else {
      PublishedInv(matches, s, work, start, learned, configured, t, s');
    }
  }

  lemma {:induction false} PublishedKeeps(mask: Mask, key: string, learned: Table, configured: Table, mask': Mask)
    requires OwnPatterns(mask, learned, configured) && !HasWildcard(key) && mask' == mask[key := {}]
    ensures OwnPatterns(mask', learned, configured) && mask.Keys <= mask'.Keys && key in mask'
  {
  }

  lemma {:induction false} EntryPublished(matches: Matcher, s: State, work: Workload, start: Mask, t: nat, s': State)
    requires OriginInv(s, work, start) && At(s, t, Locked) && t in work && work[t] !in s.mask
    requires Apply(matches, work, s, ReadAgain(t)) == Some(s')
    ensures OriginInv(s', work, start)
    ensures s'.mask - {work[t]} == s.mask && FilledUpTo(matches, s.mask, s'.mask, work[t], s'.calls[t].pending)
  {
    var key := work[t];
    FillStart(matches, s.mask, key);
    assert s'.mask.Keys == s.mask.Keys + {key};
    forall k | k in s'.mask && k !in start ensures exists u :: Published(s', work, k, u) {
      if k == key {
        assert Published(s', work, k, t);
      } else {
        var u :| Published(s, work, k, u);
        assert Published(s', work, k, u);
      }
    }
  }

  lemma {:induction false} FillInv(matches: Matcher, s: State, work: Workload, start: Mask, learned: Table,
                                   configured: Table,
                                   t: nat, p: string, s': State)
    requires Inv(matches, s, work, start, learned, configured) && Apply(matches, work, s, Fill(t, p)) == Some(s')
    ensures Inv(matches, s', work, start, learned, configured)
  {
    EntryFills(matches, s.mask, work[t], s.calls[t].pending, p, learned, configured, s'.mask);
    OriginFills(s, work, start, t, s');
  }

  /** One more pattern is taken into the entry. */
  lemma {:induction false} EntryFills(matches: Matcher, mask: Mask, key: string, pending: set<string>, p: string,
                                      learned: Table, configured: Table, mask': Mask)
    requires FilledUpTo(matches, mask - {key}, mask, key, pending) && OwnPatterns(mask, learned, configured)
    requires p in pending && p in mask && (HasWildcard(p) ==> matches(p, key).Some?)
    requires mask' == mask[key := if HasWildcard(p) && matches(p, key).value then mask[key] + mask[p] else mask[key]]
    ensures mask' - {key} == mask - {key} && mask'.Keys == mask.Keys && OwnPatterns(mask', learned, configured)
    ensures FilledUpTo(matches, mask' - {key}, mask', key, pending - {p})
  {
    FillStep(matches, mask - {key}, mask, key, pending, p);
    assert mask == mask[key := mask[key]];
    assert mask' - {key} == mask - {key};
  }

  lemma {:induction false} OriginFills(s: State, work: Workload, start: Mask, t: nat, s': State)
    requires OriginInv(s, work, start) && t in s.calls && t in s'.calls && s.calls[t].Filling? && s'.calls[t].Filling?
    requires s'.mask.Keys == s.mask.Keys && s'.calls == s.calls[t := s'.calls[t]]
    ensures OriginInv(s', work, start)
  {
    forall key | key in s'.mask && key !in start ensures exists u :: Published(s', work, key, u) {
      var u :| Published(s, work, key, u);
      assert Published(s', work, key, u);
    }
  }

  lemma {:induction false} FinishInv(matches: Matcher, s: State, work: Workload, start: Mask, learned: Table,
                                     configured: Table,
                                     t: nat, s': State)
    requires Lawful(matches) && Plain(work) && Inv(matches, s, work, start, learned, configured)
    requires Apply(matches, work, s, Finish(t)) == Some(s')
    ensures Inv(matches, s', work, start, learned, configured)
  {
    Filled(matches, s.mask - {work[t]}, s.mask, work[t], learned, configured);
    PlainDoesNotStray(matches, work[t]);
    OriginStays(s, work, start, t, s');
  }

  lemma {:induction false} PlainDoesNotStray(matches: Matcher, key: string)
    requires !HasWildcard(key)
    ensures !Strays(matches, key)
  {
  }

  lemma {:induction false} InvStep(matches: Matcher, s: State, work: Workload, start: Mask, learned: Table,
                                   configured: Table,
                                   e: Event, s': State)
    requires Lawful(matches) && Plain(work) && Inv(matches, s, work, start, learned, configured)
    requires Apply(matches, work, s, e) == Some(s')
    ensures Inv(matches, s', work, start, learned, configured)
  {
    match e
    case Read(t) => ReadInv(matches, s, work, start, learned, configured, t, s');
    case Lock(t) => LockedInv(matches, s, work, start, learned, configured, t, s');
    case ReadAgain(t) => ReadAgainInv(matches, s, work, start, learned, configured, t, s');
    case Fill(t, p) => FillInv(matches, s, work, start, learned, configured, t, p, s');
    case Finish(t) => FinishInv(matches, s, work, start, learned, configured, t, s');
  }

  lemma {:induction false} InvHolds(matches: Matcher, work: Workload, start: Mask, learned: Table, configured: Table,
                                    events: seq<Event>)
    requires Lawful(matches) && Plain(work) && Serves(matches, start, learned, configured)
    requires OwnPatterns(start, learned, configured)
    requires Execute(matches, work, start, events).Some?
    ensures Inv(matches, Execute(matches, work, start, events).value, work, start, learned, configured)
    decreases |events|
  {
    if events != [] {
      var before := events[..|events| - 1];
      InvHolds(matches, work, start, learned, configured, before);
      InvStep(matches, Execute(matches, work, start, before).value, work, start, learned, configured,
              events[|events| - 1], Execute(matches, work, start, events).value);
    }
  }

  // ----- Exactly when lookups may run concurrently -----

  /** While one call fills the entry, another returns it unfilled. */
  lemma {:induction false} RacingRun(matches: Matcher, work: Workload, start: Mask, learned: Table, configured: Table,
                                     t: nat, u: nat)
    returns (events: seq<Event>)
    requires t in work && u in work && t != u && work[t] == work[u] && work[t] !in start
    requires exists path :: Due(matches, learned, configured, work[t], path)
    ensures Execute(matches, work, start, events).Some?
    ensures !Correct(matches, work, learned, configured, Execute(matches, work, start, events).value)
  {
    var s0 := Start(start, work);
    var s1, s2, s3 := RaceStates(matches, work, s0, t, u);
    var e1 := [] + [Read(t)];
    var e2, e3 := e1 + [Lock(t)], e1 + [Lock(t)] + [ReadAgain(t)];
    Then(matches, work, start, [], s0, Read(t));
    Then(matches, work, start, e1, s1, Lock(t));
    Then(matches, work, start, e2, s2, ReadAgain(t));
    Then(matches, work, start, e3, s3, Read(u));
    events := e3 + [Read(u)];
    var s := Execute(matches, work, start, events).value;
    assert At(s, u, Returned) && s.mask[work[u]] == {};
  }

  lemma {:induction false} RaceStates(matches: Matcher, work: Workload, s0: State, t: nat, u: nat)
    returns (s1: State, s2: State, s3: State)
    requires t in work && u in work && t != u && work[t] == work[u] && work[t] !in s0.mask
    requires At(s0, t, Called) && At(s0, u, Called) && s0.lock.None?
    ensures Apply(matches, work, s0, Read(t)) == Some(s1) && Apply(matches, work, s1, Lock(t)) == Some(s2)
    ensures Apply(matches, work, s2, ReadAgain(t)) == Some(s3)
    ensures At(s3, u, Called) && work[u] in s3.mask && s3.mask[work[u]] == {}
  {
    s1 := Move(s0, t, Missed);
    s2 := Move(s1, t, Locked).(lock := Some(t));
    s3 := Apply(matches, work, s2, ReadAgain(t)).value;
  }

  lemma {:induction false} Then(matches: Matcher, work: Workload, start: Mask, events: seq<Event>, s: State, e: Event)
    requires Execute(matches, work, start, events) == Some(s)
    ensures Execute(matches, work, start, events + [e]) == Apply(matches, work, s, e)
  {
    assert (events + [e])[..|events + [e]| - 1] == events;
  }

  /** In all interleavings of lookups of plain keys, and at every moment after its call has returned, a caller sees what
      is due to its key, if and only if no two calls ask for the same key that is new to the table and has masked paths. */
  lemma {:induction false} LookupsAreExactIff(matches: Matcher, work: Workload, start: Mask, learned: Table,
                                              configured: Table)
    requires Lawful(matches) && Plain(work) && Serves(matches, start, learned, configured)
    requires OwnPatterns(start, learned, configured)
    ensures (forall events :: Execute(matches, work, start, events).Some? ==>
               Correct(matches, work, learned, configured, Execute(matches, work, start, events).value))
            <==> !Races(matches, work, start, learned, configured)
  {
    if Races(matches, work, start, learned, configured) {
      var t, u :| t in work && u in work && t != u && work[t] == work[u]
                  && work[t] !in start && exists path :: Due(matches, learned, configured, work[t], path);
      var events := RacingRun(matches, work, start, learned, configured, t, u);
      assert Execute(matches, work, start, events).Some?;
    } else {
      forall events | Execute(matches, work, start, events).Some?
        ensures Correct(matches, work, learned, configured, Execute(matches, work, start, events).value)
      {
        InvHolds(matches, work, start, learned, configured, events);
        InvIsCorrect(matches, Execute(matches, work, start, events).value, work, start, learned, configured);
      }
    }
  }
}
