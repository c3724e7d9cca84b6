/** From learned events to triggers and back: the occurrence numbers computed by the learner
    are the ones the coordinator counts. One resource key, one informer. */
module Replay {
  import opened TriggerExpr
  import opened JsonDelta
  import opened DiffExact
  import opened Places
  import opened EventDelta

  datatype HearType = Added | Updated | Deleted

  datatype Hear = Hear(etype: HearType, payload: Fields)

  /** Creations and deletions are told apart by their type only, updates by their difference. */
  datatype Signature = ByType(etype: HearType) | ByDiff(delta: Option<(Fields, Fields)>)

  function Before(events: seq<Hear>, i: nat): Fields
    requires i < |events|
  {
    if i == 0 then map[] else events[i - 1].payload
  }

  function SignatureOf(events: seq<Hear>, i: nat, m: Mask): Signature
    requires i < |events|
  {
    if events[i].etype.Updated? then ByDiff(LearnedDiff(Before(events, i), events[i].payload, m)) else ByType(events[i].etype)
  }

  /** The signatures of the first `n` events. */
  function Signatures(events: seq<Hear>, n: nat, m: Mask): (r: seq<Signature>)
    requires n <= |events|
    ensures |r| == n
    ensures forall i {:trigger SignatureOf(events, i, m)} :: 0 <= i < n ==> r[i] == SignatureOf(events, i, m)
  {
    if n == 0 then [] else Signatures(events, n - 1, m) + [SignatureOf(events, n - 1, m)]
  }

  /** How many of the first `n` signatures are `sig`. */
  function Count(sigs: seq<Signature>, n: nat, sig: Signature): nat
    requires n <= |sigs|
  {
    if n == 0 then 0 else Count(sigs, n - 1, sig) + if sigs[n - 1] == sig then 1 else 0
  }

  lemma {:induction false} CountGrows(sigs: seq<Signature>, i: nat, j: nat, sig: Signature)
    requires i <= j <= |sigs|
    ensures Count(sigs, i, sig) <= Count(sigs, j, sig)
    decreases j
  {
    if i < j {
      CountGrows(sigs, i, j - 1, sig);
    }
  }

  /** Occurrence numbers identify events of equal signature. */
  lemma {:induction false} OccurrenceIsUnique(sigs: seq<Signature>, i: nat, j: nat)
    requires i < |sigs| && j < |sigs| && sigs[i] == sigs[j]
    ensures Count(sigs, i + 1, sigs[i]) == Count(sigs, j + 1, sigs[i]) <==> i == j
  {
    if i < j {
      CountGrows(sigs, i + 1, j, sigs[i]);
    } else if j < i {
      CountGrows(sigs, j + 1, i, sigs[i]);
    }
  }

  ghost predicate CountsAre(counterOf: map<Signature, nat>, sigs: seq<Signature>, n: nat)
    requires n <= |sigs|
  {
    forall sig :: Count(sigs, n, sig) == if sig in counterOf then counterOf[sig] else 0
  }

  /** The signature of event `i`, given the object before it. */
  method EventSignature(prevObject: Fields, events: seq<Hear>, i: nat, m: Mask) returns (sig: Signature)
    requires i < |events| && prevObject == Before(events, i)
    ensures sig == Signatures(events, |events|, m)[i]
  {
    var diff := DiffEvent(prevObject, events[i].payload, m, false, true);
    sig := if events[i].etype.Updated? then ByDiff(diff) else ByType(events[i].etype);
    assert sig == SignatureOf(events, i, m);
  }

  /** Counts one more occurrence of a signature. */
  method CountUp(counterOf: map<Signature, nat>, sig: Signature, ghost sigs: seq<Signature>, ghost i: nat)
    returns (next: map<Signature, nat>)
    requires i < |sigs| && sig == sigs[i] && CountsAre(counterOf, sigs, i)
    ensures CountsAre(next, sigs, i + 1) && sig in next && next[sig] == Count(sigs, i + 1, sig)
  {
    next := counterOf;
    if sig !in next {
      next := next[sig := 0];
    }
    next := next[sig := next[sig] + 1];
  }

  /** The learner's pass over the events of one key (`compute_event_diff`). */
  method ComputeSignatureCounters(events: seq<Hear>, m: Mask) returns (counters: seq<nat>)
    ensures var sigs := Signatures(events, |events|, m);
            |counters| == |events|
            && forall i :: 0 <= i < |events| ==> counters[i] == Count(sigs, i + 1, sigs[i])
  {
    ghost var sigs := Signatures(events, |events|, m);
    counters := [];
    var counterOf: map<Signature, nat> := map[];
    var prevObject: Fields := map[];
    for i := 0 to |events|
      invariant |counters| == i
      invariant i < |events| ==> prevObject == Before(events, i)
      invariant forall k :: 0 <= k < i ==> counters[k] == Count(sigs, k + 1, sigs[k])
      invariant CountsAre(counterOf, sigs, i)
    {
      var signature := EventSignature(prevObject, events, i, m);
      counterOf := CountUp(counterOf, signature, sigs, i);
      counters := counters + [counterOf[signature]];
      prevObject := events[i].payload;
    }
  }

  // ----- Which events undo which -----

  /** `conflicting_event`: one of the two deletes the object, or the later object lacks something the earlier event set. */
  predicate Conflicts(events: seq<Hear>, i: nat, j: nat, m: Mask)
    requires i < |events| && j < |events|
  {
    (events[i].etype.Deleted? != events[j].etype.Deleted?)
    || (!events[i].etype.Deleted? && !events[j].etype.Deleted?
        && ConflictingPayload(CurHalf(LearnedDiff(Before(events, i), events[i].payload, m)), events[j].payload, m))
  }

  /** The later events that cancel event `i`; the first event counts as cancelled by all. */
  ghost predicate CancelledBy(events: seq<Hear>, i: nat, m: Mask, later: set<nat>)
    requires i < |events|
  {
    forall j: nat :: j in later <==> i < j < |events| && (i == 0 || Conflicts(events, i, j, m))
  }

  /** `compute_event_cancel` on the events of one key, named by their positions; none is computed for the last. */
  method ComputeEventCancel(events: seq<Hear>, m: Mask) returns (cancelled: seq<set<nat>>)
    ensures |cancelled| == (if events == [] then 0 else |events| - 1)
    ensures forall i :: 0 <= i < |cancelled| ==> CancelledBy(events, i, m, cancelled[i])
  {
    cancelled := [];
    if events == [] {
      return;
    }
    for i := 0 to |events| - 1
      invariant |cancelled| == i
      invariant forall k :: 0 <= k < i ==> CancelledBy(events, k, m, cancelled[k])
    {
      var later: set<nat> := {};
      for j := i + 1 to |events|
        invariant forall k: nat :: k in later <==> i < k < j && (i == 0 || Conflicts(events, i, k, m))
      {
        if i == 0 || Conflicts(events, i, j, m) {
          later := later + {j};
        }
      }
      cancelled := cancelled + [later];
    }
  }

  /** Something that the earlier event set differently, or put there, is gone or different in the later object: a place of
      the current half of the difference that the canonical form of the object does not share. */
  ghost predicate Loses(events: seq<Hear>, i: nat, j: nat, m: Mask)
    requires i < |events| && j < |events|
  {
    exists p, c, at ::
      Differ(Canonical(Before(events, i), m), Canonical(events[i].payload, m), Some((p, c)))
      && !PartAt(Obj(c), Obj(Canonical(events[j].payload, m)), at)
  }

  lemma {:induction false} ConflictIsLoss(events: seq<Hear>, i: nat, j: nat, m: Mask)
    requires i < |events| && j < |events|
    ensures ConflictingPayload(CurHalf(LearnedDiff(Before(events, i), events[i].payload, m)), events[j].payload, m)
            <==> Loses(events, i, j, m)
  {
    var prev, cur := Canonical(Before(events, i), m), Canonical(events[i].payload, m);
    var later := Obj(Canonical(events[j].payload, m));
    MapDeltaIff(prev, cur, MapDelta(prev, cur));
    if MapDelta(prev, cur).Some? {
      PartOfIff(Obj(MapDelta(prev, cur).value.1), later);
    }
    if p, c, at :| Differ(prev, cur, Some((p, c))) && !PartAt(Obj(c), later, at) {
      MapDeltaIff(prev, cur, Some((p, c)));
    }
  }

  /** An event but the first is cancelled by a later one if and only if just one of the two is a deletion, or neither is
      and the later object loses something that the event changed. */
  lemma {:induction false} CancelledIff(events: seq<Hear>, i: nat, j: nat, m: Mask, later: set<nat>)
    requires 0 < i < j < |events| && CancelledBy(events, i, m, later)
    ensures j in later <==>
            events[i].etype.Deleted? != events[j].etype.Deleted? || (!events[i].etype.Deleted? && Loses(events, i, j, m))
  {
    ConflictIsLoss(events, i, j, m);
  }

  /** No event but the first is cancelled by one of the same kind that leaves the object in the same canonical form. */
  lemma {:induction false} SameFormDoesNotCancel(events: seq<Hear>, i: nat, j: nat, m: Mask, later: set<nat>)
    requires 0 < i < j < |events| && CancelledBy(events, i, m, later)
    requires events[i].etype.Deleted? == events[j].etype.Deleted?
    requires Canonical(events[j].payload, m) == Canonical(events[i].payload, m)
    ensures j !in later
  {
    NoConflictWithSameForm(Before(events, i), events[i].payload, events[j].payload, m);
  }

  datatype Notification =
    | ObjectCreate
    | ObjectDelete
    | ObjectUpdate(prevState: Event, curState: Event)

  /** `isDesiredUpdate`: at the controller the difference must be the desired one, at the API server it must contain it. */
  predicate IsDesired(desired: (Fields, Fields), actual: Option<(Fields, Fields)>, exactMatch: bool) {
    if exactMatch then actual == Some(desired)
    else
      var d := if actual.None? then (map[], map[]) else actual.value;
      PartOf(Obj(desired.0), Obj(d.0)) && PartOf(Obj(desired.1), Obj(d.1))
  }

  /** `ObjectCreateTrigger`, `ObjectDeleteTrigger` and `ObjectUpdateTrigger`, for one key and observation point. */
  class Trigger {
    const etype: HearType
    /** None: an update trigger without state differences, which any update satisfies. */
    const desiredDiff: Option<(Fields, Fields)>
    const desiredOccurrence: nat
    /** False at the observation points of the API server. */
    const exactMatch: bool
    var actualOccurrence: nat

    constructor (etype: HearType, diff: Option<(Fields, Fields)>, occurrence: nat, exact: bool)
      ensures this.etype == etype && desiredDiff == diff && desiredOccurrence == occurrence && exactMatch == exact
      ensures actualOccurrence == 0
    {
      this.etype, desiredDiff, desiredOccurrence, exactMatch := etype, diff, occurrence, exact;
      actualOccurrence := 0;
    }

    /** One more occurrence; true at the desired one. */
    method Occurs() returns (fires: bool)
      modifies this
      ensures actualOccurrence == old(actualOccurrence) + 1 && fires == (actualOccurrence == desiredOccurrence)
    {
      actualOccurrence := actualOccurrence + 1;
      fires := actualOccurrence == desiredOccurrence;
    }

    /** `p` and `c` are the states of an update as received; earlier triggers may have canonicalised them under `first`. */
    method Satisfy(n: Notification, m: Mask, ghost p: Fields, ghost c: Fields, ghost first: Mask) returns (fires: bool)
      requires n.ObjectUpdate? ==> n.prevState.Holds(p, first) && n.curState.Holds(c, first) && n.prevState != n.curState
      modifies this, if n.ObjectUpdate? then {n.prevState, n.curState} else {}
      ensures MasksAlike(first, m) ==>
              var matches := match n
                case ObjectCreate => etype.Added?
                case ObjectDelete => etype.Deleted?
                case ObjectUpdate(_, _) =>
                  etype.Updated? && desiredDiff.Some? && IsDesired(desiredDiff.value, LearnedDiff(p, c, m), exactMatch);
              actualOccurrence == old(actualOccurrence) + (if matches then 1 else 0)
              && (fires <==> (matches && actualOccurrence == desiredOccurrence)
                             || (n.ObjectUpdate? && etype.Updated? && desiredDiff.None?))
    {
      fires := false;
      match n
      case ObjectCreate =>
        if etype.Added? {
          fires := Occurs();
        }
      case ObjectDelete =>
        if etype.Deleted? {
          fires := Occurs();
        }
      case ObjectUpdate(prev, cur) =>
        if etype.Updated? {
          if desiredDiff.None? {
            return true;
          }
          var actual := DiffEventInPlace(prev, cur, m, p, c, first);
          if IsDesired(desiredDiff.value, actual, exactMatch) {
            fires := Occurs();
          }
        }
    }
  }

  /** The coordinator's handler for one key: the last object seen, the empty object at first. */
  class Coordinator {
    var objectState: Fields
    const trigger: Trigger

    constructor (trigger: Trigger)
      ensures objectState == map[] && this.trigger == trigger
    {
      objectState := map[];
      this.trigger := trigger;
    }

    /** `NotifyTestBeforeControllerRecv`. */
    method Notify(event: Hear, m: Mask) returns (fires: bool)
      requires CAN_MARKER !in objectState && CAN_MARKER !in event.payload
      modifies this, trigger
      ensures objectState == event.payload
      ensures var matches := if !event.etype.Updated? then event.etype == trigger.etype
                else trigger.etype.Updated? && trigger.desiredDiff.Some?
                     && IsDesired(trigger.desiredDiff.value, LearnedDiff(old(objectState), event.payload, m), trigger.exactMatch);
              trigger.actualOccurrence == old(trigger.actualOccurrence) + (if matches then 1 else 0)
              && (fires <==> (matches && trigger.actualOccurrence == trigger.desiredOccurrence)
                             || (event.etype.Updated? && trigger.etype.Updated? && trigger.desiredDiff.None?))
    {
      assert MasksAlike(m, m);
      match event.etype {
        case Added =>
          fires := trigger.Satisfy(ObjectCreate, m, map[], map[], m);
        case Updated =>
          var prev := new Event(objectState);
          var cur := new Event(event.payload);
          fires := trigger.Satisfy(ObjectUpdate(prev, cur), m, objectState, event.payload, m);
        case Deleted =>
          fires := trigger.Satisfy(ObjectDelete, m, map[], map[], m);
      }
      objectState := event.payload;
    }
  }

  /** An event for which the learner generates a trigger: an update must change something. */
  predicate Detectable(events: seq<Hear>, i: nat, m: Mask)
    requires i < |events|
  {
    events[i].etype.Updated? ==> LearnedDiff(Before(events, i), events[i].payload, m).Some?
  }

  /** The trigger learned from event `i` fires at event `i` of the replay and at no other. */
  method ReplayEvent(events: seq<Hear>, i: nat, m: Mask) returns (fires: seq<bool>)
    requires i < |events| && Detectable(events, i, m)
    requires forall k :: 0 <= k < |events| ==> CAN_MARKER !in events[k].payload
    ensures |fires| == |events|
    ensures forall j :: 0 <= j < |events| ==> (fires[j] <==> j == i)
  {
    var counters := ComputeSignatureCounters(events, m);
    var diff := None;
    if events[i].etype.Updated? {
      diff := DiffEvent(Before(events, i), events[i].payload, m, false, true);
    }
    var trigger := new Trigger(events[i].etype, diff, counters[i], true);
    var coordinator := new Coordinator(trigger);
    ghost var sigs := Signatures(events, |events|, m);
    fires := [];
    for j := 0 to |events|
      invariant fresh(trigger) && fresh(coordinator) && coordinator.trigger == trigger && |fires| == j
      invariant j < |events| ==> coordinator.objectState == Before(events, j)
      invariant trigger.actualOccurrence == Count(sigs, j, sigs[i])
      invariant forall k :: 0 <= k < j ==> (fires[k] <==> k == i)
    {
      var f := coordinator.Notify(events[j], m);
      assert sigs[j] == SignatureOf(events, j, m) && sigs[i] == SignatureOf(events, i, m);
      if sigs[j] == sigs[i] {
        OccurrenceIsUnique(sigs, i, j);
      }
      fires := fires + [f];
    }
  }
}
